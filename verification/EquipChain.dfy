/** Upgrading equipment along its chain of successors, and reverting it back to the root. */
module EquipChain {
  import opened Options
  import opened Word32
  import opened AmountMaps
  import Chains

  /** The materials of one upgrade step: raw pairs, or JSON that does not decode. */
  datatype TransUse = Malformed | Pairs(pairs: seq<seq<u32>>)

  datatype Equip = Equip(id: u32, next: int, prev: int, level: u32, gold: u32, items: TransUse)

  type Catalog = map<u32, Equip>

  datatype Cost = Cost(items: Amounts, coins: u32)

  const ZERO := Cost(map[], 0)

  // ---------- Adding costs ----------

  function Plus(a: Cost, b: Cost): Cost {
    Cost(Combine(a.items, b.items), Add(a.coins, b.coins))
  }

  lemma PlusLaws(a: Cost, b: Cost, c: Cost)
    ensures Plus(a, b) == Plus(b, a)
    ensures Plus(Plus(a, b), c) == Plus(a, Plus(b, c))
    ensures Plus(ZERO, a) == a && Plus(a, ZERO) == a
  {
    hide Combine;
    CombineAssoc(a.items, b.items, c.items);
    AddAssoc(a.coins, b.coins, c.coins);
    CombineComm(a.items, b.items);
    CombineComm(map[], a.items);
    CombineEmpty(a.items);
  }

  predicate WellShaped(t: TransUse) {
    t.Pairs? && forall i :: 0 <= i < |t.pairs| ==> |t.pairs[i]| == 2
  }

  function AddPair(dst: Amounts, pair: seq<u32>): Amounts
    requires |pair| == 2
  {
    Put(dst, pair[0], pair[1])
  }

  ghost function AddPairs(dst: Amounts, pairs: seq<seq<u32>>): Amounts
    requires forall i :: 0 <= i < |pairs| ==> |pairs[i]| == 2
    decreases |pairs|
  {
    if pairs == [] then dst else AddPairs(AddPair(dst, pairs[0]), pairs[1..])
  }

  /** Adding pairs into a map adds what they amount to on their own. */
  lemma {:induction false} AddPairsCombines(dst: Amounts, more: Amounts, pairs: seq<seq<u32>>)
    requires forall i :: 0 <= i < |pairs| ==> |pairs[i]| == 2
    ensures AddPairs(Combine(dst, more), pairs) == Combine(dst, AddPairs(more, pairs))
    decreases |pairs|
  {
    if pairs != [] {
      PutCombines(dst, more, pairs[0][0], pairs[0][1]);
      AddPairsCombines(dst, AddPair(more, pairs[0]), pairs[1..]);
    }
  }

  /** The price of leaving `e` for its successor, which is also the refund for coming back to it. */
  ghost function StepCost(e: Equip): Cost
    requires WellShaped(e.items)
  {
    Cost(AddPairs(map[], e.items.pairs), e.gold)
  }

  /** Running totals that both directions add to. */
  class Totals {
    var items: Amounts
    var coins: u32

    constructor ()
      ensures View() == ZERO
    {
      items, coins := map[], 0;
    }

    function View(): Cost
      reads this
    {
      Cost(items, coins)
    }

    /** `addTransUseItems` on the item totals. */
    method AddTransUseItems(t: TransUse) returns (ok: bool)
      modifies `items
      ensures ok <==> WellShaped(t)
      ensures ok ==> items == AddPairs(old(items), t.pairs)
    {
      if t.Malformed? { return false; }
      ghost var before := items;
      assert t.pairs[0..] == t.pairs;
      for n := 0 to |t.pairs|
        invariant forall i :: 0 <= i < n ==> |t.pairs[i]| == 2
        invariant (forall i :: 0 <= i < |t.pairs| ==> |t.pairs[i]| == 2) ==>
                    AddPairs(items, t.pairs[n..]) == AddPairs(before, t.pairs)
      {
        var pair := t.pairs[n];
        if |pair| != 2 { return false; }
        assert t.pairs[n..][1..] == t.pairs[n + 1..];
        if pair[0] != 0 && pair[1] != 0 {
          items := items[pair[0] := Add(AmountOf(items, pair[0]), pair[1])];
        }
      }
      return true;
    }

    /** One step of either walk: coins first, then materials. */
    method AddStep(e: Equip) returns (ok: bool)
      modifies this
      ensures ok <==> WellShaped(e.items)
      ensures ok ==> View() == Plus(old(View()), StepCost(e))
    {
      ghost var before := items;
      coins := Add(coins, e.gold);
      ok := AddTransUseItems(e.items);
      if ok {
        AddPairsCombines(before, map[], e.items.pairs);
        assert Combine(before, map[]) == before;
      }
    }
  }

  // ---------- Up ----------

  datatype Target = Target(id: u32, cost: Cost)

  ghost function After(c: Cost, r: Option<Target>): Option<Target> {
    match r
    case None => None
    case Some(t) => Some(Target(t.id, Plus(c, t.cost)))
  }

  /** The piece of equipment can be upgraded once. */
  ghost predicate Upgradable(cat: Catalog, id: u32) {
    id in cat && cat[id].next != 0 && WellShaped(cat[id].items)
  }

  ghost function Upgrade(cat: Catalog, id: u32, lv: nat): Option<Target>
    decreases lv
  {
    if lv == 0 then Some(Target(id, ZERO))
    else if !Upgradable(cat, id) then None
    else After(StepCost(cat[id]), Upgrade(cat, Wrap(cat[id].next), lv - 1))
  }

  /** `computeEquipmentUpgradeCosts`. */
  method ComputeUpgradeCosts(cat: Catalog, startId: u32, lv: u32) returns (r: Option<Target>)
    ensures r == Upgrade(cat, startId, lv)
  {
    var currentId := startId;
    var totals := new Totals();
    PlusLaws(ZERO, ZERO, ZERO);
    if Upgrade(cat, startId, lv).Some? { PlusLaws(Upgrade(cat, startId, lv).value.cost, ZERO, ZERO); }
    for i := 0 to lv
      invariant fresh(totals)
      invariant Upgrade(cat, startId, lv) == After(totals.View(), Upgrade(cat, currentId, lv - i))
    {
      if currentId !in cat { return None; }
      var current := cat[currentId];
      if current.next == 0 { return None; }
      ghost var before, rest := totals.View(), Upgrade(cat, Wrap(current.next), lv - i - 1);
      var ok := totals.AddStep(current);
      if !ok { return None; }
      if rest.Some? { PlusLaws(before, StepCost(current), rest.value.cost); }
      currentId := Wrap(current.next);
    }
    PlusLaws(totals.View(), ZERO, ZERO);
    return Some(Target(currentId, totals.View()));
  }

  /** Upgrading by `a + b` levels is upgrading by `a`, then by `b`: same piece, same total price. */
  lemma {:induction false} UpgradeInTwo(cat: Catalog, id: u32, a: nat, b: nat)
    ensures Upgrade(cat, id, a + b) ==
            match Upgrade(cat, id, a)
            case None => None
            case Some(mid) => After(mid.cost, Upgrade(cat, mid.id, b))
    decreases a
  {
    if a == 0 {
      if Upgrade(cat, id, b).Some? { PlusLaws(Upgrade(cat, id, b).value.cost, ZERO, ZERO); }
    } else if Upgradable(cat, id) {
      var next := Wrap(cat[id].next);
      UpgradeInTwo(cat, next, a - 1, b);
      var mid := Upgrade(cat, next, a - 1);
      if mid.Some? && Upgrade(cat, mid.value.id, b).Some? {
        PlusLaws(StepCost(cat[id]), mid.value.cost, Upgrade(cat, mid.value.id, b).value.cost);
      }
    }
  }

  // ---------- Down ----------

  /** The walk down takes a step from `e`: there is a predecessor, and its materials can be read. */
  ghost predicate StepsDown(cat: Catalog, e: Equip) {
    e.prev != 0 && Wrap(e.prev) in cat && WellShaped(cat[Wrap(e.prev)].items)
  }

  /** Following `prev` from `e` comes to an end within `n` steps. */
  ghost predicate EndsWithin(cat: Catalog, e: Equip, n: nat)
    decreases n
  {
    StepsDown(cat, e) ==> n > 0 && EndsWithin(cat, cat[Wrap(e.prev)], n - 1)
  }

  ghost predicate Finite(cat: Catalog, e: Equip) {
    exists n: nat :: EndsWithin(cat, e, n)
  }

  ghost function DownLinks(cat: Catalog): Chains.Links {
    map id | id in cat && StepsDown(cat, cat[id]) :: Wrap(cat[id].prev)
  }

  lemma {:induction false} EndsAlongLinks(cat: Catalog, id: u32, n: nat)
    requires id in cat
    ensures EndsWithin(cat, cat[id], n) <==> Chains.Ends(DownLinks(cat), id, n)
    decreases n
  {
    if n > 0 && StepsDown(cat, cat[id]) { EndsAlongLinks(cat, Wrap(cat[id].prev), n - 1); }
  }

  /** The piece that the walk down has come to after `n` steps. */
  ghost function Below(cat: Catalog, e: Equip, n: nat): Equip
    decreases n
  {
    if n == 0 || !StepsDown(cat, e) then e else Below(cat, cat[Wrap(e.prev)], n - 1)
  }

  lemma {:induction false} BelowAlongLinks(cat: Catalog, id: u32, n: nat)
    requires id in cat
    ensures var at := Chains.Reached(DownLinks(cat), id, n); at in cat && Below(cat, cat[id], n) == cat[at]
    decreases n
  {
    if n > 0 && StepsDown(cat, cat[id]) { BelowAlongLinks(cat, Wrap(cat[id].prev), n - 1); }
  }

  /**
   The walk down ends exactly when it does within as many steps as there are pieces;
   otherwise it goes on for ever.
   */
  lemma FiniteIff(cat: Catalog, id: u32)
    requires id in cat
    ensures Finite(cat, cat[id]) <==> EndsWithin(cat, cat[id], |cat|)
    ensures Finite(cat, cat[id]) <==> exists n: nat :: !StepsDown(cat, Below(cat, cat[id], n))
  {
    if n: nat :| EndsWithin(cat, cat[id], n) {
      EndsAlongLinks(cat, id, n);
      Chains.EndsWithinSize(DownLinks(cat), cat.Keys, id, n);
      EndsAlongLinks(cat, id, |cat|);
      EndsWhereNoStep(cat, id, n);
    }
    if n: nat :| !StepsDown(cat, Below(cat, cat[id], n)) { EndsWhereNoStep(cat, id, n); }
  }

  lemma EndsWhereNoStep(cat: Catalog, id: u32, n: nat)
    requires id in cat
    ensures EndsWithin(cat, cat[id], n) <==> !StepsDown(cat, Below(cat, cat[id], n))
  {
    EndsAlongLinks(cat, id, n);
    BelowAlongLinks(cat, id, n);
    Chains.EndsWhereReached(DownLinks(cat), id, n);
  }

  /** The root below `e` and the refund for every step down to it. */
  ghost function Unwind(cat: Catalog, e: Equip, n: nat): Option<Target>
    requires EndsWithin(cat, e, n)
    decreases n
  {
    if e.prev == 0 then Some(Target(e.id, ZERO))
    else if !StepsDown(cat, e) then None
    else After(StepCost(cat[Wrap(e.prev)]), Unwind(cat, cat[Wrap(e.prev)], n - 1))
  }

  lemma {:induction false} UnwindSame(cat: Catalog, e: Equip, m: nat, n: nat)
    requires EndsWithin(cat, e, m) && EndsWithin(cat, e, n)
    ensures Unwind(cat, e, m) == Unwind(cat, e, n)
    decreases m
  {
    if StepsDown(cat, e) {
      UnwindSame(cat, cat[Wrap(e.prev)], m - 1, n - 1);
    }
  }

  ghost function Refund(cat: Catalog, e: Equip): Option<Target>
    requires Finite(cat, e)
  {
    var n: nat :| EndsWithin(cat, e, n);
    Unwind(cat, e, n)
  }

  lemma RefundIs(cat: Catalog, e: Equip, n: nat)
    requires EndsWithin(cat, e, n)
    ensures Finite(cat, e) && Refund(cat, e) == Unwind(cat, e, n)
  {
    var m: nat :| EndsWithin(cat, e, m) && Refund(cat, e) == Unwind(cat, e, m);
    UnwindSame(cat, e, m, n);
  }

  /** One step of the walk down. */
  lemma RefundStep(cat: Catalog, e: Equip)
    requires Finite(cat, e) && e.prev != 0 && Wrap(e.prev) in cat
    ensures var p := cat[Wrap(e.prev)];
            && (WellShaped(p.items) ==> Finite(cat, p))
            && Refund(cat, e) == if WellShaped(p.items) then After(StepCost(p), Refund(cat, p)) else None
  {
    var n: nat :| EndsWithin(cat, e, n);
    RefundIs(cat, e, n);
    if StepsDown(cat, e) { RefundIs(cat, cat[Wrap(e.prev)], n - 1); }
  }

  datatype Reverted = Error | Refused | Done(target: Target)

  ghost function Revert(cat: Catalog, id: u32): Reverted
    requires id in cat && cat[id].level > 1 ==> Finite(cat, cat[id])
  {
    if id !in cat then Error
    else if cat[id].prev == 0 || cat[id].level <= 1 then Refused
    else match Refund(cat, cat[id])
         case None => Error
         case Some(t) => Done(t)
  }

  /** `computeRevertEquipmentRefunds`; asked for where the walk comes to an end. */
  method ComputeRevertRefunds(cat: Catalog, id: u32) returns (r: Reverted)
    requires id in cat && cat[id].level > 1 ==> Finite(cat, cat[id])
    ensures r == Revert(cat, id)
  {
    if id !in cat { return Error; }
    var current := cat[id];
    if current.prev == 0 || current.level <= 1 { return Refused; }
    var totals := new Totals();
    ghost var n: nat :| EndsWithin(cat, current, n);
    RefundIs(cat, current, n);
    ghost var whole := Refund(cat, current);
    if whole.Some? { PlusLaws(whole.value.cost, ZERO, ZERO); }
    while current.prev != 0
      invariant fresh(totals) && EndsWithin(cat, current, n)
      invariant whole == After(totals.View(), Unwind(cat, current, n))
      decreases n
    {
      var prevId := Wrap(current.prev);
      if prevId !in cat { return Error; }
      var prev := cat[prevId];
      ghost var before := totals.View();
      var ok := totals.AddStep(prev);
      if !ok { return Error; }
      ghost var rest := Unwind(cat, prev, n - 1);
      if rest.Some? { PlusLaws(before, StepCost(prev), rest.value.cost); }
      current := prev;
      n := n - 1;
    }
    PlusLaws(totals.View(), ZERO, ZERO);
    return Done(Target(current.id, totals.View()));
  }

  // ---------- Up and down again ----------

  /** A catalog whose `next` and `prev` links are each other's inverses. */
  ghost predicate Linked(cat: Catalog) {
    && 0 !in cat
    && forall id :: id in cat ==>
         var e := cat[id];
         && e.id == id
         && (e.next != 0 ==> 0 < e.next < WORD && e.next in cat && cat[e.next].prev == id)
         && (e.prev != 0 ==> 0 < e.prev < WORD && e.prev in cat && cat[e.prev].next == id && e.level > 1)
  }

  lemma SuccessorEnds(cat: Catalog, id: u32)
    requires Linked(cat) && id in cat && cat[id].next != 0 && Finite(cat, cat[id])
    ensures Finite(cat, cat[Wrap(cat[id].next)])
  {
    var n: nat :| EndsWithin(cat, cat[id], n);
    assert EndsWithin(cat, cat[Wrap(cat[id].next)], n + 1);
  }

  /** What an upgraded piece is worth: what it was worth before, and all that was paid since. */
  lemma {:induction false} RefundGrowsByPrice(cat: Catalog, id: u32, lv: nat)
    requires Linked(cat) && id in cat && Finite(cat, cat[id])
    requires Upgrade(cat, id, lv).Some?
    ensures var t := Upgrade(cat, id, lv).value;
            && t.id in cat && Finite(cat, cat[t.id])
            && (lv > 0 ==> cat[t.id].prev != 0)
            && Refund(cat, cat[t.id]) == After(t.cost, Refund(cat, cat[id]))
    decreases lv
  {
    if lv == 0 {
      if Refund(cat, cat[id]).Some? { PlusLaws(Refund(cat, cat[id]).value.cost, ZERO, ZERO); }
    } else {
      var next := Wrap(cat[id].next);
      SuccessorEnds(cat, id);
      RefundStep(cat, cat[next]);
      RefundGrowsByPrice(cat, next, lv - 1);
      var rest := Upgrade(cat, next, lv - 1).value;
      if Refund(cat, cat[id]).Some? {
        var r := Refund(cat, cat[id]).value.cost;
        PlusLaws(rest.cost, StepCost(cat[id]), r);
      }
      PlusLaws(rest.cost, StepCost(cat[id]), ZERO);
    }
  }

  /** Reverting after an upgrade: the root of the original piece, and its refund plus everything paid. */
  lemma RevertUndoesUpgrade(cat: Catalog, id: u32, lv: nat)
    requires Linked(cat) && id in cat && Finite(cat, cat[id]) && lv > 0
    requires Upgrade(cat, id, lv).Some?
    ensures var t := Upgrade(cat, id, lv).value;
            && t.id in cat && Finite(cat, cat[t.id])
            && Revert(cat, t.id) == (match Refund(cat, cat[id])
                                     case None => Error
                                     case Some(base) => Done(Target(base.id, Plus(t.cost, base.cost))))
  {
    RefundGrowsByPrice(cat, id, lv);
  }
}
