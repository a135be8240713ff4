/** What upgrading and reverting equipment costs and pays back, summed over the rows of the tables. */
module EquipNumbers {
  import opened Options
  import opened Word32
  import opened AmountMaps
  import opened EquipChain
  import opened EquipBag

  /** The amounts that a list of pairs names for an item. */
  function Named(pairs: seq<seq<u32>>, item: u32): nat
    decreases |pairs|
  {
    if pairs == [] then 0
    else (if |pairs[0]| == 2 && pairs[0][0] == item then pairs[0][1] else 0) + Named(pairs[1..], item)
  }

  lemma {:induction false} AddPairsNamed(dst: Amounts, pairs: seq<seq<u32>>, item: u32)
    requires forall i :: 0 <= i < |pairs| ==> |pairs[i]| == 2
    ensures item != 0 ==> AmountOf(AddPairs(dst, pairs), item) == (AmountOf(dst, item) + Named(pairs, item)) % WORD
    ensures AmountOf(AddPairs(dst, pairs), 0) == AmountOf(dst, 0)
    ensures item in AddPairs(dst, pairs) <==> item in dst || (item != 0 && Named(pairs, item) > 0)
    decreases |pairs|
  {
    if pairs != [] {
      var next := AddPair(dst, pairs[0]);
      AddPairsNamed(next, pairs[1..], item);
      var more := if pairs[0][0] == item then pairs[0][1] else 0;
      PutAt(dst, pairs[0][0], pairs[0][1], item);
      if item != 0 { WordsAdd(AmountOf(dst, item) + more, Named(pairs[1..], item)); }
    }
  }

  lemma PutAt(dst: Amounts, id: u32, n: u32, item: u32)
    ensures item != 0 ==>
              AmountOf(Put(dst, id, n), item) == (AmountOf(dst, item) + if id == item then n else 0) % WORD
    ensures AmountOf(Put(dst, id, n), 0) == AmountOf(dst, 0)
    ensures item in Put(dst, id, n) <==> item in dst || (item == id != 0 && n > 0)
  {
  }

  lemma WordsAdd(a: nat, b: nat)
    ensures (a % WORD + b) % WORD == (a + b) % WORD
    ensures (b + a % WORD) % WORD == (b + a) % WORD
  {
    WrapAdd(a, b);
  }

  /** One step up or down: the row's `trans_use_gold` and the pairs of its `trans_use_item`. */
  lemma StepInNumbers(e: Equip, item: u32)
    requires WellShaped(e.items)
    ensures StepCost(e).coins == e.gold
    ensures AmountOf(StepCost(e).items, item) == if item == 0 then 0 else Named(e.items.pairs, item) % WORD
    ensures item in StepCost(e).items <==> item != 0 && Named(e.items.pairs, item) > 0
  {
    AddPairsNamed(map[], e.items.pairs, item);
  }

  // ---------- Up ----------

  /** The piece `n` steps up the chain of successors. */
  function Above(cat: Catalog, id: u32, n: nat): u32
    decreases n
  {
    if n == 0 || id !in cat then id else Above(cat, cat[id].next % WORD, n - 1)
  }

  /** The coins of `n` rows of the chain, from `id` on. */
  function GoldUp(cat: Catalog, id: u32, n: nat): nat
    decreases n
  {
    if n == 0 || id !in cat then 0 else cat[id].gold + GoldUp(cat, cat[id].next % WORD, n - 1)
  }

  function ItemUp(cat: Catalog, id: u32, n: nat, item: u32): nat
    decreases n
  {
    if n == 0 || id !in cat then 0
    else (if cat[id].items.Pairs? then Named(cat[id].items.pairs, item) else 0) +
         ItemUp(cat, cat[id].next % WORD, n - 1, item)
  }

  /** Each of the `n` pieces has a row, a successor, and materials in pairs. */
  ghost predicate CanClimb(cat: Catalog, id: u32, n: nat)
    decreases n
  {
    n > 0 ==> id in cat && cat[id].next != 0 && WellShaped(cat[id].items) && CanClimb(cat, cat[id].next % WORD, n - 1)
  }

  /** An upgrade by `n` levels: when it exists, where it leads, and what it costs in 32-bit sums. */
  lemma {:induction false} UpgradeInNumbers(cat: Catalog, id: u32, n: nat, item: u32)
    ensures Upgrade(cat, id, n).Some? <==> CanClimb(cat, id, n)
    ensures Upgrade(cat, id, n).Some? ==>
              var t := Upgrade(cat, id, n).value;
              && t.id == Above(cat, id, n)
              && t.cost.coins == GoldUp(cat, id, n) % WORD
              && AmountOf(t.cost.items, item) == (if item == 0 then 0 else ItemUp(cat, id, n, item) % WORD)
              && (item in t.cost.items <==> item != 0 && ItemUp(cat, id, n, item) > 0)
    decreases n
  {
    hide StepCost;
    if n > 0 && Upgradable(cat, id) {
      var e := cat[id];
      UpgradeInNumbers(cat, Wrap(e.next), n - 1, item);
      StepInNumbers(e, item);
      var rest := Upgrade(cat, Wrap(e.next), n - 1);
      if rest.Some? {
        CostSum(StepCost(e), rest.value.cost, e.gold, GoldUp(cat, Wrap(e.next), n - 1), item,
                if item == 0 then 0 else Named(e.items.pairs, item),
                if item == 0 then 0 else ItemUp(cat, Wrap(e.next), n - 1, item));
      }
    }
  }

  lemma CostSum(a: Cost, b: Cost, x: nat, y: nat, item: u32, m: nat, n: nat)
    requires a.coins == x % WORD && b.coins == y % WORD
    requires AmountOf(a.items, item) == m % WORD && AmountOf(b.items, item) == n % WORD
    ensures Plus(a, b).coins == (x + y) % WORD
    ensures AmountOf(Plus(a, b).items, item) == (m + n) % WORD
    ensures item in Plus(a, b).items <==> item in a.items || item in b.items
  {
    CombineAt(a.items, b.items, item);
    SumOfWords(x, y);
    SumOfWords(m, n);
  }

  lemma SumOfWords(x: nat, y: nat)
    ensures Add(x % WORD, y % WORD) == (x + y) % WORD
  {
    WrapSum(x, y);
  }

  /**
   The upgrade handler: accepted exactly with the piece in the bag, a chain to climb, and
   the coins and materials there; takes just those and puts the piece above in its place.
   */
  lemma UpgradedInNumbers(inv: Inventory, cat: Catalog, id: u32, lv: u32)
    ensures var r, coins := Upgraded(inv, cat, id, lv), GoldUp(cat, id, lv) % WORD;
            && (r.Some? <==>
                  && id != 0 && lv > 0 && Count(inv.gear, id) >= 1 && CanClimb(cat, id, lv) && coins <= inv.coins
                  && forall k: u32 :: k != 0 && ItemUp(cat, id, lv, k) > 0 ==>
                       k in inv.items && ItemUp(cat, id, lv, k) % WORD <= inv.items[k])
            && (r.Some? ==>
                  && r.value.coins == inv.coins - coins
                  && (forall k: u32 :: k != 0 ==>
                        Count(r.value.items, k) == Count(inv.items, k) - ItemUp(cat, id, lv, k) % WORD)
                  && (forall k: u32 :: Count(r.value.gear, k) ==
                        Count(inv.gear, k) - (if k == id then 1 else 0) +
                        (if k == Above(cat, id, lv) then 1 else 0)))
  {
    hide Upgrade, GoldUp, ItemUp, CanClimb, Above, Plus;
    var up := Upgrade(cat, id, lv);
    UpgradeInNumbers(cat, id, lv, 0);
    forall k: u32
      ensures up.Some? ==>
                && AmountOf(up.value.cost.items, k) == (if k == 0 then 0 else ItemUp(cat, id, lv, k) % WORD)
                && (k in up.value.cost.items <==> k != 0 && ItemUp(cat, id, lv, k) > 0)
    {
      UpgradeInNumbers(cat, id, lv, k);
    }
    if up.Some? {
      assert Affords(inv.items, up.value.cost.items) <==>
             forall k: u32 :: k != 0 && ItemUp(cat, id, lv, k) > 0 ==>
               k in inv.items && ItemUp(cat, id, lv, k) % WORD <= inv.items[k];
    }
  }

  // ---------- Down ----------

  function GoldDown(cat: Catalog, e: Equip, n: nat): nat
    decreases n
  {
    if n == 0 || e.prev == 0 || e.prev % WORD !in cat then 0
    else cat[e.prev % WORD].gold + GoldDown(cat, cat[e.prev % WORD], n - 1)
  }

  function ItemDown(cat: Catalog, e: Equip, n: nat, item: u32): nat
    decreases n
  {
    if n == 0 || e.prev == 0 || e.prev % WORD !in cat then 0
    else
      var p := cat[e.prev % WORD];
      (if p.items.Pairs? then Named(p.items.pairs, item) else 0) + ItemDown(cat, p, n - 1, item)
  }

  /** The root is reached where nothing precedes. */
  function Root(cat: Catalog, e: Equip, n: nat): Equip
    decreases n
  {
    if n == 0 || e.prev == 0 || e.prev % WORD !in cat then e else Root(cat, cat[e.prev % WORD], n - 1)
  }

  /** Every row on the way down to the root is there and has its materials in pairs. */
  ghost predicate CanDescend(cat: Catalog, e: Equip, n: nat)
    decreases n
  {
    e.prev != 0 ==>
      && n > 0 && e.prev % WORD in cat && WellShaped(cat[e.prev % WORD].items)
      && CanDescend(cat, cat[e.prev % WORD], n - 1)
  }

  /** Coming down pays back what each row passed asks for leaving it. */
  lemma {:induction false} RefundInNumbers(cat: Catalog, e: Equip, n: nat, item: u32)
    requires EndsWithin(cat, e, n)
    ensures Finite(cat, e)
    ensures Refund(cat, e).Some? <==> CanDescend(cat, e, n)
    ensures Refund(cat, e).Some? ==>
              var t := Refund(cat, e).value;
              && t.id == Root(cat, e, n).id && Root(cat, e, n).prev == 0
              && t.cost.coins == GoldDown(cat, e, n) % WORD
              && AmountOf(t.cost.items, item) == if item == 0 then 0 else ItemDown(cat, e, n, item) % WORD
    decreases n
  {
    hide StepCost;
    RefundIs(cat, e, n);
    if StepsDown(cat, e) {
      var p := cat[Wrap(e.prev)];
      RefundIs(cat, p, n - 1);
      RefundInNumbers(cat, p, n - 1, item);
      StepInNumbers(p, item);
      if Refund(cat, p).Some? {
        CostSum(StepCost(p), Refund(cat, p).value.cost, p.gold, GoldDown(cat, p, n - 1), item,
                if item == 0 then 0 else Named(p.items.pairs, item),
                if item == 0 then 0 else ItemDown(cat, p, n - 1, item));
      }
    }
  }

  /** The revert handler: one revert item (15007) for the root piece and the refund. */
  lemma RevertedInNumbers(inv: Inventory, cat: Catalog, id: u32, n: nat)
    requires id in cat && EndsWithin(cat, cat[id], n)
    ensures Finite(cat, cat[id])
    ensures RevertedBag(inv, cat, id).Some? <==>
            && id != 0 && Count(inv.gear, id) >= 1 && Count(inv.items, 15007) >= 1
            && cat[id].prev != 0 && cat[id].level > 1 && CanDescend(cat, cat[id], n)
    ensures RevertedBag(inv, cat, id).Some? ==>
              var r, e := RevertedBag(inv, cat, id).value, cat[id];
              && r.coins == inv.coins + GoldDown(cat, e, n) % WORD
              && (forall k: u32 :: k != 0 ==>
                    Count(r.items, k) ==
                    Count(inv.items, k) - (if k == 15007 then 1 else 0) + ItemDown(cat, e, n, k) % WORD)
              && (forall k: u32 :: Count(r.gear, k) ==
                    Count(inv.gear, k) - (if k == id then 1 else 0) + (if k == Root(cat, e, n).id then 1 else 0))
  {
    hide Refund, GoldDown, ItemDown, Root, Plus, CanDescend, EndsWithin, Finite;
    var e := cat[id];
    RefundInNumbers(cat, e, n, 0);
    forall k: u32
      ensures Refund(cat, e).Some? ==>
                AmountOf(Refund(cat, e).value.cost.items, k) == if k == 0 then 0 else ItemDown(cat, e, n, k) % WORD
    {
      RefundInNumbers(cat, e, n, k);
    }
  }
}
