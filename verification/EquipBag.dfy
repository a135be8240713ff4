/** The two handlers over a commander's coins, items and unequipped gear. */
module EquipBag {
  import opened Options
  import opened Word32
  import opened AmountMaps
  import opened EquipChain

  const REVERT_ITEM: u32 := 15007

  type Stock = map<u32, nat>

  datatype Inventory = Inventory(coins: nat, items: Stock, gear: Stock)

  function Count(m: Stock, id: u32): nat {
    if id in m then m[id] else 0
  }

  // ---------- Stock ----------

  /** An emptied gear entry is deleted. */
  function TakeGear(gear: Stock, id: u32): Stock
    requires Count(gear, id) >= 1
  {
    if gear[id] == 1 then gear - {id} else gear[id := gear[id] - 1]
  }

  function PutGear(gear: Stock, id: u32): Stock {
    gear[id := Count(gear, id) + 1]
  }

  ghost predicate Affords(items: Stock, cost: Amounts) {
    forall id :: id in cost ==> id in items && items[id] >= cost[id]
  }

  ghost function Spend(items: Stock, cost: Amounts): Stock
    requires Affords(items, cost)
  {
    map id | id in items :: if id in cost then items[id] - cost[id] else items[id]
  }

  ghost function Receive(items: Stock, gain: Amounts): Stock {
    map id | id in items.Keys + gain.Keys :: Count(items, id) + AmountOf(gain, id)
  }

  // ---------- The handlers on values ----------

  ghost function Upgraded(inv: Inventory, cat: Catalog, id: u32, lv: u32): Option<Inventory> {
    if id == 0 || lv == 0 || Count(inv.gear, id) < 1 then None
    else match Upgrade(cat, id, lv)
         case None => None
         case Some(t) =>
           if inv.coins < t.cost.coins || !Affords(inv.items, t.cost.items) then None
           else Some(Inventory(inv.coins - t.cost.coins, Spend(inv.items, t.cost.items),
                               PutGear(TakeGear(inv.gear, id), t.id)))
  }

  ghost function RevertedBag(inv: Inventory, cat: Catalog, id: u32): Option<Inventory>
    requires id in cat && cat[id].level > 1 ==> Finite(cat, cat[id])
  {
    if id == 0 || Count(inv.gear, id) < 1 || Count(inv.items, REVERT_ITEM) < 1 then None
    else match Revert(cat, id)
         case Error => None
         case Refused => None
         case Done(t) =>
           Some(Inventory(inv.coins + t.cost.coins,
                          Receive(inv.items[REVERT_ITEM := inv.items[REVERT_ITEM] - 1], t.cost.items),
                          PutGear(TakeGear(inv.gear, id), t.id)))
  }

  /** Both handlers, on the commander's record. */
  class Commander {
    var coins: nat
    var items: Stock
    var gear: Stock

    ghost function View(): Inventory
      reads this
    {
      Inventory(coins, items, gear)
    }

    /** `UpgradeEquipmentInBag`. */
    method UpgradeInBag(cat: Catalog, id: u32, lv: u32) returns (ok: bool)
      modifies this
      ensures ok <==> Upgraded(old(View()), cat, id, lv).Some?
      ensures View() == if ok then Upgraded(old(View()), cat, id, lv).value else old(View())
    {
      if id == 0 || lv == 0 { return false; }
      if id !in gear || gear[id] < 1 { return false; }
      var r := ComputeUpgradeCosts(cat, id, lv);
      if r.None? { return false; }
      var target, cost := r.value.id, r.value.cost;
      if cost.coins != 0 && coins < cost.coins { return false; }
      var enough := HasAll(cost.items);
      if !enough { return false; }
      if cost.coins != 0 { coins := coins - cost.coins; }
      ConsumeAll(cost.items);
      gear := PutGear(TakeGear(gear, id), target);
      return true;
    }

    method HasAll(cost: Amounts) returns (ok: bool)
      ensures ok <==> Affords(items, cost)
    {
      var todo := cost.Keys;
      while todo != {}
        invariant todo <= cost.Keys
        invariant forall id :: id in cost && id !in todo ==> id in items && items[id] >= cost[id]
      {
        var id: u32 :| id in todo;
        if id !in items || items[id] < cost[id] { return false; }
        todo := todo - {id};
      }
      return true;
    }

    method ConsumeAll(cost: Amounts)
      requires Affords(items, cost)
      modifies `items
      ensures items == Spend(old(items), cost)
    {
      ghost var before := items;
      var todo := cost.Keys;
      while todo != {}
        invariant todo <= cost.Keys && items.Keys == before.Keys
        invariant forall id :: id in items ==>
                    items[id] == if id in cost && id !in todo then before[id] - cost[id] else before[id]
      {
        var id: u32 :| id in todo;
        if cost[id] != 0 { items := items[id := items[id] - cost[id]]; }
        todo := todo - {id};
      }
    }

    /** `RevertEquipment`. */
    method RevertInBag(cat: Catalog, id: u32) returns (ok: bool)
      requires id in cat && cat[id].level > 1 ==> Finite(cat, cat[id])
      modifies this
      ensures ok <==> RevertedBag(old(View()), cat, id).Some?
      ensures View() == if ok then RevertedBag(old(View()), cat, id).value else old(View())
    {
      hide Receive, TakeGear, PutGear, Refund, Finite;
      if id == 0 { return false; }
      if id !in gear || gear[id] == 0 { return false; }
      if REVERT_ITEM !in items || items[REVERT_ITEM] < 1 { return false; }
      var r := ComputeRevertRefunds(cat, id);
      if !r.Done? { return false; }
      var root, refund := r.target.id, r.target.cost;
      items := items[REVERT_ITEM := items[REVERT_ITEM] - 1];
      gear := PutGear(TakeGear(gear, id), root);
      AddAll(refund.items);
      if refund.coins != 0 { coins := coins + refund.coins; }
      return true;
    }

    method AddAll(gain: Amounts)
      modifies `items
      ensures items == Receive(old(items), gain)
    {
      ghost var before := items;
      var todo := gain.Keys;
      while todo != {}
        invariant todo <= gain.Keys && items.Keys == before.Keys + (gain.Keys - todo)
        invariant forall id :: id in items ==>
                    items[id] == Count(before, id) + if id in todo then 0 else AmountOf(gain, id)
      {
        var id: u32 :| id in todo;
        items := items[id := Count(items, id) + gain[id]];
        todo := todo - {id};
      }
    }
  }

  lemma GearComesBack(gear: Stock, id: u32, top: u32, root: u32)
    requires Count(gear, id) >= 1
    ensures var up := PutGear(TakeGear(gear, id), top);
            && Count(up, top) >= 1
            && forall k: u32 :: Count(PutGear(TakeGear(up, top), root), k) ==
                                Count(gear, k) - (if k == id then 1 else 0) + (if k == root then 1 else 0)
  {
  }

  lemma SpendReceive(items: Stock, cost: Amounts, back: Amounts)
    requires Affords(items, cost) && Count(Spend(items, cost), REVERT_ITEM) >= 1
    ensures var spent := Spend(items, cost);
            forall k: u32 :: Count(Receive(spent[REVERT_ITEM := spent[REVERT_ITEM] - 1], back), k) ==
                             Count(items, k) - AmountOf(cost, k) + AmountOf(back, k) -
                             (if k == REVERT_ITEM then 1 else 0)
  {
  }

  /**
   Upgrading a piece by any number of levels and reverting the result returns the root of
   the piece, everything paid and what the piece refunded before; one revert item is all
   it costs. The refund is the sum of both in 32 bits.
   */
  lemma UpgradeThenRevert(inv: Inventory, cat: Catalog, id: u32, lv: u32)
    requires Linked(cat) && id in cat && Finite(cat, cat[id]) && Refund(cat, cat[id]).Some?
    requires Upgraded(inv, cat, id, lv).Some?
    requires Count(Upgraded(inv, cat, id, lv).value.items, REVERT_ITEM) >= 1
    ensures var up, t, base := Upgraded(inv, cat, id, lv).value, Upgrade(cat, id, lv).value, Refund(cat, cat[id]).value;
            && t.id in cat && Finite(cat, cat[t.id])
            && RevertedBag(up, cat, t.id).Some?
            && var back, paid, due := RevertedBag(up, cat, t.id).value, t.cost, Plus(t.cost, base.cost);
               && back.coins == inv.coins - paid.coins + due.coins
               && (forall k: u32 :: Count(back.gear, k) ==
                                    Count(inv.gear, k) - (if k == id then 1 else 0) + (if k == base.id then 1 else 0))
               && (forall k: u32 :: Count(back.items, k) ==
                                    Count(inv.items, k) - AmountOf(paid.items, k) + AmountOf(due.items, k) -
                                    (if k == REVERT_ITEM then 1 else 0))
  {
    hide Linked, Upgrade, Revert, TakeGear, PutGear, Spend, Receive, Refund, Plus, Count, AmountOf;
    RevertUndoesUpgrade(cat, id, lv);
    var t, base := Upgrade(cat, id, lv).value, Refund(cat, cat[id]).value;
    NotRoot(cat, id, lv);
    GearComesBack(inv.gear, id, t.id, base.id);
    SpendReceive(inv.items, t.cost.items, Plus(t.cost, base.cost).items);
  }

  lemma NotRoot(cat: Catalog, id: u32, lv: nat)
    requires Linked(cat) && id in cat && Upgrade(cat, id, lv).Some? && Upgrade(cat, id, lv).value.id in cat
    ensures Upgrade(cat, id, lv).value.id != 0
  {
  }

  /**
   For a root piece that is a full round trip: every coin, every material and the piece
   itself come back.
   */
  lemma RootUpgradeThenRevert(inv: Inventory, cat: Catalog, id: u32, lv: u32)
    requires Linked(cat) && id in cat && cat[id].prev == 0
    requires Upgraded(inv, cat, id, lv).Some?
    requires Count(Upgraded(inv, cat, id, lv).value.items, REVERT_ITEM) >= 1
    ensures var up, top := Upgraded(inv, cat, id, lv).value, Upgrade(cat, id, lv).value.id;
            && top in cat && Finite(cat, cat[top])
            && RevertedBag(up, cat, top).Some?
            && var back := RevertedBag(up, cat, top).value;
               && back.coins == inv.coins
               && (forall k: u32 :: Count(back.gear, k) == Count(inv.gear, k))
               && (forall k: u32 :: Count(back.items, k) ==
                                    Count(inv.items, k) - (if k == REVERT_ITEM then 1 else 0))
  {
    hide Upgrade, Revert, RevertedBag, Refund, Plus, AmountOf;
    RootRefundsNothing(cat, id);
    UpgradeThenRevert(inv, cat, id, lv);
    PlusLaws(Upgrade(cat, id, lv).value.cost, ZERO, ZERO);
  }

  lemma RootRefundsNothing(cat: Catalog, id: u32)
    requires Linked(cat) && id in cat && cat[id].prev == 0
    ensures Finite(cat, cat[id]) && Refund(cat, cat[id]) == Some(Target(id, ZERO))
  {
    assert EndsWithin(cat, cat[id], 0);
    RefundIs(cat, cat[id], 0);
  }
}
