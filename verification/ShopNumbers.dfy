/** What a purchase in the new-server shop costs, hands out and leaves, for all three kinds of goods. */
module ShopNumbers {
  import opened Options
  import opened Word32
  import opened AmountMaps
  import opened NewServerShop

  /** The counts picked of an item. */
  function Picked(picks: seq<Pick>, item: u32): nat
    decreases |picks|
  {
    if |picks| == 0 then 0
    else
      var last := picks[|picks| - 1];
      Picked(picks[..|picks| - 1], item) + if last.item == item then last.count else 0
  }

  /** Picks are added up by item, in words; item 0 and empty picks do not count. */
  lemma {:induction false} ByItemInNumbers(picks: seq<Pick>, item: u32)
    ensures item in ByItem(picks) <==> item != 0 && Picked(picks, item) > 0
    ensures item != 0 ==> AmountOf(ByItem(picks), item) == Picked(picks, item) % WORD
    decreases |picks|
  {
    if |picks| > 0 {
      var init, last := picks[..|picks| - 1], picks[|picks| - 1];
      ByItemInNumbers(init, item);
      if last.item == item {
        WrapSum(Picked(init, item), last.count);
        WrapSmall(last.count);
      }
    }
  }

  /** The units a request buys: one of a fixed good, and otherwise the 32-bit sum of its counts. */
  ghost function UnitsBought(e: Entry, picks: seq<Pick>): int {
    if e.goodsType == 1 then 1 else Sum(ByItem(picks)) % WORD
  }

  /** What a purchase of a good adds to a shelf: fixed goods are the first item, once. */
  ghost function PiecesOf(e: Entry, picks: seq<Pick>, item: u32): int {
    if e.goodsType == 1 then (if |e.goods| > 0 && item == e.goods[0] then e.num else 0)
    else if item == 0 then 0
    else e.num * (Picked(picks, item) % WORD) % WORD
  }

  /** Where a kind of goods ends up: letters with the items, virtual items nowhere. */
  predicate ShelvedAs(kind: u32, shelf: u32) {
    kind != 8 && shelf == if kind == 19 then 2 else kind
  }

  /** What the entry allows to be picked. */
  ghost predicate MayPick(e: Entry, bought: seq<u32>, picks: seq<Pick>) {
    if e.goodsType == 1 then (forall item: u32 :: item != 0 ==> Picked(picks, item) == 0) && |e.goods| > 0
    else
      && (exists item: u32 :: item != 0 && Picked(picks, item) > 0)
      && forall item: u32 :: item != 0 && Picked(picks, item) > 0 ==>
           item in e.goods && (e.goodsType == 4 ==> Picked(picks, item) % WORD == 1 && item !in bought)
  }

  lemma AllowedIff(e: Entry, good: Good, picks: seq<Pick>)
    ensures Allowed(e, good, ByItem(picks)) <==> MayPick(e, good.bought, picks)
  {
    hide ByItem, Picked;
    var chosen := ByItem(picks);
    forall item: u32
      ensures item in chosen <==> item != 0 && Picked(picks, item) > 0
      ensures item in chosen ==> chosen[item] == Picked(picks, item) % WORD
    {
      ByItemInNumbers(picks, item);
    }
    assert |chosen| == 0 <==> chosen == map[];
    if e.goodsType != 1 && |chosen| > 0 {
      var item :| item in chosen;
      assert Allowed(e, good, chosen) <==> forall k :: k in chosen ==> AllowedItem(e, good, chosen, k);
      assert forall k :: k in chosen ==>
               (AllowedItem(e, good, chosen, k) <==>
                  k in e.goods && (e.goodsType == 4 ==> Picked(picks, k) % WORD == 1 && k !in good.bought));
    }
  }

  /**
   An accepted request for entry `i`: the picks were allowed, the units come off the
   count, `costNum` for each of them off the wallet, and the goods are on their shelf.
   */
  lemma PurchaseInNumbers(s: Shop, entries: seq<Entry>, i: nat, picks: seq<Pick>, t: Shop)
    requires DistinctIds(entries) && i < |entries|
    requires Outcome(s, entries, entries[i].id, picks, true, t)
    ensures |RowOf(s, entries)| == |entries| && t.row.Some? && |t.row.value| == |entries|
    ensures var e, before, after := entries[i], RowOf(s, entries)[i], t.row.value[i];
            var units, key := UnitsBought(e, picks), (e.costCategory, e.costType);
            && MayPick(e, before.bought, picks)
            && 0 < units <= before.count && after.id == before.id && after.count == before.count - units
            && (e.goodsType != 4 ==> after.bought == before.bought)
            && (e.goodsType == 4 ==>
                  forall v: u32 :: v in after.bought <==> v in before.bought || (v != 0 && Picked(picks, v) > 0))
            && (forall j :: 0 <= j < |entries| && j != i ==> t.row.value[j] == RowOf(s, entries)[j])
            && e.costCategory in {1, 2} && e.kind in {1, 2, 3, 4, 5, 7, 8, 19}
            && key in s.funds && e.costNum * units % WORD <= s.funds[key]
            && t.funds == s.funds[key := s.funds[key] - e.costNum * units % WORD]
            && forall k: Key :: Amount(t.received, k) ==
                 Amount(s.received, k) + if ShelvedAs(e.kind, k.0) then PiecesOf(e, picks, k.1) else 0
  {
    hide RowOf, ByItem, Picked, Units, Drops, Received, Cost, Sold, Allowed, Mul, EntryOf, FirstIndex;
    RowIsAligned(s, entries);
    IndexIs(RowOf(s, entries), entries, i);
    var e, good := entries[i], RowOf(s, entries)[i];
    assert Bought(s, entries, e, i, ByItem(picks), t);
    AllowedIff(e, good, picks);
    UnitsAre(e, picks);
    SoldInNumbers(e, good, picks, t.row.value[i]);
    forall k: Key
      ensures Amount(t.received, k) ==
              Amount(s.received, k) + if ShelvedAs(e.kind, k.0) then PiecesOf(e, picks, k.1) else 0
    {
      PiecesAre(s.received, e, good, picks, k);
    }
  }

  /** A request for entry `i` is accepted exactly for allowed picks within the count that can be paid and granted. */
  lemma AcceptedIff(s: Shop, entries: seq<Entry>, i: nat, picks: seq<Pick>, ok: bool, t: Shop)
    requires DistinctIds(entries) && i < |entries|
    requires Outcome(s, entries, entries[i].id, picks, ok, t)
    ensures |RowOf(s, entries)| == |entries|
    ensures var e, good := entries[i], RowOf(s, entries)[i];
            var units, key := UnitsBought(e, picks), (e.costCategory, e.costType);
            ok <==>
            && e.id != 0 && MayPick(e, good.bought, picks) && 0 < units <= good.count
            && e.costCategory in {1, 2} && e.kind in {1, 2, 3, 4, 5, 7, 8, 19}
            && key in s.funds && e.costNum * units % WORD <= s.funds[key]
    ensures !ok ==> t == s
  {
    hide RowOf, ByItem, Picked, Units, Cost, Allowed, EntryOf, FirstIndex, UnitsBought, MayPick, Bought;
    RowIsAligned(s, entries);
    IndexIs(RowOf(s, entries), entries, i);
    AllowedIff(entries[i], RowOf(s, entries)[i], picks);
    UnitsAre(entries[i], picks);
  }

  lemma UnitsAre(e: Entry, picks: seq<Pick>)
    ensures Units(e, ByItem(picks)) == UnitsBought(e, picks)
    ensures Cost(e, ByItem(picks)) == e.costNum * UnitsBought(e, picks) % WORD
  {
  }

  lemma SoldInNumbers(e: Entry, good: Good, picks: seq<Pick>, after: Good)
    requires Sold(e, good, ByItem(picks), after)
    ensures UnitsBought(e, picks) <= good.count
    ensures after.id == good.id && after.count == good.count - UnitsBought(e, picks)
    ensures e.goodsType != 4 ==> after.bought == good.bought
    ensures e.goodsType == 4 ==>
              forall v: u32 :: v in after.bought <==> v in good.bought || (v != 0 && Picked(picks, v) > 0)
  {
    hide Units, ByItem, Picked;
    UnitsAre(e, picks);
    forall v: u32 ensures v in ByItem(picks) <==> v != 0 && Picked(picks, v) > 0 { ByItemInNumbers(picks, v); }
  }

  lemma PiecesAre(received: Stock, e: Entry, good: Good, picks: seq<Pick>, k: Key)
    requires Allowed(e, good, ByItem(picks))
    ensures e.goodsType == 1 ==> |e.goods| > 0
    ensures Amount(Received(received, e.kind, Drops(e, ByItem(picks))), k) ==
            Amount(received, k) + if ShelvedAs(e.kind, k.0) then PiecesOf(e, picks, k.1) else 0
  {
    hide ByItem, Picked, Drops, PiecesOf, Received;
    if e.goodsType == 1 { assert |e.goods| > 0 by { FixedHasGoods(e, good, ByItem(picks)); } }
    DropsArePieces(e, picks, k.1);
    if e.kind == 8 {
      NothingReceived(received, Drops(e, ByItem(picks)));
    } else {
      ReceivedAt(received, e.kind, Drops(e, ByItem(picks)), k);
    }
  }

  lemma DropsArePieces(e: Entry, picks: seq<Pick>, item: u32)
    requires e.goodsType == 1 ==> |e.goods| > 0
    ensures AmountOf(Drops(e, ByItem(picks)), item) == PiecesOf(e, picks, item)
  {
    hide ByItem, Picked, Mul;
    ByItemInNumbers(picks, item);
    if e.goodsType != 1 && item in ByItem(picks) { MulIs(e.num, Picked(picks, item) % WORD); }
  }

  lemma MulIs(x: u32, y: u32)
    ensures Mul(x, y) == x * y % WORD
  {
  }

  /**
   A normalised row has one good per entry: the last stored one with its id, its count
   cut to the limit, and a whole new one where none is stored.
   */
  lemma NormalInRows(goods: seq<Good>, entries: seq<Entry>, i: nat)
    requires i < |entries|
    ensures |Normal(goods, entries)| == |entries|
    ensures var n, e := Normal(goods, entries)[i], entries[i];
            if forall k :: 0 <= k < |goods| ==> goods[k].id != e.id
            then n.id == e.id && n.count == e.limit && n.bought == []
            else exists k :: 0 <= k < |goods| && goods[k].id == e.id &&
                             (forall j :: k < j < |goods| ==> goods[j].id != e.id) &&
                             n.id == e.id && n.bought == goods[k].bought &&
                             n.count == if goods[k].count < e.limit then goods[k].count else e.limit
  {
    hide Find;
    if Find(goods, entries[i].id).Some? { var k := LastFound(goods, entries[i].id); }
  }

  lemma {:induction false} LastFound(goods: seq<Good>, id: u32) returns (k: nat)
    requires Find(goods, id).Some?
    ensures k < |goods| && Find(goods, id) == Some(goods[k]) && goods[k].id == id
    ensures forall j :: k < j < |goods| ==> goods[j].id != id
    decreases |goods|
  {
    k := |goods| - 1;
    if goods[k].id != id { k := LastFound(goods[..k], id); }
  }
}
