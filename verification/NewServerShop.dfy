/** The new-server shop: per-commander stock of an activity's goods. */
module NewServerShop {
  import opened Options
  import opened Word32
  import opened Collections
  import opened DropTypes
  import opened AmountMaps

  const GOODS_TYPE_FIXED: u32 := 1
  const GOODS_TYPE_SELECTABLE: u32 := 4

  datatype Entry = Entry(
    id: u32, goods: seq<u32>, limit: u32, goodsType: u32, num: u32, kind: u32,
    costCategory: u32, costType: u32, costNum: u32
  )

  /** What is left of a good and which of its choices are gone. */
  datatype Good = Good(id: u32, count: u32, bought: seq<u32>)

  datatype Pick = Pick(item: u32, count: u32)

  type Key = (u32, u32)

  type Stock = map<Key, nat>

  type Chosen = Amounts

  /** The stored row, if there is one, the commander's funds and what the shop handed out. */
  datatype Shop = Shop(row: Option<seq<Good>>, funds: Stock, received: Stock)

  function Amount(s: Stock, k: Key): nat {
    if k in s then s[k] else 0
  }

  /** A missing row is not enough even for nothing. */
  predicate Has(funds: Stock, k: Key, amount: nat) {
    k in funds && amount <= funds[k]
  }

  // ---------- Sorted records ----------

  ghost predicate Ascending(s: seq<u32>) {
    forall i, j :: 0 <= i < j < |s| ==> s[i] < s[j]
  }

  /** `sortedUniqueUint32`: the values of a list once each, in order. */
  method SortedUnique(values: seq<u32>) returns (out: seq<u32>)
    ensures Ascending(out)
    ensures forall v: u32 :: v in out <==> v in values
  {
    var all: set<u32> := {};
    for i := 0 to |values|
      invariant forall v: u32 :: v in all <==> v in values[..i]
    {
      all := all + {values[i]};
    }
    assert values[..|values|] == values;
    var todo := all;
    out := [];
    while todo != {}
      invariant todo <= all
      invariant forall v: u32 :: v in out <==> v in all && v !in todo
      invariant forall i, x :: 0 <= i < |out| && x in todo ==> out[i] < x
      invariant Ascending(out)
      decreases |todo|
    {
      ghost var low := Smallest(todo);
      var m :| m in todo && forall x :: x in todo ==> m <= x;
      todo := todo - {m};
      out := out + [m];
    }
  }

  lemma {:induction false} AscendingSize(s: seq<u32>, elements: set<u32>)
    requires Ascending(s) && forall v: u32 :: v in s <==> v in elements
    ensures |s| == |elements|
    decreases |s|
  {
    if |s| == 0 {
      assert elements == {};
    } else {
      assert s == [s[0]] + s[1..];
      AscendingSize(s[1..], elements - {s[0]});
    }
  }

  /** There is one such list. */
  lemma {:induction false} AscendingUnique(s: seq<u32>, t: seq<u32>)
    requires Ascending(s) && Ascending(t)
    requires forall v: u32 :: v in s <==> v in t
    ensures s == t
    decreases |s|
  {
    var all := set v | v in s;
    AscendingSize(s, all);
    AscendingSize(t, all);
    if |s| > 0 {
      assert s[0] in t && t[0] in s;
      assert s[0] == t[0];
      assert s == [s[0]] + s[1..] && t == [t[0]] + t[1..];
      assert s[0] !in s[1..] && t[0] !in t[1..];
      assert forall v: u32 :: v in s <==> v == s[0] || v in s[1..];
      assert forall v: u32 :: v in t <==> v == t[0] || v in t[1..];
      AscendingUnique(s[1..], t[1..]);
    }
  }

  // ---------- Normalising the stored row ----------

  function Fresh(e: Entry): Good {
    Good(e.id, e.limit, [])
  }

  function DefaultGoods(entries: seq<Entry>): (r: seq<Good>)
    ensures |r| == |entries| && forall i :: 0 <= i < |r| ==> r[i] == Fresh(entries[i])
  {
    seq(|entries|, i requires 0 <= i < |entries| => Fresh(entries[i]))
  }

  /** The stored good with an id; the last one when several carry it. */
  function Find(goods: seq<Good>, id: u32): (r: Option<Good>)
    ensures r.Some? ==> r.value in goods && r.value.id == id
    ensures r.None? <==> forall i :: 0 <= i < |goods| ==> goods[i].id != id
    decreases |goods|
  {
    if |goods| == 0 then None
    else if goods[|goods| - 1].id == id then Some(goods[|goods| - 1])
    else Find(goods[..|goods| - 1], id)
  }

  function NormalGood(goods: seq<Good>, e: Entry): Good {
    var found := Find(goods, e.id);
    if found.None? then Fresh(e)
    else if found.value.count > e.limit then found.value.(count := e.limit)
    else found.value
  }

  function Normal(goods: seq<Good>, entries: seq<Entry>): (r: seq<Good>)
    ensures |r| == |entries| && forall i :: 0 <= i < |r| ==> r[i] == NormalGood(goods, entries[i])
  {
    seq(|entries|, i requires 0 <= i < |entries| => NormalGood(goods, entries[i]))
  }

  /** An entry whose good is missing or holds more than the limit. */
  predicate Stale(goods: seq<Good>, e: Entry) {
    var found := Find(goods, e.id);
    found.None? || found.value.count > e.limit
  }

  /** What makes the handler write the row back before the purchase. */
  ghost predicate NeedsRewrite(goods: seq<Good>, entries: seq<Entry>) {
    |goods| != |entries| || exists i :: 0 <= i < |entries| && Stale(goods, entries[i])
  }

  /** A good as the normaliser may find it: its record may be absent altogether. */
  datatype StoredGood = StoredGood(id: u32, count: u32, bought: Option<seq<u32>>)

  /** An absent record reads as an empty one. */
  function Read(g: StoredGood): Good {
    Good(g.id, g.count, if g.bought.Some? then g.bought.value else [])
  }

  function ReadAll(goods: seq<StoredGood>): (r: seq<Good>)
    ensures |r| == |goods| && forall i :: 0 <= i < |r| ==> r[i] == Read(goods[i])
  {
    seq(|goods|, i requires 0 <= i < |goods| => Read(goods[i]))
  }

  /** Loading a row has already filled absent records. */
  function Loaded(goods: seq<Good>): (r: seq<StoredGood>)
    ensures ReadAll(r) == goods && !LacksRecord(r)
  {
    var r := seq(|goods|, i requires 0 <= i < |goods| =>
          StoredGood(goods[i].id, goods[i].count, Some(goods[i].bought)));
    assert ReadAll(r) == goods;
    r
  }

  predicate LacksRecord(goods: seq<StoredGood>) {
    exists i :: 0 <= i < |goods| && goods[i].bought.None?
  }

  lemma FindNothing()
    ensures forall id: u32 :: Find([], id) == None
  {
  }

  lemma FindAppended(goods: seq<Good>, g: Good)
    ensures forall id: u32 :: Find(goods + [g], id) == if g.id == id then Some(g) else Find(goods, id)
  {
    assert (goods + [g])[..|goods|] == goods;
  }

  method IndexGoods(stored: seq<StoredGood>) returns (goods: seq<Good>, index: map<u32, nat>, changed: bool)
    ensures goods == ReadAll(stored)
    ensures changed <==> LacksRecord(stored)
    ensures forall id: u32 :: id in index <==> Find(goods, id).Some?
    ensures forall id: u32 :: id in index ==> index[id] < |goods| && Find(goods, id) == Some(goods[index[id]])
  {
    hide Find;
    goods, index, changed := [], map[], false;
    FindNothing();
    for i := 0 to |stored|
      invariant |goods| == i && forall j :: 0 <= j < i ==> goods[j] == Read(stored[j])
      invariant changed <==> exists j :: 0 <= j < i && stored[j].bought.None?
      invariant forall id: u32 :: id in index <==> Find(goods, id).Some?
      invariant forall id: u32 :: id in index ==> index[id] < i && Find(goods, id) == Some(goods[index[id]])
    {
      var good := stored[i];
      index := index[good.id := i];
      if good.bought.None? {
        good := good.(bought := Some([]));
        changed := true;
      }
      FindAppended(goods, Good(good.id, good.count, good.bought.value));
      goods := goods + [Good(good.id, good.count, good.bought.value)];
    }
  }

  /** `normalizeNewServerShopState`. */
  method Normalize(stored: seq<StoredGood>, entries: seq<Entry>) returns (ordered: seq<Good>, changed: bool)
    ensures ordered == Normal(ReadAll(stored), entries)
    ensures changed <==> LacksRecord(stored) || NeedsRewrite(ReadAll(stored), entries)
  {
    hide Find;
    var goods, index, filled := IndexGoods(stored);
    changed := filled;
    ordered := [];
    for i := 0 to |entries|
      invariant |ordered| == i && forall j :: 0 <= j < i ==> ordered[j] == NormalGood(goods, entries[j])
      invariant changed <==> filled || exists j :: 0 <= j < i && Stale(goods, entries[j])
    {
      var e := entries[i];
      if e.id !in index {
        ordered := ordered + [Fresh(e)];
        changed := true;
        continue;
      }
      var current := goods[index[e.id]];
      if current.count > e.limit {
        current := current.(count := e.limit);
        changed := true;
      }
      ordered := ordered + [current];
    }
    if |ordered| != |goods| { changed := true; }
  }

  ghost predicate DistinctIds(entries: seq<Entry>) {
    forall i, j :: 0 <= i < j < |entries| ==> entries[i].id != entries[j].id
  }

  /** A row in the entries' order. */
  ghost predicate Aligned(goods: seq<Good>, entries: seq<Entry>) {
    |goods| == |entries| && forall i :: 0 <= i < |goods| ==> goods[i].id == entries[i].id
  }

  lemma {:induction false} FindAligned(goods: seq<Good>, entries: seq<Entry>, i: nat)
    requires Aligned(goods, entries) && DistinctIds(entries) && i < |entries|
    ensures Find(goods, entries[i].id) == Some(goods[i])
    decreases |goods|
  {
    var n := |goods| - 1;
    if i < n {
      assert goods[n].id != entries[i].id;
      FindAligned(goods[..n], entries[..n], i);
    }
  }

  /** Normalising once is enough, and the second time reports no change: every record is there by then. */
  lemma NormalTwice(goods: seq<Good>, entries: seq<Entry>)
    requires DistinctIds(entries)
    ensures Normal(Normal(goods, entries), entries) == Normal(goods, entries)
    ensures !NeedsRewrite(Normal(goods, entries), entries) && !LacksRecord(Loaded(Normal(goods, entries)))
  {
    var once := Normal(goods, entries);
    forall i | 0 <= i < |entries|
      ensures Find(once, entries[i].id) == Some(once[i])
    {
      FindAligned(once, entries, i);
    }
  }

  // ---------- A purchase on values ----------

  /** The picks added up by item; empty picks are skipped and sums are words. */
  function ByItem(picks: seq<Pick>): (r: Chosen)
    decreases |picks|
  {
    if |picks| == 0 then map[]
    else
      var init, last := ByItem(picks[..|picks| - 1]), picks[|picks| - 1];
      Put(init, last.item, last.count)
  }

  predicate AllowedItem(e: Entry, good: Good, chosen: Chosen, item: u32)
    requires item in chosen
  {
    item in e.goods && (e.goodsType == GOODS_TYPE_SELECTABLE ==> chosen[item] == 1 && item !in good.bought)
  }

  predicate Allowed(e: Entry, good: Good, chosen: Chosen) {
    if e.goodsType == GOODS_TYPE_FIXED then |chosen| == 0 && |e.goods| > 0
    else |chosen| > 0 && forall item :: item in chosen ==> AllowedItem(e, good, chosen, item)
  }

  ghost function Units(e: Entry, chosen: Chosen): u32 {
    if e.goodsType == GOODS_TYPE_FIXED then 1 else Wrap(Sum(chosen))
  }

  function Drops(e: Entry, chosen: Chosen): Chosen
    requires e.goodsType == GOODS_TYPE_FIXED ==> |e.goods| > 0
  {
    if e.goodsType == GOODS_TYPE_FIXED then map[e.goods[0] := e.num]
    else map item | item in chosen :: Mul(e.num, chosen[item])
  }

  /** The good once `chosen` is bought from it: the record stays sorted. */
  ghost predicate Sold(e: Entry, good: Good, chosen: Chosen, after: Good) {
    && Units(e, chosen) <= good.count
    && after.id == good.id && after.count == good.count - Units(e, chosen)
    && (e.goodsType != GOODS_TYPE_SELECTABLE ==> after.bought == good.bought)
    && (e.goodsType == GOODS_TYPE_SELECTABLE ==>
          Ascending(after.bought) && forall v: u32 :: v in after.bought <==> v in good.bought || v in chosen)
  }

  predicate Payable(category: u32) {
    category == DROP_TYPE_RESOURCE || category == DROP_TYPE_ITEM
  }

  predicate Grantable(kind: u32) {
    || kind == DROP_TYPE_RESOURCE || kind == DROP_TYPE_ITEM || kind == DROP_TYPE_LOVE_LETTER || kind == DROP_TYPE_EQUIP
    || kind == DROP_TYPE_SHIP || kind == DROP_TYPE_FURNITURE || kind == DROP_TYPE_SKIN || kind == DROP_TYPE_VITEM
  }

  function Received(received: Stock, kind: u32, drops: Chosen): Stock {
    if kind == DROP_TYPE_VITEM then received
    else
      var shelf := if kind == DROP_TYPE_LOVE_LETTER then DROP_TYPE_ITEM else kind;
      map k | k in received.Keys + (set item | item in drops :: (shelf, item)) ::
        Amount(received, k) + if k.0 == shelf && k.1 in drops then drops[k.1] else 0
  }

  ghost function Cost(e: Entry, chosen: Chosen): u32 {
    Mul(e.costNum, Units(e, chosen))
  }

  function EntryOf(entries: seq<Entry>, id: u32): (r: Option<nat>)
    ensures r.Some? ==> r.value < |entries| && entries[r.value].id == id
    ensures r.None? <==> forall i :: 0 <= i < |entries| ==> entries[i].id != id
    decreases |entries|
  {
    if |entries| == 0 then None
    else if entries[|entries| - 1].id == id then Some(|entries| - 1)
    else EntryOf(entries[..|entries| - 1], id)
  }

  function RowOf(s: Shop, entries: seq<Entry>): seq<Good> {
    Normal(if s.row.Some? then s.row.value else DefaultGoods(entries), entries)
  }

  function FirstIndex(goods: seq<Good>, id: u32): (r: Option<nat>)
    ensures r.Some? ==> r.value < |goods| && goods[r.value].id == id
    ensures r.Some? ==> forall i :: 0 <= i < r.value ==> goods[i].id != id
    ensures r.None? <==> forall i :: 0 <= i < |goods| ==> goods[i].id != id
    decreases |goods|
  {
    if |goods| == 0 then None
    else
      var init := FirstIndex(goods[..|goods| - 1], id);
      if init.Some? then init
      else if goods[|goods| - 1].id == id then Some(|goods| - 1)
      else None
  }

  /** An accepted purchase of entry `e` from the good at `g`. */
  ghost predicate CanBuy(s: Shop, entries: seq<Entry>, e: Entry, g: nat, chosen: Chosen) {
    && g < |RowOf(s, entries)|
    && var good := RowOf(s, entries)[g];
       && Allowed(e, good, chosen)
       && 0 < Units(e, chosen) <= good.count
       && Payable(e.costCategory) && Has(s.funds, (e.costCategory, e.costType), Cost(e, chosen))
       && Grantable(e.kind)
  }

  ghost predicate Bought(s: Shop, entries: seq<Entry>, e: Entry, g: nat, chosen: Chosen, t: Shop)
    requires CanBuy(s, entries, e, g, chosen)
  {
    var row, key := RowOf(s, entries), (e.costCategory, e.costType);
    && t.row.Some? && |t.row.value| == |row|
    && (forall i :: 0 <= i < |row| && i != g ==> t.row.value[i] == row[i])
    && Sold(e, row[g], chosen, t.row.value[g])
    && t.funds == s.funds[key := s.funds[key] - Cost(e, chosen)]
    && t.received == Received(s.received, e.kind, Drops(e, chosen))
  }

  /** One request: what it leads to, and that a refused one changes nothing. */
  ghost predicate Outcome(s: Shop, entries: seq<Entry>, goodsId: u32, picks: seq<Pick>, ok: bool, t: Shop) {
    var at := EntryOf(entries, goodsId);
    var g := FirstIndex(RowOf(s, entries), goodsId);
    && (ok <==> goodsId != 0 && at.Some? && g.Some? && CanBuy(s, entries, entries[at.value], g.value, ByItem(picks)))
    && (ok ==> Bought(s, entries, entries[at.value], g.value, ByItem(picks), t))
    && (!ok ==> t == s)
  }

  // ---------- The handler ----------

  class NewServerShopStore {
    var row: Option<seq<Good>>
    var funds: Stock
    var received: Stock

    function View(): Shop
      reads this
    {
      Shop(row, funds, received)
    }

    method SelectedByItem(picks: seq<Pick>) returns (chosen: Chosen)
      ensures chosen == ByItem(picks)
    {
      chosen := map[];
      for i := 0 to |picks|
        invariant chosen == ByItem(picks[..i])
      {
        assert picks[..i + 1][..i] == picks[..i];
        var pick := picks[i];
        if pick.item == 0 || pick.count == 0 { continue; }
        chosen := chosen[pick.item := Add(AmountOf(chosen, pick.item), pick.count)];
      }
      assert picks[..|picks|] == picks;
    }

    /** The loop over the chosen items, in any order: the units start at one, which comes off at the end. */
    method CheckChosen(e: Entry, good: Good, chosen: Chosen) returns (r: Option<u32>)
      requires e.goodsType != GOODS_TYPE_FIXED
      ensures r.Some? <==> Allowed(e, good, chosen)
      ensures r.Some? ==> r.value == Units(e, chosen)
    {
      hide Wrap, SumOver, Add, Sub;
      if |chosen| == 0 { return None; }
      var todo := chosen.Keys;
      var purchaseCount: u32 := 1;
      CountFrom(chosen, {}, 1);
      assert chosen.Keys - todo == {};
      while todo != {}
        invariant todo <= chosen.Keys
        invariant forall item :: item in chosen && item !in todo ==> AllowedItem(e, good, chosen, item)
        invariant purchaseCount == Wrap(1 + SumOver(chosen, chosen.Keys - todo))
      {
        var item: u32 :| item in todo;
        if item !in e.goods { return None; }
        if e.goodsType == GOODS_TYPE_SELECTABLE {
          if chosen[item] != 1 { return None; }
          if item in good.bought { return None; }
        }
        CountOn(chosen, todo, item, purchaseCount);
        purchaseCount := Add(purchaseCount, chosen[item]);
        todo := todo - {item};
      }
      assert chosen.Keys - {} == chosen.Keys;
      AddWraps(purchaseCount, 1);
      WrapAdd(1 + SumOver(chosen, chosen.Keys), -1);
      return Some(Sub(purchaseCount, 1));
    }

    /** What a good is worth selling: the units, and the good afterwards. */
    method Sell(e: Entry, good: Good, chosen: Chosen) returns (r: Option<(u32, Good)>)
      ensures r.Some? <==> Allowed(e, good, chosen) && 0 < Units(e, chosen) <= good.count
      ensures r.Some? ==> r.value.0 == Units(e, chosen) && Sold(e, good, chosen, r.value.1)
    {
      hide Wrap;
      var units: u32, after: Good := 1, good;
      if e.goodsType == GOODS_TYPE_FIXED {
        if |chosen| > 0 || |e.goods| == 0 { return None; }
      } else {
        var checked := CheckChosen(e, good, chosen);
        if checked.None? { return None; }
        units := checked.value;
        if e.goodsType == GOODS_TYPE_SELECTABLE {
          var items := KeyList(chosen);
          var record := SortedUnique(good.bought + items);
          after := after.(bought := record);
        }
      }
      if units == 0 || good.count < units { return None; }
      after := after.(count := good.count - units);
      return Some((units, after));
    }

    /** `NewServerShopPurchase`, inside its transaction. */
    method Purchase(entries: seq<Entry>, goodsId: u32, picks: seq<Pick>) returns (ok: bool)
      modifies this
      ensures Outcome(old(View()), entries, goodsId, picks, ok, View())
    {
      hide Units, Received, Normal, NormalGood, Find, ByItem, Wrap, Mul, Allowed,
           Sold, EntryOf, FirstIndex, NeedsRewrite, Amount;
      if goodsId == 0 { return false; }
      var at := EntryOf(entries, goodsId);
      if at.None? { return false; }
      var e := entries[at.value];
      var stored := if row.Some? then row.value else DefaultGoods(entries);
      var goods, changed := Normalize(Loaded(stored), entries);
      assert goods == RowOf(View(), entries);
      var index := FirstIndex(goods, e.id);
      if index.None? { return false; }
      var chosen := SelectedByItem(picks);
      var sale := Sell(e, goods[index.value], chosen);
      if sale.None? { return false; }
      var key, cost := (e.costCategory, e.costType), Mul(e.costNum, sale.value.0);
      if !Payable(e.costCategory) || !Has(funds, key, cost) { return false; }
      if !Grantable(e.kind) { return false; }
      assert CanBuy(View(), entries, e, index.value, chosen);
      FixedHasGoods(e, goods[index.value], chosen);
      funds := funds[key := funds[key] - cost];
      received := Received(received, e.kind, Drops(e, chosen));
      row := Some(goods[index.value := sale.value.1]);
      assert Bought(old(View()), entries, e, index.value, chosen, View());
      return true;
    }

    method KeyList(chosen: Chosen) returns (items: seq<u32>)
      ensures forall v: u32 :: v in items <==> v in chosen
    {
      items := [];
      var todo := chosen.Keys;
      while todo != {}
        invariant todo <= chosen.Keys
        invariant forall v: u32 :: v in items <==> v in chosen && v !in todo
      {
        var item: u32 :| item in todo;
        todo := todo - {item};
        items := items + [item];
      }
    }
  }

  lemma FixedHasGoods(e: Entry, good: Good, chosen: Chosen)
    requires Allowed(e, good, chosen)
    ensures e.goodsType == GOODS_TYPE_FIXED ==> |e.goods| > 0
  {
  }

  lemma CountFrom(chosen: Chosen, none: set<u32>, one: u32)
    requires none == {}
    ensures Wrap(one + SumOver(chosen, none)) == one
  {
    WrapSmall(one);
  }

  lemma CountOn(chosen: Chosen, todo: set<u32>, item: u32, so: u32)
    requires item in todo && todo <= chosen.Keys && so == Wrap(1 + SumOver(chosen, chosen.Keys - todo))
    ensures Add(so, chosen[item]) == Wrap(1 + SumOver(chosen, chosen.Keys - (todo - {item})))
  {
    hide Wrap, SumOver, Add;
    var done := chosen.Keys - (todo - {item});
    assert done - {item} == chosen.Keys - todo;
    SumSplits(chosen, done, item);
    AddWraps(so, chosen[item]);
    WrapAdd(1 + SumOver(chosen, chosen.Keys - todo), chosen[item]);
  }

  // ---------- Runs ----------

  /** A stored good is within its limit; a selectable one keeps limit, count and record together. */
  ghost predicate Kept(good: Good, e: Entry) {
    && good.id == e.id && good.count <= e.limit
    && (e.goodsType == GOODS_TYPE_SELECTABLE ==> Ascending(good.bought) && good.count + |good.bought| == e.limit)
  }

  ghost predicate Consistent(s: Shop, entries: seq<Entry>) {
    s.row.Some? ==>
      |s.row.value| == |entries| && forall i :: 0 <= i < |entries| ==> Kept(s.row.value[i], entries[i])
  }

  /** On a consistent row normalising changes nothing. */
  lemma ConsistentIsNormal(s: Shop, entries: seq<Entry>)
    requires DistinctIds(entries) && Consistent(s, entries)
    ensures var row := RowOf(s, entries);
            && |row| == |entries|
            && (forall i :: 0 <= i < |entries| ==> Kept(row[i], entries[i]))
            && (s.row.Some? ==> row == s.row.value)
            && (s.row.None? ==> row == DefaultGoods(entries))
  {
    var stored := if s.row.Some? then s.row.value else DefaultGoods(entries);
    forall i | 0 <= i < |entries|
      ensures NormalGood(stored, entries[i]) == stored[i]
    {
      FindAligned(stored, entries, i);
    }
    assert RowOf(s, entries) == stored;
  }

  lemma {:induction false} ByItemSize(picks: seq<Pick>)
    ensures |ByItem(picks)| <= |picks|
    decreases |picks|
  {
    if |picks| > 0 {
      ByItemSize(picks[..|picks| - 1]);
      var init, last := ByItem(picks[..|picks| - 1]), picks[|picks| - 1];
      var sum := Add(AmountOf(init, last.item), last.count);
      assert init[last.item := sum].Keys == init.Keys + {last.item};
      if last.item in init { assert init.Keys + {last.item} == init.Keys; }
    }
  }

  lemma {:induction false} SumOfOnes(chosen: Chosen, items: set<u32>)
    requires items <= chosen.Keys && forall item :: item in items ==> chosen[item] == 1
    ensures SumOver(chosen, items) == |items|
    decreases |items|
  {
    if items != {} {
      var item :| item in items && SumOver(chosen, items) == chosen[item] + SumOver(chosen, items - {item});
      SumOfOnes(chosen, items - {item});
    }
  }

  /** Selling from a selectable good moves as many from the count as the record gains. */
  lemma SelectableTrade(e: Entry, good: Good, chosen: Chosen, after: Good)
    requires e.goodsType == GOODS_TYPE_SELECTABLE && |chosen| < WORD && Ascending(good.bought)
    requires Allowed(e, good, chosen) && Sold(e, good, chosen, after)
    ensures Units(e, chosen) == |chosen| && |after.bought| == |good.bought| + |chosen|
  {
    assert forall item :: item in chosen ==> AllowedItem(e, good, chosen, item);
    SumOfOnes(chosen, chosen.Keys);
    WrapSmall(|chosen|);
    var had := set v | v in good.bought;
    assert had !! chosen.Keys;
    AscendingSize(good.bought, had);
    AscendingSize(after.bought, had + chosen.Keys);
  }

  /** What a purchase sells of an entry. */
  ghost function UnitsOf(entries: seq<Entry>, i: nat, goodsId: u32, picks: seq<Pick>, ok: bool): nat
    requires i < |entries|
  {
    if ok && entries[i].id == goodsId then Units(entries[i], ByItem(picks)) else 0
  }

  /** One request on a consistent shop: what is sold comes off the count, and the shop stays consistent. */
  lemma PurchaseKeeps(s: Shop, entries: seq<Entry>, goodsId: u32, picks: seq<Pick>, ok: bool, t: Shop)
    requires DistinctIds(entries) && Consistent(s, entries) && |picks| < WORD
    requires Outcome(s, entries, goodsId, picks, ok, t)
    ensures Consistent(t, entries)
    ensures forall i :: 0 <= i < |entries| ==>
              |RowOf(t, entries)| == |RowOf(s, entries)| == |entries| &&
              RowOf(t, entries)[i].count + UnitsOf(entries, i, goodsId, picks, ok) == RowOf(s, entries)[i].count
  {
    hide RowOf, Units, Received, ByItem, Sold, Allowed, NormalGood, Drops;
    ConsistentIsNormal(s, entries);
    if ok {
      var at, g := EntryOf(entries, goodsId).value, FirstIndex(RowOf(s, entries), goodsId).value;
      var e, chosen, row := entries[at], ByItem(picks), RowOf(s, entries);
      SameIndex(row, entries, at, g);
      ByItemSize(picks);
      SoldKeeps(e, row[g], chosen, t.row.value[g]);
      assert forall i :: 0 <= i < |entries| ==> Kept(t.row.value[i], entries[i]);
      ConsistentIsNormal(t, entries);
    }
  }

  lemma SameIndex(row: seq<Good>, entries: seq<Entry>, at: nat, g: nat)
    requires DistinctIds(entries) && |row| == |entries| && at < |entries| && g < |row|
    requires forall i :: 0 <= i < |entries| ==> row[i].id == entries[i].id
    requires row[g].id == entries[at].id
    ensures g == at
  {
  }

  lemma SoldKeeps(e: Entry, good: Good, chosen: Chosen, after: Good)
    requires |chosen| < WORD && Kept(good, e) && Allowed(e, good, chosen) && Sold(e, good, chosen, after)
    ensures Kept(after, e) && after.count + Units(e, chosen) == good.count
  {
    hide Units;
    if e.goodsType == GOODS_TYPE_SELECTABLE { SelectableTrade(e, good, chosen, after); }
  }

  datatype Request = Request(goodsId: u32, picks: seq<Pick>, ok: bool)

  /** `shops` are the states before, between and after the requests. */
  ghost predicate Visits(shops: seq<Shop>, entries: seq<Entry>, requests: seq<Request>) {
    && |shops| == |requests| + 1
    && forall k :: 0 <= k < |requests| ==>
         |requests[k].picks| < WORD &&
         Outcome(shops[k], entries, requests[k].goodsId, requests[k].picks, requests[k].ok, shops[k + 1])
  }

  ghost function SoldIn(entries: seq<Entry>, i: nat, requests: seq<Request>): nat
    requires i < |entries|
    decreases |requests|
  {
    if |requests| == 0 then 0
    else
      var last := requests[|requests| - 1];
      SoldIn(entries, i, requests[..|requests| - 1]) + UnitsOf(entries, i, last.goodsId, last.picks, last.ok)
  }

  /**
   Over any run of purchases: what is left of a good plus what was sold of it is what
   there was, a selectable good's count and record add up to its limit, and the record is
   in order without repetition.
   */
  lemma {:induction false} RunKeeps(shops: seq<Shop>, entries: seq<Entry>, requests: seq<Request>)
    requires DistinctIds(entries) && Visits(shops, entries, requests) && Consistent(shops[0], entries)
    ensures Consistent(shops[|requests|], entries)
    ensures forall i :: 0 <= i < |entries| ==>
              |RowOf(shops[|requests|], entries)| == |RowOf(shops[0], entries)| == |entries| &&
              RowOf(shops[|requests|], entries)[i].count + SoldIn(entries, i, requests) ==
              RowOf(shops[0], entries)[i].count
    decreases |requests|
  {
    hide RowOf, Outcome, Consistent, UnitsOf;
    if |requests| > 0 {
      var n := |requests| - 1;
      var last := requests[n];
      RunKeeps(shops[..n + 1], entries, requests[..n]);
      PurchaseKeeps(shops[n], entries, last.goodsId, last.picks, last.ok, shops[n + 1]);
      ConsistentSize(shops[n + 1], entries);
      ConsistentSize(shops[0], entries);
      assert shops[..n + 1][n] == shops[n] && shops[..n + 1][0] == shops[0];
      forall i | 0 <= i < |entries|
        ensures RowOf(shops[n + 1], entries)[i].count + SoldIn(entries, i, requests) ==
                RowOf(shops[0], entries)[i].count
      {
        assert SoldIn(entries, i, requests) ==
               SoldIn(entries, i, requests[..n]) + UnitsOf(entries, i, last.goodsId, last.picks, last.ok);
      }
    } else {
      ConsistentSize(shops[0], entries);
    }
  }

  lemma ConsistentSize(s: Shop, entries: seq<Entry>)
    ensures |RowOf(s, entries)| == |entries|
  {
  }

  // ---------- What is handed out ----------

  /** The whole words that each item's product loses. */
  ghost function CutOff(e: Entry, chosen: Chosen): map<u32, nat> {
    map item | item in chosen :: Times(e.num, chosen[item]) / WORD
  }

  function Times(x: nat, n: nat): nat {
    x * n
  }

  /** The goods a purchase hands out. */
  ghost function HandedOut(e: Entry, chosen: Chosen): nat {
    if e.goodsType == GOODS_TYPE_FIXED then e.num else Sum(map item | item in chosen :: Mul(e.num, chosen[item]))
  }

  lemma HandedOutIsDrops(e: Entry, good: Good, chosen: Chosen)
    requires Allowed(e, good, chosen)
    ensures HandedOut(e, chosen) == Sum(Drops(e, chosen))
  {
    if e.goodsType == GOODS_TYPE_FIXED {
      var one: Amounts := map[e.goods[0] := e.num];
      SumSplits(one, one.Keys, e.goods[0]);
      assert one.Keys - {e.goods[0]} == {};
    }
  }

  /** What is handed out beyond `num` for every unit taken off the count; it may be negative. */
  ghost function Surplus(e: Entry, chosen: Chosen): int {
    if e.goodsType == GOODS_TYPE_FIXED then 0
    else (Times(e.num, Sum(chosen) / WORD) - SumOver(CutOff(e, chosen), chosen.Keys)) * WORD
  }

  lemma {:induction false} DropsSum(e: Entry, chosen: Chosen, items: set<u32>)
    requires items <= chosen.Keys
    ensures SumOver(map item | item in chosen :: Mul(e.num, chosen[item]), items) +
            SumOver(CutOff(e, chosen), items) * WORD == Times(e.num, SumOver(chosen, items))
    decreases |items|
  {
    var drops := map item | item in chosen :: Mul(e.num, chosen[item]);
    if items == {} {
    } else {
      var item :| item in items;
      DropsSum(e, chosen, items - {item});
      SumSplits(drops, items, item);
      SumSplits(CutOff(e, chosen), items, item);
      SumSplits(chosen, items, item);
      TimesSum(e.num, chosen[item], SumOver(chosen, items - {item}));
      assert drops[item] + Times(e.num, chosen[item]) / WORD * WORD == Times(e.num, chosen[item]);
    }
  }

  lemma TimesSum(x: nat, a: nat, b: nat)
    ensures Times(x, a + b) == Times(x, a) + Times(x, b)
  {
  }

  lemma TimesWord(x: nat, q: nat)
    ensures Times(x, q * WORD) == Times(x, q) * WORD
  {
  }

  /** Goods handed out are `num` for every unit and the surplus. */
  lemma HandedOutIs(e: Entry, chosen: Chosen)
    ensures HandedOut(e, chosen) == Times(e.num, Units(e, chosen)) + Surplus(e, chosen)
  {
    if e.goodsType != GOODS_TYPE_FIXED {
      DropsSum(e, chosen, chosen.Keys);
      var sum, q := Sum(chosen), Sum(chosen) / WORD;
      assert sum == Wrap(sum) + q * WORD;
      TimesSum(e.num, Wrap(sum), q * WORD);
      TimesWord(e.num, q);
      assert (map item | item in chosen :: Mul(e.num, chosen[item])).Keys == chosen.Keys;
    }
  }

  /** No single product of the request wraps. */
  ghost predicate ProductsFit(e: Entry, chosen: Chosen) {
    e.goodsType == GOODS_TYPE_FIXED || forall item :: item in chosen ==> Times(e.num, chosen[item]) < WORD
  }

  /** The sum of the request does not wrap. */
  ghost predicate SumFits(e: Entry, chosen: Chosen) {
    e.goodsType == GOODS_TYPE_FIXED || Sum(chosen) < WORD
  }

  lemma {:induction false} NothingCutOff(e: Entry, chosen: Chosen, items: set<u32>)
    requires items <= chosen.Keys && forall item :: item in chosen ==> Times(e.num, chosen[item]) < WORD
    ensures SumOver(CutOff(e, chosen), items) == 0
    decreases |items|
  {
    if items != {} {
      var item :| item in items;
      SumSplits(CutOff(e, chosen), items, item);
      NothingCutOff(e, chosen, items - {item});
    }
  }

  /**
   A purchase whose products fit hands out at least `num` for every unit taken off the
   count, and no more exactly when the sum of its counts fits 32 bits.
   */
  lemma HandedOutMatchesIff(e: Entry, chosen: Chosen)
    requires e.num > 0 && ProductsFit(e, chosen)
    ensures HandedOut(e, chosen) >= Times(e.num, Units(e, chosen))
    ensures HandedOut(e, chosen) == Times(e.num, Units(e, chosen)) <==> SumFits(e, chosen)
  {
    HandedOutIs(e, chosen);
    if e.goodsType != GOODS_TYPE_FIXED {
      NothingCutOff(e, chosen, chosen.Keys);
      TimesZero(e.num, Sum(chosen) / WORD);
    }
  }

  lemma TimesZero(x: nat, n: nat)
    requires x > 0
    ensures Times(x, n) == 0 <==> n == 0
  {
  }

  /**
   Without any bound on the products: what is handed out is `num` for every unit exactly
   when the products lose as many words as the sum does, `num` times over.
   */
  lemma HandedOutMatchesAlways(e: Entry, chosen: Chosen)
    requires e.goodsType != GOODS_TYPE_FIXED
    ensures HandedOut(e, chosen) == Times(e.num, Units(e, chosen)) <==>
            SumOver(CutOff(e, chosen), chosen.Keys) == Times(e.num, Sum(chosen) / WORD)
  {
    HandedOutIs(e, chosen);
  }

  function Pile(goods: seq<u32>): Entry {
    Entry(1, goods, 1, 2, 1, DROP_TYPE_ITEM, DROP_TYPE_ITEM, 5, 100)
  }

  lemma TwoPicks(picks: seq<Pick>, chosen: Chosen)
    requires picks == [Pick(7, 0x8000_0000), Pick(8, 0x8000_0001)]
    requires chosen == map[7 := 0x8000_0000, 8 := 0x8000_0001]
    ensures ByItem(picks) == chosen && Sum(chosen) == WORD + 1
  {
    assert picks[..1][..0] == [] && picks[..1][0] == Pick(7, 0x8000_0000);
    assert ByItem(picks[..1]) == map[7 := 0x8000_0000];
    SumSplits(chosen, {7, 8}, 7);
    SumSplits(chosen, {8}, 8);
    assert chosen.Keys == {7, 8} && {7, 8} - {7} == {8} && {8} - {8} == {};
  }

  lemma SinglePieces(e: Entry, chosen: Chosen)
    requires e.goodsType != GOODS_TYPE_FIXED && e.num == 1
    ensures Drops(e, chosen) == chosen
  {
    hide Wrap;
    forall item | item in chosen
      ensures Mul(1, chosen[item]) == chosen[item]
    {
      WrapSmall(chosen[item]);
    }
  }

  lemma TwoPiles(chosen: Chosen)
    requires chosen.Keys == {7, 8} && Sum(chosen) == WORD + 1
    ensures var e := Pile([7, 8]);
            && Allowed(e, Fresh(e), chosen) && Units(e, chosen) == 1
            && Cost(e, chosen) == 100 && Drops(e, chosen) == chosen
  {
    hide Sum, Drops;
    var e := Pile([7, 8]);
    SinglePieces(e, chosen);
    assert |chosen| > 0 by { assert 7 in chosen; }
    assert forall item :: item in chosen ==> AllowedItem(e, Fresh(e), chosen, item);
  }

  /** An instance: one unit of a good limited to one hands out two piles of more than two thousand million. */
  lemma OneUnitTwoPiles(funds: Stock)
    requires Has(funds, (DROP_TYPE_ITEM, 5), 100)
    ensures var e, chosen := Pile([7, 8]), ByItem([Pick(7, 0x8000_0000), Pick(8, 0x8000_0001)]);
            && CanBuy(Shop(None, funds, map[]), [e], e, 0, chosen)
            && Units(e, chosen) == 1 && Cost(e, chosen) == 100
            && Drops(e, chosen) == map[7 := 0x8000_0000, 8 := 0x8000_0001]
  {
    hide ByItem, Normal, NormalGood, RowOf, Allowed, Units, Cost, Drops;
    var e, picks := Pile([7, 8]), [Pick(7, 0x8000_0000), Pick(8, 0x8000_0001)];
    var chosen: Chosen := map[7 := 0x8000_0000, 8 := 0x8000_0001];
    TwoPicks(picks, chosen);
    TwoPiles(chosen);
    ConsistentIsNormal(Shop(None, funds, map[]), [e]);
  }

  // ---------- What a run hands out ----------

  /** The accepted requests for an entry. */
  ghost predicate Buys(entries: seq<Entry>, i: nat, r: Request)
    requires i < |entries|
  {
    r.ok && r.goodsId == entries[i].id
  }

  ghost function HandedIn(entries: seq<Entry>, i: nat, requests: seq<Request>): nat
    requires i < |entries|
    decreases |requests|
  {
    if |requests| == 0 then 0
    else
      var last := requests[|requests| - 1];
      HandedIn(entries, i, requests[..|requests| - 1]) +
      if Buys(entries, i, last) then HandedOut(entries[i], ByItem(last.picks)) else 0
  }

  /** Every accepted request for the entry satisfies the bound on its products, or on its sum. */
  ghost predicate AllProductsFit(entries: seq<Entry>, i: nat, requests: seq<Request>)
    requires i < |entries|
  {
    forall k :: 0 <= k < |requests| && Buys(entries, i, requests[k]) ==>
      ProductsFit(entries[i], ByItem(requests[k].picks))
  }

  ghost predicate AllSumsFit(entries: seq<Entry>, i: nat, requests: seq<Request>)
    requires i < |entries|
  {
    forall k :: 0 <= k < |requests| && Buys(entries, i, requests[k]) ==>
      SumFits(entries[i], ByItem(requests[k].picks))
  }

  lemma {:induction false} HandedInIff(entries: seq<Entry>, i: nat, requests: seq<Request>)
    requires i < |entries| && entries[i].num > 0 && AllProductsFit(entries, i, requests)
    ensures HandedIn(entries, i, requests) >= Times(entries[i].num, SoldIn(entries, i, requests))
    ensures HandedIn(entries, i, requests) == Times(entries[i].num, SoldIn(entries, i, requests)) <==>
            AllSumsFit(entries, i, requests)
    decreases |requests|
  {
    hide HandedOut, Units, ByItem, SumFits, ProductsFit, Times;
    var e := entries[i];
    if |requests| == 0 {
      TimesNothing(e.num);
    } else {
      var init, last := requests[..|requests| - 1], requests[|requests| - 1];
      assert requests == init + [last];
      HandedInIff(entries, i, init);
      var units := UnitsOf(entries, i, last.goodsId, last.picks, last.ok);
      TimesSum(e.num, SoldIn(entries, i, init), units);
      if Buys(entries, i, last) {
        HandedOutMatchesIff(e, ByItem(last.picks));
      } else {
        TimesNothing(e.num);
      }
      assert AllSumsFit(entries, i, requests) <==>
             AllSumsFit(entries, i, init) && (Buys(entries, i, last) ==> SumFits(e, ByItem(last.picks)));
    }
  }

  lemma TimesNothing(x: nat)
    ensures Times(x, 0) == 0
  {
  }

  /**
   Over any run of purchases whose products fit, the goods handed out of an entry are
   `num` times what its count lost exactly when no accepted request's sum wraps;
   otherwise they are more.
   */
  lemma RunHandsOutIff(shops: seq<Shop>, entries: seq<Entry>, requests: seq<Request>, i: nat)
    requires DistinctIds(entries) && Visits(shops, entries, requests) && Consistent(shops[0], entries)
    requires i < |entries| && entries[i].num > 0 && AllProductsFit(entries, i, requests)
    ensures |RowOf(shops[0], entries)| == |RowOf(shops[|requests|], entries)| == |entries|
    ensures var lost := RowOf(shops[0], entries)[i].count - RowOf(shops[|requests|], entries)[i].count;
            && lost >= 0
            && HandedIn(entries, i, requests) >= Times(entries[i].num, lost)
            && (HandedIn(entries, i, requests) == Times(entries[i].num, lost) <==> AllSumsFit(entries, i, requests))
  {
    hide RowOf, HandedIn, SoldIn;
    RunKeeps(shops, entries, requests);
    HandedInIff(entries, i, requests);
  }

  // ---------- A purchase in two ----------

  /** The goods that are neither fixed nor selectable. */
  predicate Plain(e: Entry) {
    e.goodsType != GOODS_TYPE_FIXED && e.goodsType != GOODS_TYPE_SELECTABLE
  }

  lemma IndexIs(row: seq<Good>, entries: seq<Entry>, i: nat)
    requires DistinctIds(entries) && Aligned(row, entries) && i < |entries|
    ensures EntryOf(entries, entries[i].id) == Some(i) && FirstIndex(row, entries[i].id) == Some(i)
  {
    assert row[i].id == entries[i].id;
    assert FirstIndex(row, entries[i].id).Some? && EntryOf(entries, entries[i].id).Some?;
  }

  /** A purchase of a plain good, written out. */
  ghost function PlainBuy(s: Shop, entries: seq<Entry>, i: nat, chosen: Chosen): Option<Shop>
    requires i < |entries| && Plain(entries[i])
  {
    var e, row, key := entries[i], RowOf(s, entries), (entries[i].costCategory, entries[i].costType);
    if e.id == 0 || !CanBuy(s, entries, e, i, chosen) then None
    else Some(Shop(Some(row[i := row[i].(count := row[i].count - Units(e, chosen))]),
                   s.funds[key := s.funds[key] - Cost(e, chosen)],
                   Received(s.received, e.kind, Drops(e, chosen))))
  }

  /** The handler does that, whatever the picks. */
  lemma PlainOutcome(s: Shop, entries: seq<Entry>, i: nat, picks: seq<Pick>, ok: bool, t: Shop)
    requires DistinctIds(entries) && i < |entries| && Plain(entries[i])
    requires Outcome(s, entries, entries[i].id, picks, ok, t)
    ensures ok <==> PlainBuy(s, entries, i, ByItem(picks)).Some?
    ensures ok ==> t == PlainBuy(s, entries, i, ByItem(picks)).value
  {
    hide RowOf, Normal, NormalGood, Received, ByItem, Units, Cost, Drops, Allowed, EntryOf, FirstIndex;
    var e, row := entries[i], RowOf(s, entries);
    RowIsAligned(s, entries);
    IndexIs(row, entries, i);
    assert ok <==> e.id != 0 && CanBuy(s, entries, e, i, ByItem(picks));
    if ok {
      assert Bought(s, entries, e, i, ByItem(picks), t);
      assert t.row.value == row[i := row[i].(count := row[i].count - Units(e, ByItem(picks)))];
    }
  }

  lemma RowIsAligned(s: Shop, entries: seq<Entry>)
    ensures Aligned(RowOf(s, entries), entries)
  {
  }

  /** A row in the entries' order and within its limits is its own normal form. */
  lemma AlignedIsNormal(row: seq<Good>, entries: seq<Entry>)
    requires DistinctIds(entries) && Aligned(row, entries)
    requires forall i :: 0 <= i < |entries| ==> row[i].count <= entries[i].limit
    ensures Normal(row, entries) == row
  {
    forall i | 0 <= i < |entries|
      ensures NormalGood(row, entries[i]) == row[i]
    {
      FindAligned(row, entries, i);
    }
  }

  lemma RowWithinLimits(s: Shop, entries: seq<Entry>)
    ensures forall i :: 0 <= i < |entries| ==> RowOf(s, entries)[i].count <= entries[i].limit
  {
  }

  lemma StoredRow(s: Shop, entries: seq<Entry>)
    requires s.row.Some?
    ensures RowOf(s, entries) == Normal(s.row.value, entries)
  {
  }

  /** The units a request asks for; picks without an item are skipped. */
  function Asked(picks: seq<Pick>): nat
    decreases |picks|
  {
    if |picks| == 0 then 0
    else Asked(picks[..|picks| - 1]) + if picks[|picks| - 1].item == 0 then 0 else picks[|picks| - 1].count
  }

  /** As long as they fit 32 bits, that is what the items come to. */
  lemma {:induction false} AskedIsSum(picks: seq<Pick>)
    requires Asked(picks) < WORD
    ensures Sum(ByItem(picks)) == Asked(picks)
    decreases |picks|
  {
    if |picks| > 0 {
      var init, last := picks[..|picks| - 1], picks[|picks| - 1];
      AskedIsSum(init);
      AmountWithinSum(ByItem(init), last.item);
      SumPut(ByItem(init), last.item, last.count);
    }
  }

  lemma {:induction false} AskedAppends(p: seq<Pick>, q: seq<Pick>)
    ensures Asked(p + q) == Asked(p) + Asked(q)
    ensures ByItem(p + q) == Combine(ByItem(p), ByItem(q))
    decreases |q|
  {
    if |q| == 0 {
      assert p + q == p;
      CombineEmpty(ByItem(p));
    } else {
      var init, last := q[..|q| - 1], q[|q| - 1];
      assert (p + q)[..|p + q| - 1] == p + init && (p + q)[|p + q| - 1] == last;
      AskedAppends(p, init);
      PutCombines(ByItem(p), ByItem(init), last.item, last.count);
    }
  }

  /** Nothing in the purchase of `n` units wraps. */
  ghost predicate Fits(e: Entry, n: nat) {
    n < WORD && Times(e.costNum, n) < WORD && Times(e.num, n) < WORD
  }

  /** Then units, cost and goods are linear in what was asked for. */
  lemma PlainIsLinear(e: Entry, picks: seq<Pick>)
    requires Plain(e) && Fits(e, Asked(picks))
    ensures var chosen := ByItem(picks);
            && Units(e, chosen) == Asked(picks) && Cost(e, chosen) == Times(e.costNum, Asked(picks))
            && (forall item :: item in chosen ==> Drops(e, chosen)[item] == Times(e.num, chosen[item]))
            && HandedOut(e, chosen) == Times(e.num, Asked(picks))
  {
    var n, chosen := Asked(picks), ByItem(picks);
    AskedIsSum(picks);
    WrapSmall(n);
    WrapSmall(Times(e.costNum, n));
    forall item | item in chosen
      ensures Times(e.num, chosen[item]) < WORD && Drops(e, chosen)[item] == Times(e.num, chosen[item])
    {
      AmountWithinSum(chosen, item);
      TimesSum(e.num, chosen[item], n - chosen[item]);
      WrapSmall(Times(e.num, chosen[item]));
    }
    NothingCutOff(e, chosen, chosen.Keys);
    DropsSum(e, chosen, chosen.Keys);
    assert (map item | item in chosen :: Mul(e.num, chosen[item])).Keys == chosen.Keys;
  }

  /** In words, what the items come to is always what was asked for. */
  lemma {:induction false} AskedInWords(picks: seq<Pick>)
    ensures Wrap(Sum(ByItem(picks))) == Wrap(Asked(picks))
    decreases |picks|
  {
    hide Wrap, Sum;
    if |picks| == 0 {
      NothingSummed();
    } else {
      var init, last := ByItem(picks[..|picks| - 1]), picks[|picks| - 1];
      AskedInWords(picks[..|picks| - 1]);
      SumPut(init, last.item, last.count);
      var more := if last.item == 0 then 0 else last.count;
      WrapAdd(Sum(init), more);
      WrapAdd(Asked(picks[..|picks| - 1]), more);
      WrapShift(Sum(init) + more, -1);
    }
  }

  lemma NothingSummed()
    ensures Sum(map[]) == 0
  {
  }

  /** What may be bought of a plain good. */
  lemma CanBuyPlain(s: Shop, entries: seq<Entry>, i: nat, chosen: Chosen)
    requires i < |entries| && Plain(entries[i])
    ensures |RowOf(s, entries)| == |entries|
    ensures var e := entries[i];
            CanBuy(s, entries, e, i, chosen) <==>
            && (forall item :: item in chosen ==> item in e.goods)
            && 0 < Units(e, chosen) <= RowOf(s, entries)[i].count
            && Payable(e.costCategory) && Grantable(e.kind)
            && Has(s.funds, (e.costCategory, e.costType), Cost(e, chosen))
  {
    hide Cost;
    RowIsAligned(s, entries);
    NothingSummed();
    var e, good := entries[i], RowOf(s, entries)[i];
    assert chosen == map[] ==> Units(e, chosen) == 0;
    hide Units;
    assert Allowed(e, good, chosen) <==>
           chosen != map[] && forall item :: item in chosen ==> AllowedItem(e, good, chosen, item);
  }

  lemma MulAdd(x: u32, a: u32, b: u32)
    ensures Mul(x, Add(a, b)) == Add(Mul(x, a), Mul(x, b))
  {
    hide Wrap;
    AddWraps(a, b);
    WrapMul(x, a + b);
    WrapSum(x * a, x * b);
    assert x * (a + b) == x * a + x * b;
  }

  lemma DropsAt(e: Entry, chosen: Chosen, item: u32)
    requires Plain(e)
    ensures AmountOf(Drops(e, chosen), item) == Mul(e.num, AmountOf(chosen, item))
    ensures Drops(e, chosen).Keys == chosen.Keys
  {
  }

  /** Units, cost and goods of a joint request are the word sums of those of its parts. */
  lemma JointRequest(e: Entry, p: seq<Pick>, q: seq<Pick>)
    requires Plain(e)
    ensures var a, b, c := ByItem(p), ByItem(q), ByItem(p + q);
            && c.Keys == a.Keys + b.Keys
            && Units(e, c) == Add(Units(e, a), Units(e, b))
            && Cost(e, c) == Add(Cost(e, a), Cost(e, b))
            && Drops(e, c).Keys == Drops(e, a).Keys + Drops(e, b).Keys
            && forall item: u32 ::
                 AmountOf(Drops(e, c), item) == Add(AmountOf(Drops(e, a), item), AmountOf(Drops(e, b), item))
  {
    hide ByItem, Asked, Wrap, Mul, Drops, Sum;
    var a, b, c := ByItem(p), ByItem(q), ByItem(p + q);
    AskedAppends(p, q);
    AskedInWords(p);
    AskedInWords(q);
    AskedInWords(p + q);
    WrapSum(Asked(p), Asked(q));
    MulAdd(e.costNum, Units(e, a), Units(e, b));
    forall item: u32
      ensures (item in c <==> item in a || item in b) && Drops(e, c).Keys == c.Keys
      ensures Drops(e, a).Keys == a.Keys && Drops(e, b).Keys == b.Keys
      ensures AmountOf(Drops(e, c), item) == Add(AmountOf(Drops(e, a), item), AmountOf(Drops(e, b), item))
    {
      CombineAt(a, b, item);
      DropsAt(e, a, item);
      DropsAt(e, b, item);
      DropsAt(e, c, item);
      MulAdd(e.num, AmountOf(a, item), AmountOf(b, item));
    }
    assert Drops(e, c).Keys == c.Keys;
  }

  lemma ReceivedAt(received: Stock, kind: u32, drops: Chosen, k: Key)
    requires kind != DROP_TYPE_VITEM
    ensures var shelf := if kind == DROP_TYPE_LOVE_LETTER then DROP_TYPE_ITEM else kind;
            && Amount(Received(received, kind, drops), k) ==
               Amount(received, k) + (if k.0 == shelf then AmountOf(drops, k.1) else 0)
            && (k in Received(received, kind, drops) <==> k in received || (k.0 == shelf && k.1 in drops))
  {
  }

  /** Handing out two lots is handing out their word sums exactly where none of these wraps. */
  lemma ReceivedInTwo(received: Stock, kind: u32, a: Chosen, b: Chosen, c: Chosen)
    requires c.Keys == a.Keys + b.Keys
    requires forall item: u32 :: AmountOf(c, item) == Add(AmountOf(a, item), AmountOf(b, item))
    ensures Received(Received(received, kind, a), kind, b) == Received(received, kind, c) <==>
            kind == DROP_TYPE_VITEM || forall item: u32 :: AmountOf(a, item) + AmountOf(b, item) < WORD
  {
    hide Received;
    if kind == DROP_TYPE_VITEM {
      NothingReceived(received, a);
      NothingReceived(received, b);
      NothingReceived(received, c);
    } else {
      var shelf := if kind == DROP_TYPE_LOVE_LETTER then DROP_TYPE_ITEM else kind;
      var mid := Received(received, kind, a);
      var two, one := Received(mid, kind, b), Received(received, kind, c);
      forall k: Key
        ensures k in two <==> k in one
        ensures Amount(two, k) == Amount(one, k) <==> k.0 != shelf || AmountOf(a, k.1) + AmountOf(b, k.1) < WORD
      {
        ReceivedAt(received, kind, a, k);
        ReceivedAt(mid, kind, b, k);
        ReceivedAt(received, kind, c, k);
      }
      if forall item: u32 :: AmountOf(a, item) + AmountOf(b, item) < WORD {
        assert two.Keys == one.Keys;
        assert forall k :: k in two ==> two[k] == Amount(two, k) && one[k] == Amount(one, k);
        assert two == one;
      } else {
        var item: u32 :| AmountOf(a, item) + AmountOf(b, item) >= WORD;
        assert Amount(two, (shelf, item)) != Amount(one, (shelf, item));
      }
    }
  }

  lemma NothingReceived(received: Stock, drops: Chosen)
    ensures Received(received, DROP_TYPE_VITEM, drops) == received
  {
  }

  /** None of the sums of two requests wraps. */
  ghost predicate NoCarry(e: Entry, a: Chosen, b: Chosen)
    requires Plain(e)
  {
    && Units(e, a) + Units(e, b) < WORD && Cost(e, a) + Cost(e, b) < WORD
    && (e.kind == DROP_TYPE_VITEM ||
        forall item: u32 :: AmountOf(Drops(e, a), item) + AmountOf(Drops(e, b), item) < WORD)
  }

  /** What a second request finds. */
  lemma AfterFirst(s: Shop, entries: seq<Entry>, i: nat, chosen: Chosen, m: Shop)
    requires DistinctIds(entries) && i < |entries| && Plain(entries[i])
    requires PlainBuy(s, entries, i, chosen) == Some(m)
    ensures |RowOf(s, entries)| == |entries| && RowOf(m, entries) == m.row.value
    ensures var row := RowOf(s, entries);
            Units(entries[i], chosen) <= row[i].count &&
            m.row.value == row[i := row[i].(count := row[i].count - Units(entries[i], chosen))]
  {
    hide RowOf, Received, Normal, NormalGood, Drops, Units, Cost, Allowed;
    var row := RowOf(s, entries);
    RowIsAligned(s, entries);
    RowWithinLimits(s, entries);
    assert Aligned(m.row.value, entries);
    AlignedIsNormal(m.row.value, entries);
    StoredRow(m, entries);
  }

  ghost function BuyTwo(s: Shop, entries: seq<Entry>, i: nat, a: Chosen, b: Chosen): Option<Shop>
    requires i < |entries| && Plain(entries[i])
  {
    match PlainBuy(s, entries, i, a)
    case None => None
    case Some(m) => PlainBuy(m, entries, i, b)
  }

  /** Where no sum wraps, asking for two lists of picks at once is accepted exactly when one after the other is. */
  lemma JointAccepted(s: Shop, entries: seq<Entry>, i: nat, p: seq<Pick>, q: seq<Pick>)
    requires DistinctIds(entries) && i < |entries| && Plain(entries[i])
    requires Units(entries[i], ByItem(p)) > 0 && Units(entries[i], ByItem(q)) > 0
    requires NoCarry(entries[i], ByItem(p), ByItem(q))
    ensures PlainBuy(s, entries, i, ByItem(p + q)).Some? <==> BuyTwo(s, entries, i, ByItem(p), ByItem(q)).Some?
  {
    hide RowOf, Received, Normal, NormalGood, ByItem, Drops, Units, Cost, CanBuy;
    var e, a, b, c := entries[i], ByItem(p), ByItem(q), ByItem(p + q);
    JointRequest(e, p, q);
    CanBuyPlain(s, entries, i, a);
    CanBuyPlain(s, entries, i, c);
    assert forall item :: item in c <==> item in a || item in b;
    var first := PlainBuy(s, entries, i, a);
    if first.Some? {
      AfterFirst(s, entries, i, a, first.value);
      CanBuyPlain(first.value, entries, i, b);
    }
  }

  /** Two purchases and the joint one, all accepted, end alike exactly where no sum wraps. */
  lemma JointAgrees(s: Shop, entries: seq<Entry>, i: nat, p: seq<Pick>, q: seq<Pick>)
    requires DistinctIds(entries) && i < |entries| && Plain(entries[i])
    requires BuyTwo(s, entries, i, ByItem(p), ByItem(q)).Some? && PlainBuy(s, entries, i, ByItem(p + q)).Some?
    ensures BuyTwo(s, entries, i, ByItem(p), ByItem(q)) == PlainBuy(s, entries, i, ByItem(p + q)) <==>
            NoCarry(entries[i], ByItem(p), ByItem(q))
  {
    hide RowOf, Received, Normal, NormalGood, ByItem, Drops, Units, Cost, CanBuy;
    var e, a, b, c := entries[i], ByItem(p), ByItem(q), ByItem(p + q);
    var key, row := (e.costCategory, e.costType), RowOf(s, entries);
    JointRequest(e, p, q);
    CanBuyPlain(s, entries, i, a);
    CanBuyPlain(s, entries, i, c);
    var m := PlainBuy(s, entries, i, a).value;
    AfterFirst(s, entries, i, a, m);
    CanBuyPlain(m, entries, i, b);
    var two, one := PlainBuy(m, entries, i, b).value, PlainBuy(s, entries, i, c).value;
    assert two.row == one.row <==> Units(e, a) + Units(e, b) < WORD by {
      var left := row[i].count - Units(e, a) - Units(e, b);
      assert two.row.value == row[i := row[i].(count := left)];
      assert two.row.value[i].count == left && one.row.value[i].count == row[i].count - Units(e, c);
    }
    assert two.funds == one.funds <==> Cost(e, a) + Cost(e, b) < WORD by {
      var left := s.funds[key] - Cost(e, a) - Cost(e, b);
      assert two.funds == s.funds[key := left];
      assert two.funds[key] == left && one.funds[key] == s.funds[key] - Cost(e, c);
    }
    ReceivedInTwo(s.received, e.kind, Drops(e, a), Drops(e, b), Drops(e, c));
  }

  /**
   Buying two lists of picks one after the other ends like buying them at once, refused or
   accepted, where none of their sums wraps, and only there once both are accepted.
   */
  lemma PurchaseInTwo(s: Shop, entries: seq<Entry>, i: nat, p: seq<Pick>, q: seq<Pick>)
    requires DistinctIds(entries) && i < |entries| && Plain(entries[i])
    ensures var a, b := ByItem(p), ByItem(q);
            var two, one := BuyTwo(s, entries, i, a, b), PlainBuy(s, entries, i, ByItem(p + q));
            && (Units(entries[i], a) > 0 && Units(entries[i], b) > 0 && NoCarry(entries[i], a, b) ==> two == one)
            && (two.Some? ==> (two == one <==> NoCarry(entries[i], a, b)))
  {
    hide RowOf, ByItem, NoCarry, Units, PlainBuy;
    var a, b := ByItem(p), ByItem(q);
    var two, one := BuyTwo(s, entries, i, a, b), PlainBuy(s, entries, i, ByItem(p + q));
    if two.Some? { BoughtSomething(s, entries, i, a, b); }
    if Units(entries[i], a) > 0 && Units(entries[i], b) > 0 && NoCarry(entries[i], a, b) {
      JointAccepted(s, entries, i, p, q);
    }
    if two.Some? && one.Some? { JointAgrees(s, entries, i, p, q); }
  }

  lemma BoughtSomething(s: Shop, entries: seq<Entry>, i: nat, a: Chosen, b: Chosen)
    requires i < |entries| && Plain(entries[i]) && BuyTwo(s, entries, i, a, b).Some?
    ensures Units(entries[i], a) > 0 && Units(entries[i], b) > 0
  {
    hide RowOf, Units;
  }
}
