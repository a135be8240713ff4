/** Placing furniture: an occupancy grid filled cell by cell, and what it amounts to in geometry. */
module Furniture {
  import opened Word32

  datatype Template = Template(kind: u32, belong: u32, size: seq<u32>)

  datatype MapSize = MapSize(minX: u32, minY: u32, maxX: u32, maxY: u32)

  /** A placement whose ids were parsed and whose template was found. */
  datatype Item = Item(rawId: u32, tpl: Template, x: u32, y: u32, dir: u32, parent: nat, children: seq<u32>)

  /** A placement as received. */
  datatype Put = Unreadable | Readable(item: Item)

  const FLOOR: u32 := 1
  const WALL_X: u32 := 3
  const WALL_Y: u32 := 4

  /** Wallpaper, floor paper, mats and wall mats cover the plane without filling it. */
  predicate MatOrPaper(t: Template) {
    t.kind == 1 || t.kind == 4 || t.kind == 5 || t.kind == 10
  }

  predicate Solid(i: Item) {
    i.tpl.belong == FLOOR && !MatOrPaper(i.tpl) && i.parent == 0
  }

  predicate Bounded(i: Item) {
    i.tpl.belong == FLOOR && i.tpl.kind != 1 && i.tpl.kind != 4 && i.parent == 0
  }

  /** Direction 1 keeps the template's sides, any other swaps them. */
  function Footprint(t: Template, dir: u32): (u32, u32) {
    if |t.size| < 2 then (0, 0)
    else if dir == 1 then (t.size[0], t.size[1])
    else (t.size[1], t.size[0])
  }

  function Right(i: Item): u32 {
    Add(i.x, Footprint(i.tpl, i.dir).0)
  }

  function Top(i: Item): u32 {
    Add(i.y, Footprint(i.tpl, i.dir).1)
  }

  // ---------- Geometry ----------

  /** The rectangle has no cell. A side that wraps around 2^32 has none either. */
  ghost predicate Empty(i: Item) {
    Right(i) <= i.x || Top(i) <= i.y
  }

  ghost predicate Covers(i: Item, x: u32, y: u32) {
    i.x <= x < Right(i) && i.y <= y < Top(i)
  }

  /** Separated along an axis. */
  ghost predicate Apart(a: Item, b: Item) {
    || Empty(a) || Empty(b)
    || Right(a) <= b.x || Right(b) <= a.x
    || Top(a) <= b.y || Top(b) <= a.y
  }

  lemma ApartIffNoSharedCell(a: Item, b: Item)
    ensures Apart(a, b) <==> !exists x: u32, y: u32 :: Covers(a, x, y) && Covers(b, x, y)
  {
    if !Apart(a, b) {
      var x: u32 := if a.x < b.x then b.x else a.x;
      var y: u32 := if a.y < b.y then b.y else a.y;
      assert Covers(a, x, y) && Covers(b, x, y);
    }
  }

  ghost predicate Inside(i: Item, m: MapSize) {
    Empty(i) || (m.minX <= i.x && m.minY <= i.y && Right(i) - 1 <= m.maxX && Top(i) - 1 <= m.maxY)
  }

  // ---------- What an acceptable list is ----------

  ghost predicate NoOverlap(items: seq<Item>) {
    forall i, j :: 0 <= i < j < |items| && Solid(items[i]) && Solid(items[j]) ==> Apart(items[i], items[j])
  }

  /** `k` is where the index points for `id`: the last item carrying it. */
  ghost predicate Indexed(items: seq<Item>, id: u32, k: int) {
    0 <= k < |items| && items[k].rawId == id && forall j :: k < j < |items| ==> items[j].rawId != id
  }

  ghost predicate Known(items: seq<Item>, id: u32) {
    exists k :: Indexed(items, id, k)
  }

  ghost predicate ParentListsIt(items: seq<Item>, i: Item) {
    i.parent == 0 || exists k :: Indexed(items, Wrap(i.parent), k) && i.rawId in items[k].children
  }

  ghost predicate ChildrenNameIt(items: seq<Item>, i: Item) {
    forall c :: c in i.children ==> exists k :: Indexed(items, c, k) && items[k].parent == i.rawId
  }

  ghost predicate WithinLimits(i: Item, m: MapSize) {
    && (Bounded(i) ==> Inside(i, m))
    && (i.tpl.belong == WALL_X ==> i.x < Add(m.maxX, 1))
    && (i.tpl.belong == WALL_Y ==> i.y < Add(m.maxY, 1))
  }

  ghost predicate ItemFits(items: seq<Item>, i: Item, m: MapSize) {
    ParentListsIt(items, i) && ChildrenNameIt(items, i) && WithinLimits(i, m)
  }

  ghost predicate Acceptable(items: seq<Item>, floor: u32, m: MapSize) {
    && NoOverlap(items)
    && (items != [] ==> floor != 0)
    && forall i :: 0 <= i < |items| ==> ItemFits(items, items[i], m)
  }

  ghost predicate Parsed(list: seq<Put>) {
    forall i :: 0 <= i < |list| ==> list[i].Readable? && list[i].item.dir <= 2
  }

  ghost function Items(list: seq<Put>): seq<Item>
    requires Parsed(list)
  {
    seq(|list|, i requires 0 <= i < |list| => list[i].item)
  }

  // ---------- The validator ----------

  ghost predicate InGrid(grid: map<u32, set<u32>>, x: u32, y: u32) {
    x in grid && y in grid[x]
  }

  /** The columns filled so far are those of the solid items before `n`. */
  ghost predicate Filled(occupied: map<u32, set<u32>>, items: seq<Item>, n: nat)
    requires n <= |items|
  {
    forall x: u32, y: u32 :: InGrid(occupied, x, y) <==> Taken(items, n, x, y)
  }

  ghost predicate Taken(items: seq<Item>, n: nat, x: u32, y: u32)
    requires n <= |items|
  {
    exists i :: 0 <= i < n && Solid(items[i]) && Covers(items[i], x, y)
  }

  /** `validateFurniturePutList`: accepts exactly the lists that parse and are acceptable. */
  method Validate(list: seq<Put>, floor: u32, m: MapSize) returns (ok: bool)
    ensures ok <==> Parsed(list) && Acceptable(Items(list), floor, m)
  {
    var index: map<u32, nat> := map[];
    var items: seq<Item> := [];
    for n := 0 to |list|
      invariant |items| == n && Parsed(list[..n])
      invariant forall i :: 0 <= i < n ==> items[i] == list[i].item
      invariant forall id :: id in index <==> Known(items, id)
      invariant forall id :: id in index ==> Indexed(items, id, index[id])
    {
      if list[n].Unreadable? || list[n].item.dir > 2 { return false; }
      IndexGrows(items, list[n].item);
      items := items + [list[n].item];
      index := index[list[n].item.rawId := n];
    }
    assert items == Items(list);

    var clear := FillMap(items);
    if !clear { return false; }

    for n := 0 to |items|
      invariant n > 0 ==> floor != 0
      invariant forall i :: 0 <= i < n ==> ItemFits(items, items[i], m)
    {
      if floor == 0 { return false; }
      var related := CheckRelations(items, index, items[n]);
      if !related { return false; }
      var within := CheckBounds(items[n], m);
      if !within { return false; }
    }
    return true;
  }

  lemma IndexGrows(items: seq<Item>, item: Item)
    ensures forall id: u32, k :: Indexed(items + [item], id, k) <==>
              if id == item.rawId then k == |items| else Indexed(items, id, k)
    ensures forall id: u32 :: Known(items + [item], id) <==> id == item.rawId || Known(items, id)
  {
    var now := items + [item];
    forall id: u32, k
      ensures Indexed(now, id, k) <==> if id == item.rawId then k == |items| else Indexed(items, id, k)
    {
      assert now[|items|] == item;
      assert forall j :: 0 <= j < |items| ==> now[j] == items[j];
    }
    forall id: u32
      ensures Known(now, id) <==> id == item.rawId || Known(items, id)
    {
      if id == item.rawId { assert Indexed(now, id, |items|); }
      if Known(items, id) {
        var k :| Indexed(items, id, k);
        assert id != item.rawId ==> Indexed(now, id, k);
      }
    }
  }

  /** Fills the grid with solid items until two of them meet. */
  method FillMap(items: seq<Item>) returns (clear: bool)
    ensures clear <==> NoOverlap(items)
  {
    var occupied: map<u32, set<u32>> := map[];
    for n := 0 to |items|
      invariant Filled(occupied, items, n)
      invariant NoOverlap(items[..n])
    {
      if Solid(items[n]) {
        var free;
        free, occupied := FillItem(items, n, occupied);
        if !free {
          SharedCellOverlaps(items, n);
          return false;
        }
        NoSharedCellKeeps(items, n);
      } else {
        OthersKeep(items, n, occupied);
      }
    }
    assert items[..|items|] == items;
    return true;
  }

  ghost predicate Meets(items: seq<Item>, n: nat)
    requires n < |items|
  {
    exists x: u32, y: u32 :: Covers(items[n], x, y) && Taken(items, n, x, y)
  }

  lemma SharedCellOverlaps(items: seq<Item>, n: nat)
    requires n < |items| && Solid(items[n]) && Meets(items, n)
    ensures !NoOverlap(items)
  {
    var x: u32, y: u32 :| Covers(items[n], x, y) && Taken(items, n, x, y);
    var i :| 0 <= i < n && Solid(items[i]) && Covers(items[i], x, y);
    ApartIffNoSharedCell(items[i], items[n]);
  }

  lemma NoSharedCellKeeps(items: seq<Item>, n: nat)
    requires n < |items| && Solid(items[n]) && !Meets(items, n) && NoOverlap(items[..n])
    ensures NoOverlap(items[..n + 1])
  {
    var now := items[..n + 1];
    forall i, j | 0 <= i < j < n + 1 && Solid(now[i]) && Solid(now[j])
      ensures Apart(now[i], now[j])
    {
      if j < n {
        assert items[..n][i] == now[i] && items[..n][j] == now[j];
      } else {
        ApartIffNoSharedCell(items[i], items[n]);
        assert forall x: u32, y: u32 :: Covers(items[i], x, y) ==> Taken(items, n, x, y);
      }
    }
  }

  lemma OthersKeep(items: seq<Item>, n: nat, occupied: map<u32, set<u32>>)
    requires n < |items| && !Solid(items[n]) && NoOverlap(items[..n]) && Filled(occupied, items, n)
    ensures NoOverlap(items[..n + 1]) && Filled(occupied, items, n + 1)
  {
    forall x: u32, y: u32
      ensures InGrid(occupied, x, y) <==> Taken(items, n + 1, x, y)
    {
      TakenNext(items, n, x, y);
    }
    var now := items[..n + 1];
    forall i, j | 0 <= i < j < n + 1 && Solid(now[i]) && Solid(now[j])
      ensures Apart(now[i], now[j])
    {
      assert items[..n][i] == now[i] && items[..n][j] == now[j];
    }
  }

  lemma TakenNext(items: seq<Item>, n: nat, x: u32, y: u32)
    requires n < |items|
    ensures Taken(items, n + 1, x, y) <==> Taken(items, n, x, y) || (Solid(items[n]) && Covers(items[n], x, y))
  {
  }

  /** Cells of `i` in the columns before `x`, and in column `x` below `y`. */
  ghost predicate Swept(i: Item, x: u32, y: u32, a: u32, b: u32) {
    Covers(i, a, b) && (a < x || (a == x && b < y))
  }

  /** The grid holds the solid items before `n` and what was swept of item `n`, which was free. */
  ghost predicate Sweeping(grid: map<u32, set<u32>>, items: seq<Item>, n: nat, x: u32, y: u32)
    requires n < |items|
  {
    forall a: u32, b: u32 ::
      && (InGrid(grid, a, b) <==> Taken(items, n, a, b) || Swept(items[n], x, y, a, b))
      && (Swept(items[n], x, y, a, b) ==> !Taken(items, n, a, b))
  }

  lemma SweepCell(grid: map<u32, set<u32>>, items: seq<Item>, n: nat, x: u32, y: u32)
    requires n < |items| && Sweeping(grid, items, n, x, y) && Covers(items[n], x, y)
    requires x in grid && !InGrid(grid, x, y)
    ensures Sweeping(grid[x := grid[x] + {y}], items, n, x, y + 1)
  {
    var after := grid[x := grid[x] + {y}];
    forall a: u32, b: u32
      ensures InGrid(after, a, b) <==> Taken(items, n, a, b) || Swept(items[n], x, y + 1, a, b)
      ensures Swept(items[n], x, y + 1, a, b) ==> !Taken(items, n, a, b)
    {
      assert InGrid(after, a, b) <==> InGrid(grid, a, b) || (a == x && b == y);
      assert Swept(items[n], x, y + 1, a, b) <==> Swept(items[n], x, y, a, b) || (a == x && b == y);
    }
  }

  /** Moving to a place that sweeps the same cells; an untouched column may be entered as empty. */
  lemma SweepOn(grid: map<u32, set<u32>>, after: map<u32, set<u32>>, items: seq<Item>, n: nat,
                  x: u32, y: u32, x': u32, y': u32)
    requires n < |items| && Sweeping(grid, items, n, x, y)
    requires forall a: u32, b: u32 :: InGrid(after, a, b) <==> InGrid(grid, a, b)
    requires forall a: u32, b: u32 :: Swept(items[n], x', y', a, b) <==> Swept(items[n], x, y, a, b)
    ensures Sweeping(after, items, n, x', y')
  {
  }

  lemma SweepDone(grid: map<u32, set<u32>>, items: seq<Item>, n: nat, x: u32)
    requires n < |items| && Solid(items[n]) && Sweeping(grid, items, n, x, 0)
    requires x >= Right(items[n])
    ensures Filled(grid, items, n + 1) && !Meets(items, n)
  {
    forall a: u32, b: u32
      ensures InGrid(grid, a, b) <==> Taken(items, n + 1, a, b)
      ensures !(Covers(items[n], a, b) && Taken(items, n, a, b))
    {
      TakenNext(items, n, a, b);
      assert Covers(items[n], a, b) <==> Swept(items[n], x, 0, a, b);
    }
  }

  method FillItem(items: seq<Item>, n: nat, grid: map<u32, set<u32>>) returns (free: bool, occupied: map<u32, set<u32>>)
    requires n < |items| && Solid(items[n]) && Filled(grid, items, n)
    ensures free <==> !Meets(items, n)
    ensures free ==> Filled(occupied, items, n + 1)
  {
    var item := items[n];
    occupied := grid;
    var x: u32 := item.x;
    while x < Right(item)
      invariant item.x <= x && (x <= Right(item) || x == item.x)
      invariant Sweeping(occupied, items, n, x, 0)
    {
      ghost var before := occupied;
      var col := if x in occupied then occupied[x] else {};
      occupied := occupied[x := col];
      var y: u32 := item.y;
      SweepOn(before, occupied, items, n, x, 0, x, y);
      while y < Top(item)
        invariant item.y <= y && (y <= Top(item) || y == item.y)
        invariant x in occupied && occupied[x] == col
        invariant Sweeping(occupied, items, n, x, y)
      {
        if y in col {
          assert InGrid(occupied, x, y) && Covers(item, x, y);
          return false, occupied;
        }
        SweepCell(occupied, items, n, x, y);
        col := col + {y};
        occupied := occupied[x := col];
        y := y + 1;
      }
      SweepOn(occupied, occupied, items, n, x, y, x + 1, 0);
      x := x + 1;
    }
    SweepDone(occupied, items, n, x);
    return true, occupied;
  }

  method CheckRelations(items: seq<Item>, index: map<u32, nat>, item: Item) returns (ok: bool)
    requires forall id :: id in index <==> Known(items, id)
    requires forall id :: id in index ==> Indexed(items, id, index[id])
    ensures ok <==> ParentListsIt(items, item) && ChildrenNameIt(items, item)
  {
    if item.parent != 0 {
      var id := Wrap(item.parent);
      if id !in index { return false; }
      IndexedOnce(items, id, index[id]);
      var found := Contains(items[index[id]].children, item.rawId);
      if !found { return false; }
    }
    for n := 0 to |item.children|
      invariant forall i :: 0 <= i < n ==>
                exists k :: Indexed(items, item.children[i], k) && items[k].parent == item.rawId
    {
      var id := item.children[n];
      assert id in item.children;
      if id !in index { return false; }
      IndexedOnce(items, id, index[id]);
      if items[index[id]].parent != item.rawId { return false; }
    }
    return true;
  }

  lemma IndexedOnce(items: seq<Item>, id: u32, k: int)
    requires Indexed(items, id, k)
    ensures forall j :: Indexed(items, id, j) ==> j == k
  {
  }

  method Contains(values: seq<u32>, value: u32) returns (found: bool)
    ensures found <==> value in values
  {
    for n := 0 to |values|
      invariant value !in values[..n]
    {
      if values[n] == value { return true; }
    }
    return false;
  }

  method CheckBounds(item: Item, m: MapSize) returns (ok: bool)
    ensures ok <==> WithinLimits(item, m)
  {
    if item.tpl.belong == FLOOR && item.tpl.kind != 1 && item.tpl.kind != 4 && item.parent == 0 {
      var x: u32 := item.x;
      while x < Right(item)
        invariant item.x <= x && (x <= Right(item) || x == item.x)
        invariant forall a: u32, b: u32 :: Swept(item, x, 0, a, b) ==> OnMap(m, a, b)
      {
        var y: u32 := item.y;
        while y < Top(item)
          invariant item.y <= y && (y <= Top(item) || y == item.y)
          invariant forall a: u32, b: u32 :: Swept(item, x, y, a, b) ==> OnMap(m, a, b)
        {
          if x < m.minX || y < m.minY || x > m.maxX || y > m.maxY {
            assert Covers(item, x, y) && !OnMap(m, x, y);
            InsideIffOnMap(item, m);
            return false;
          }
          y := y + 1;
        }
        assert forall a: u32, b: u32 :: Swept(item, x + 1, 0, a, b) ==> Swept(item, x, y, a, b);
        x := x + 1;
      }
      assert forall a: u32, b: u32 :: Covers(item, a, b) ==> Swept(item, x, 0, a, b);
      InsideIffOnMap(item, m);
    }
    if item.tpl.belong == WALL_X && item.x >= Add(m.maxX, 1) { return false; }
    if item.tpl.belong == WALL_Y && item.y >= Add(m.maxY, 1) { return false; }
    return true;
  }

  ghost predicate OnMap(m: MapSize, x: u32, y: u32) {
    m.minX <= x <= m.maxX && m.minY <= y <= m.maxY
  }

  lemma InsideIffOnMap(i: Item, m: MapSize)
    ensures Inside(i, m) <==> forall x: u32, y: u32 :: Covers(i, x, y) ==> OnMap(m, x, y)
  {
    if !Empty(i) && !Inside(i, m) {
      var right: u32, top: u32 := Right(i) - 1, Top(i) - 1;
      assert Covers(i, i.x, i.y) && Covers(i, right, top);
    }
  }

  // ---------- Parents and children ----------

  ghost predicate DistinctIds(items: seq<Item>) {
    && (forall i :: 0 <= i < |items| ==> items[i].rawId != 0)
    && forall i, j :: 0 <= i < j < |items| ==> items[i].rawId != items[j].rawId
  }

  ghost predicate Present(items: seq<Item>, id: int) {
    exists k :: 0 <= k < |items| && items[k].rawId == id
  }

  /** "Listed as child of" and "names as parent" are the same relation, and stay in the list. */
  ghost predicate Families(items: seq<Item>) {
    && (forall i, j :: 0 <= i < |items| && 0 <= j < |items| ==>
          (items[i].rawId in items[j].children <==> items[i].parent == items[j].rawId))
    && (forall i :: 0 <= i < |items| && items[i].parent != 0 ==> Present(items, items[i].parent))
    && (forall i, c :: 0 <= i < |items| && c in items[i].children ==> Present(items, c))
  }

  lemma OnlyOneIndexed(items: seq<Item>, k: nat)
    requires DistinctIds(items) && k < |items|
    ensures forall j :: Indexed(items, items[k].rawId, j) <==> j == k
  {
  }

  lemma ListingIsNaming(items: seq<Item>, i: nat, j: nat)
    requires DistinctIds(items) && i < |items| && j < |items|
    requires ParentListsIt(items, items[i]) && ChildrenNameIt(items, items[j])
    ensures items[i].rawId in items[j].children <==> items[i].parent == items[j].rawId
  {
    OnlyOneIndexed(items, i);
    OnlyOneIndexed(items, j);
    if items[i].parent == items[j].rawId { WrapSmall(items[j].rawId); }
  }

  /** With distinct non-zero ids, the two lookups of the validator hold for every item exactly in families. */
  lemma RelationsAreFamilies(items: seq<Item>)
    requires DistinctIds(items)
    ensures (forall i :: 0 <= i < |items| ==> ParentListsIt(items, items[i]) && ChildrenNameIt(items, items[i])) <==>
            Families(items)
  {
    if forall i :: 0 <= i < |items| ==> ParentListsIt(items, items[i]) && ChildrenNameIt(items, items[i]) {
      forall i, j | 0 <= i < |items| && 0 <= j < |items|
        ensures items[i].rawId in items[j].children <==> items[i].parent == items[j].rawId
      {
        ListingIsNaming(items, i, j);
      }
      forall i | 0 <= i < |items| && items[i].parent != 0
        ensures Present(items, items[i].parent)
      {
        var k :| Indexed(items, Wrap(items[i].parent), k) && items[i].rawId in items[k].children;
        ListingIsNaming(items, i, k);
      }
    }
    if Families(items) {
      forall i | 0 <= i < |items|
        ensures ParentListsIt(items, items[i]) && ChildrenNameIt(items, items[i])
      {
        FamilyMemberRelated(items, i);
      }
    }
  }

  lemma FamilyMemberRelated(items: seq<Item>, i: nat)
    requires DistinctIds(items) && Families(items) && i < |items|
    ensures ParentListsIt(items, items[i]) && ChildrenNameIt(items, items[i])
  {
    if items[i].parent != 0 {
      var k :| 0 <= k < |items| && items[k].rawId == items[i].parent;
      WrapSmall(items[k].rawId);
      OnlyOneIndexed(items, k);
    }
    forall c | c in items[i].children
      ensures exists k :: Indexed(items, c, k) && items[k].parent == items[i].rawId
    {
      assert Present(items, c);
      var k :| 0 <= k < |items| && items[k].rawId == c;
      OnlyOneIndexed(items, k);
    }
  }

  /** The validator's verdict, in geometry and family terms only. */
  lemma AcceptableIff(items: seq<Item>, floor: u32, m: MapSize)
    requires DistinctIds(items)
    ensures Acceptable(items, floor, m) <==>
            && NoOverlap(items)
            && (items != [] ==> floor != 0)
            && (forall i :: 0 <= i < |items| ==> WithinLimits(items[i], m))
            && Families(items)
  {
    RelationsAreFamilies(items);
  }
}
