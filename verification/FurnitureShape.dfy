/** What directions, kinds and walls mean for an accepted list, written out in sides and coordinates. */
module FurnitureShape {
  import opened Word32
  import opened Furniture

  /** The side along x: the template's first side in direction 1, its second in any other. */
  function Wide(i: Item): u32 {
    if |i.tpl.size| < 2 then 0 else if i.dir == 1 then i.tpl.size[0] else i.tpl.size[1]
  }

  /** The side along y: the other one. */
  function High(i: Item): u32 {
    if |i.tpl.size| < 2 then 0 else if i.dir == 1 then i.tpl.size[1] else i.tpl.size[0]
  }

  function Least(a: int, b: int): int {
    if a < b then a else b
  }

  function Most(a: int, b: int): int {
    if a < b then b else a
  }

  lemma EdgesAre(i: Item)
    ensures Right(i) == (i.x + Wide(i)) % WORD && Top(i) == (i.y + High(i)) % WORD
  {
  }

  /** The cells of an item that does not reach past 2^32: its sides, counted from its place. */
  lemma CoversIs(i: Item, x: u32, y: u32)
    requires |i.tpl.size| >= 2
    requires i.x + i.tpl.size[0] < WORD && i.x + i.tpl.size[1] < WORD
    requires i.y + i.tpl.size[0] < WORD && i.y + i.tpl.size[1] < WORD
    ensures i.dir == 1 ==> (Covers(i, x, y) <==> 0 <= x - i.x < i.tpl.size[0] && 0 <= y - i.y < i.tpl.size[1])
    ensures i.dir != 1 ==> (Covers(i, x, y) <==> 0 <= x - i.x < i.tpl.size[1] && 0 <= y - i.y < i.tpl.size[0])
  {
    EdgesAre(i);
  }

  /** A quarter turn transposes an item: what it covers along x it then covers along y. */
  lemma QuarterTurn(i: Item, a: u32, b: u32)
    requires i.dir == 1 && i.x + a < WORD && i.y + a < WORD && i.x + b < WORD && i.y + b < WORD
    requires forall s :: s in i.tpl.size ==> i.x + s < WORD && i.y + s < WORD
    ensures Covers(i, i.x + a, i.y + b) <==> Covers(i.(dir := 2), i.x + b, i.y + a)
    ensures forall x: u32, y: u32 :: Covers(i.(dir := 0), x, y) <==> Covers(i.(dir := 2), x, y)
  {
    if |i.tpl.size| >= 2 {
      assert i.tpl.size[0] in i.tpl.size && i.tpl.size[1] in i.tpl.size;
      CoversIs(i, i.x + a, i.y + b);
      CoversIs(i.(dir := 2), i.x + b, i.y + a);
    }
  }

  /** The rectangles of two items meet, a side that reaches past 2^32 being wrapped. */
  predicate Overlap(a: Item, b: Item) {
    && Most(a.x, b.x) < Least((a.x + Wide(a)) % WORD, (b.x + Wide(b)) % WORD)
    && Most(a.y, b.y) < Least((a.y + High(a)) % WORD, (b.y + High(b)) % WORD)
  }

  lemma OverlapIffSharedCell(a: Item, b: Item)
    ensures Overlap(a, b) <==> exists x: u32, y: u32 :: Covers(a, x, y) && Covers(b, x, y)
    ensures Overlap(a, b) <==> !Apart(a, b)
  {
    EdgesAre(a);
    EdgesAre(b);
    ApartIffNoSharedCell(a, b);
  }

  /** Takes up floor: on the floor, no paper (1, 4) or mat (5, 10), and on no other item. */
  predicate TakesFloor(i: Item) {
    i.tpl.belong == 1 && i.tpl.kind !in {1, 4, 5, 10} && i.parent == 0
  }

  /** Within the map, if it is the kind of item that has to be; wall items have one limit each. */
  predicate WithinMap(i: Item, m: MapSize) {
    var right, top := (i.x + Wide(i)) % WORD, (i.y + High(i)) % WORD;
    && (i.tpl.belong == 1 && i.tpl.kind !in {1, 4} && i.parent == 0 && i.x < right && i.y < top ==>
          m.minX <= i.x && right - 1 <= m.maxX && m.minY <= i.y && top - 1 <= m.maxY)
    && (i.tpl.belong == 3 ==> i.x < (m.maxX + 1) % WORD)
    && (i.tpl.belong == 4 ==> i.y < (m.maxY + 1) % WORD)
  }

  lemma LimitsAre(i: Item, m: MapSize)
    ensures WithinLimits(i, m) <==> WithinMap(i, m)
  {
    EdgesAre(i);
    assert Add(m.maxX, 1) == (m.maxX + 1) % WORD && Add(m.maxY, 1) == (m.maxY + 1) % WORD;
  }

  /** The whole verdict on a list with distinct ids, in sides, coordinates, kinds and families. */
  lemma AcceptedInNumbers(items: seq<Item>, floor: u32, m: MapSize)
    requires DistinctIds(items)
    ensures Acceptable(items, floor, m) <==>
            && (items == [] || floor != 0)
            && (forall i, j :: 0 <= i < j < |items| && TakesFloor(items[i]) && TakesFloor(items[j]) ==>
                  !Overlap(items[i], items[j]))
            && (forall i :: 0 <= i < |items| ==> WithinMap(items[i], m))
            && Families(items)
  {
    hide WithinLimits, WithinMap, Overlap, Apart;
    AcceptableIff(items, floor, m);
    forall i | 0 <= i < |items|
      ensures WithinLimits(items[i], m) <==> WithinMap(items[i], m)
      ensures Solid(items[i]) <==> TakesFloor(items[i])
    {
      LimitsAre(items[i], m);
    }
    forall i, j | 0 <= i < j < |items|
      ensures Apart(items[i], items[j]) <==> !Overlap(items[i], items[j])
    {
      OverlapIffSharedCell(items[i], items[j]);
    }
  }

  /** An instance: two turned items of sides 2 and 1 stand side by side; unturned they would collide. */
  lemma TurnedSideBySide(t: Template)
    requires t.size == [2, 1]
    ensures var a, b := Item(1, t, 12, 12, 2, 0, []), Item(2, t, 13, 12, 2, 0, []);
            !Overlap(a, b) && Overlap(a.(dir := 1), b.(dir := 1))
  {
  }
}
