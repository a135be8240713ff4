/** How much floor an accepted furniture list can cover: a pigeonhole argument over grid cells. */
module FurnitureArea {
  import opened Word32
  import opened Collections
  import opened Furniture

  // ---------- Counting the cells of a rectangle ----------

  ghost function Rect(x0: int, x1: int, y0: int, y1: int): set<(int, int)> {
    set x: int, y: int | x0 <= x < x1 && y0 <= y < y1 :: (x, y)
  }

  ghost function Extent(lo: int, hi: int): nat {
    if lo <= hi then hi - lo else 0
  }

  lemma {:induction false} ColumnCells(x: int, y0: int, y1: int)
    ensures |Rect(x, x + 1, y0, y1)| == Extent(y0, y1)
    decreases Extent(y0, y1)
  {
    if y0 >= y1 {
      assert Rect(x, x + 1, y0, y1) == {};
    } else {
      ColumnCells(x, y0, y1 - 1);
      assert Rect(x, x + 1, y0, y1) == Rect(x, x + 1, y0, y1 - 1) + {(x, y1 - 1)};
    }
  }

  lemma {:induction false} RectCells(x0: int, x1: int, y0: int, y1: int)
    ensures |Rect(x0, x1, y0, y1)| == Extent(x0, x1) * Extent(y0, y1)
    decreases Extent(x0, x1)
  {
    if x0 >= x1 {
      assert Rect(x0, x1, y0, y1) == {};
    } else {
      RectCells(x0, x1 - 1, y0, y1);
      ColumnCells(x1 - 1, y0, y1);
      var rest, column := Rect(x0, x1 - 1, y0, y1), Rect(x1 - 1, x1, y0, y1);
      assert Rect(x0, x1, y0, y1) == rest + column;
      assert rest !! column;
      OneMoreColumn(Extent(x0, x1 - 1), Extent(y0, y1));
    }
  }

  lemma OneMoreColumn(w: nat, h: nat)
    ensures (w + 1) * h == w * h + h
  {
  }

  // ---------- Items ----------

  ghost function CellsOf(i: Item): set<(int, int)> {
    Rect(i.x, Right(i), i.y, Top(i))
  }

  ghost function Area(i: Item): nat {
    Extent(i.x, Right(i)) * Extent(i.y, Top(i))
  }

  /** Without wrap-around the area is the product of the template's sides. */
  lemma AreaIsFootprint(i: Item)
    requires i.x + Footprint(i.tpl, i.dir).0 < WORD && i.y + Footprint(i.tpl, i.dir).1 < WORD
    ensures Area(i) == Footprint(i.tpl, i.dir).0 * Footprint(i.tpl, i.dir).1
  {
    assert Extent(i.x, Right(i)) == Footprint(i.tpl, i.dir).0;
    assert Extent(i.y, Top(i)) == Footprint(i.tpl, i.dir).1;
  }

  ghost function SolidArea(items: seq<Item>): nat {
    if |items| == 0 then 0
    else
      var last := items[|items| - 1];
      SolidArea(items[..|items| - 1]) + if Solid(last) then Area(last) else 0
  }

  ghost function SolidCells(items: seq<Item>): set<(int, int)> {
    if |items| == 0 then {}
    else
      var last := items[|items| - 1];
      SolidCells(items[..|items| - 1]) + if Solid(last) then CellsOf(last) else {}
  }

  lemma {:induction false} SolidCellsCovered(items: seq<Item>, x: int, y: int)
    requires (x, y) in SolidCells(items)
    ensures exists i :: 0 <= i < |items| && Solid(items[i]) && (x, y) in CellsOf(items[i])
  {
    var n := |items| - 1;
    if Solid(items[n]) && (x, y) in CellsOf(items[n]) {
    } else {
      SolidCellsCovered(items[..n], x, y);
      var i :| 0 <= i < n && Solid(items[..n][i]) && (x, y) in CellsOf(items[..n][i]);
      assert items[..n][i] == items[i];
    }
  }

  lemma {:induction false} NotCovered(items: seq<Item>, c: (int, int))
    requires forall i :: 0 <= i < |items| && Solid(items[i]) ==> c !in CellsOf(items[i])
    ensures c !in SolidCells(items)
  {
    if |items| != 0 {
      NotCovered(items[..|items| - 1], c);
    }
  }

  /** Solid items that do not overlap cover as many cells as their areas add up to. */
  lemma {:induction false} DisjointAreasAdd(items: seq<Item>)
    requires NoOverlap(items)
    ensures |SolidCells(items)| == SolidArea(items)
  {
    if |items| != 0 {
      var n := |items| - 1;
      var last := items[n];
      assert forall i :: 0 <= i < n ==> items[..n][i] == items[i];
      DisjointAreasAdd(items[..n]);
      if Solid(last) {
        RectCells(last.x, Right(last), last.y, Top(last));
        forall c | c in CellsOf(last)
          ensures c !in SolidCells(items[..n])
        {
          NotCovered(items[..n], c);
        }
        assert SolidCells(items[..n]) !! CellsOf(last);
      }
    }
  }

  // ---------- The map ----------

  ghost function MapCells(m: MapSize): nat {
    Extent(m.minX, m.maxX + 1) * Extent(m.minY, m.maxY + 1)
  }

  lemma CoveredIsOnMap(items: seq<Item>, floor: u32, m: MapSize, x: int, y: int)
    requires Acceptable(items, floor, m) && (x, y) in SolidCells(items)
    ensures (x, y) in Rect(m.minX, m.maxX + 1, m.minY, m.maxY + 1)
  {
    hide NoOverlap, SolidCells, ParentListsIt, ChildrenNameIt;
    SolidCellsCovered(items, x, y);
    var i :| 0 <= i < |items| && Solid(items[i]) && (x, y) in CellsOf(items[i]);
    assert ItemFits(items, items[i], m);
  }

  /** An accepted list never covers more floor than the map has. */
  lemma AreaWithinMap(items: seq<Item>, floor: u32, m: MapSize)
    requires Acceptable(items, floor, m)
    ensures SolidArea(items) <= MapCells(m)
  {
    hide Acceptable, SolidCells, SolidArea;
    DisjointAreasAdd(items) by { AcceptableIsApart(items, floor, m); }
    var all := Rect(m.minX, m.maxX + 1, m.minY, m.maxY + 1);
    RectCells(m.minX, m.maxX + 1, m.minY, m.maxY + 1);
    forall c | c in SolidCells(items)
      ensures c in all
    {
      CoveredIsOnMap(items, floor, m, c.0, c.1);
    }
    SubsetSize(SolidCells(items), all);
  }

  lemma AcceptableIsApart(items: seq<Item>, floor: u32, m: MapSize)
    requires Acceptable(items, floor, m)
    ensures NoOverlap(items)
  {
  }

  /** `dormStaticMapSize`. */
  function StaticMap(level: u32): MapSize {
    var min := if level > 1 then Sub(12, Mul(level - 1, 4)) else 12;
    MapSize(min, min, 23, 23)
  }

  const QUARTER: int := 0x4000_0000

  /**
   The floor of each dorm level: 144, 256, 400 and 576 cells. From level 5 on the lower
   corner wraps past the upper one and no solid item fits, until `level - 1` comes
   within two below or three above a multiple of 2^30.
   */
  lemma StaticFloor(level: u32)
    ensures level <= 1 ==> MapCells(StaticMap(level)) == 144
    ensures level == 2 ==> MapCells(StaticMap(level)) == 256
    ensures level == 3 ==> MapCells(StaticMap(level)) == 400
    ensures level == 4 ==> MapCells(StaticMap(level)) == 576
    ensures MapCells(StaticMap(level)) == 0 <==>
            level > 1 && 4 <= (level - 1) % QUARTER < QUARTER - 2
  {
    var m := StaticMap(level);
    if level > 1 {
      var k := (level - 1) % QUARTER;
      var q := (level - 1) / QUARTER;
      assert (level - 1) * 4 == k * 4 + q * WORD;
      WrapShift(k * 4, q);
      assert Mul(level - 1, 4) == k * 4;
    }
    Square(m.minX);
  }

  lemma Square(min: u32)
    ensures Extent(min, 24) * Extent(min, 24) == 0 <==> min >= 24
    ensures min == 12 ==> Extent(min, 24) * Extent(min, 24) == 144
    ensures min == 8 ==> Extent(min, 24) * Extent(min, 24) == 256
    ensures min == 4 ==> Extent(min, 24) * Extent(min, 24) == 400
    ensures min == 0 ==> Extent(min, 24) * Extent(min, 24) == 576
  {
  }

  /** At such a level every accepted list has no solid floor area at all. */
  lemma NoFloorAtHighLevels(items: seq<Item>, floor: u32, level: u32)
    requires Acceptable(items, floor, StaticMap(level))
    requires level > 1 && 4 <= (level - 1) % QUARTER < QUARTER - 2
    ensures SolidArea(items) == 0
  {
    AreaWithinMap(items, floor, StaticMap(level));
    StaticFloor(level);
  }
}
