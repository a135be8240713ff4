/** Which letter a damaged love-letter item is repaired into, and when the orders in which Go visits its maps decide. */
module RepairTarget {
  import opened Options
  import opened Word32
  import opened Collections

  type Years = map<u32, u32>

  type Index = map<(u32, u32), Years>

  datatype Tables = Tables(yearsOf: Index, letterOf: map<(u32, u32), u32>)

  datatype Target = Target(year: u32, group: u32, letter: u32)

  // ---------- Loading ----------

  datatype Content = Content(id: u32, shipGroup: u32, year: u32, loveItem: seq<u32>)

  datatype Legacy = Legacy(id: u32, shipGroup: u32, year: u32)

  function YearsAt(index: Index, item: u32, group: u32): Years {
    if (item, group) in index then index[(item, group)] else map[]
  }

  /** No year and no group in the index is zero, and no key is without a year. */
  ghost predicate NonZero(index: Index) {
    && (forall k, y :: k in index && y in index[k] ==> y != 0 && index[k][y] != 0)
    && (forall k :: k in index ==> index[k] != map[])
  }

  /** The group entered for a key and a year, or 0. */
  function EntryAt(index: Index, k: (u32, u32), y: u32): u32 {
    if k in index && y in index[k] then index[k][y] else 0
  }

  function PutEntry(index: Index, key: (u32, u32), year: u32, group: u32): (r: Index)
    requires NonZero(index) && group != 0 && year != 0
    ensures NonZero(r)
    ensures forall k: (u32, u32), y: u32 ::
              EntryAt(r, k, y) == if k == key && y == year then group else EntryAt(index, k, y)
  {
    var years := YearsAt(index, key.0, key.1)[year := group];
    assert year in years;
    index[key := years]
  }

  ghost predicate EnteredFor(c: Content, groups: seq<u32>, k: (u32, u32), y: u32) {
    y == c.year && k.0 in c.loveItem && k.1 in groups
  }

  /** Entering one content row for every group that may hold its items. */
  method EnterContent(index: Index, c: Content, groups: seq<u32>) returns (r: Index)
    requires NonZero(index) && c.shipGroup != 0 && c.year != 0
    ensures NonZero(r)
    ensures forall k: (u32, u32), y: u32 ::
              EntryAt(r, k, y) == if EnteredFor(c, groups, k, y) then c.shipGroup else EntryAt(index, k, y)
  {
    r := index;
    for i := 0 to |c.loveItem|
      invariant NonZero(r)
      invariant forall k: (u32, u32), y: u32 ::
                  EntryAt(r, k, y) ==
                    if y == c.year && k.0 in c.loveItem[..i] && k.1 in groups then c.shipGroup else EntryAt(index, k, y)
    {
      var item := c.loveItem[i];
      assert c.loveItem[..i + 1] == c.loveItem[..i] + [item];
      ghost var before := r;
      for j := 0 to |groups|
        invariant NonZero(r)
        invariant forall k: (u32, u32), y: u32 ::
                    EntryAt(r, k, y) ==
                      if y == c.year && k.0 == item && k.1 in groups[..j] then c.shipGroup else EntryAt(before, k, y)
      {
        assert groups[..j + 1] == groups[..j] + [groups[j]];
        r := PutEntry(r, (item, groups[j]), c.year, c.shipGroup);
      }
      assert groups[..|groups|] == groups;
    }
    assert c.loveItem[..|c.loveItem|] == c.loveItem;
  }

  predicate UsableContent(c: Content) {
    c.id != 0 && c.shipGroup != 0 && c.year != 0
  }

  predicate UsableLegacy(l: Legacy) {
    l.id != 0 && l.shipGroup != 0 && l.year != 0
  }

  /** The ship's own group and the groups related to it. */
  function GroupsOf(c: Content, related: map<u32, seq<u32>>): seq<u32> {
    [c.shipGroup] + if c.shipGroup in related then related[c.shipGroup] else []
  }

  /** A place of the tables: the group for a key and a year, or the letter of a group and a year. */
  datatype Slot = Entry(key: (u32, u32), year: u32) | Letter(group: u32, year: u32)

  function LetterAt(letterOf: map<(u32, u32), u32>, group: u32, year: u32): u32 {
    if (group, year) in letterOf then letterOf[(group, year)] else 0
  }

  function SlotAt(t: Tables, slot: Slot): u32 {
    match slot
    case Entry(key, year) => EntryAt(t.yearsOf, key, year)
    case Letter(group, year) => LetterAt(t.letterOf, group, year)
  }

  /** The row is usable and writes to the slot. */
  ghost predicate Fills(c: Content, related: map<u32, seq<u32>>, slot: Slot) {
    && UsableContent(c)
    && match slot
       case Entry(key, year) => EnteredFor(c, GroupsOf(c, related), key, year)
       case Letter(group, year) => group == c.shipGroup && year == c.year
  }

  function Written(c: Content, slot: Slot): u32 {
    if slot.Entry? then c.shipGroup else c.id
  }

  /** What the last row that fills the slot writes there, or 0. */
  ghost function LastValue(contents: seq<Content>, related: map<u32, seq<u32>>, slot: Slot): u32
    decreases |contents|
  {
    if |contents| == 0 then 0
    else if Fills(contents[|contents| - 1], related, slot) then Written(contents[|contents| - 1], slot)
    else LastValue(contents[..|contents| - 1], related, slot)
  }

  ghost predicate LegacyNames(legacy: seq<Legacy>, slot: Slot) {
    && slot.Entry?
    && exists l :: l in legacy && UsableLegacy(l) && slot.key == (l.id, l.shipGroup) && slot.year == l.year
  }

  /** What a load leaves in a slot: a legacy row only counts where no content row does. */
  ghost function Loaded(contents: seq<Content>, related: map<u32, seq<u32>>, legacy: seq<Legacy>, slot: Slot): u32 {
    if LastValue(contents, related, slot) != 0 then LastValue(contents, related, slot)
    else if LegacyNames(legacy, slot) then slot.key.1
    else 0
  }

  ghost predicate Sound(t: Tables) {
    NonZero(t.yearsOf) && forall k :: k in t.letterOf ==> t.letterOf[k] != 0
  }

  /** The two tables that the rows fill, in the order in which they are visited. */
  method LoadContents(contents: seq<Content>, related: map<u32, seq<u32>>) returns (t: Tables)
    ensures Sound(t)
    ensures forall slot :: SlotAt(t, slot) == LastValue(contents, related, slot)
  {
    var years: Index, letterOf: map<(u32, u32), u32> := map[], map[];
    for i := 0 to |contents|
      invariant Sound(Tables(years, letterOf))
      invariant forall slot :: SlotAt(Tables(years, letterOf), slot) == LastValue(contents[..i], related, slot)
    {
      assert contents[..i + 1][..i] == contents[..i];
      ghost var before := Tables(years, letterOf);
      var c := contents[i];
      if UsableContent(c) {
        letterOf := letterOf[(c.shipGroup, c.year) := c.id];
        years := EnterContent(years, c, GroupsOf(c, related));
      }
      assert forall slot :: SlotAt(Tables(years, letterOf), slot) ==
                            if Fills(c, related, slot) then Written(c, slot) else SlotAt(before, slot);
    }
    assert contents[..|contents|] == contents;
    t := Tables(years, letterOf);
  }

  /** The whole load, the rows and the legacy rows in the orders in which Go visits their maps. */
  method LoadTables(contents: seq<Content>, related: map<u32, seq<u32>>, legacy: seq<Legacy>) returns (t: Tables)
    ensures Sound(t)
    ensures forall slot :: SlotAt(t, slot) == Loaded(contents, related, legacy, slot)
  {
    hide LastValue;
    t := LoadContents(contents, related);
    ghost var first := t;
    for i := 0 to |legacy|
      invariant Sound(t)
      invariant forall slot :: SlotAt(t, slot) == Loaded(contents, related, legacy[..i], slot)
    {
      assert legacy[..i + 1] == legacy[..i] + [legacy[i]];
      var l := legacy[i];
      if !UsableLegacy(l) { continue; }
      var key := (l.id, l.shipGroup);
      if EntryAt(t.yearsOf, key, l.year) == 0 {
        assert SlotAt(t, Entry(key, l.year)) == 0;
        ghost var before := t;
        t := t.(yearsOf := PutEntry(t.yearsOf, key, l.year, l.shipGroup));
        assert forall slot :: SlotAt(t, slot) ==
                              if slot == Entry(key, l.year) then l.shipGroup else SlotAt(before, slot);
      } else {
        assert SlotAt(t, Entry(key, l.year)) != 0;
      }
    }
    assert legacy[..|legacy|] == legacy;
  }

  // ---------- When the order of the rows decides ----------

  /** Row `i` fills the slot and no later row does. */
  ghost predicate FillsLast(contents: seq<Content>, related: map<u32, seq<u32>>, slot: Slot, i: nat) {
    && i < |contents| && Fills(contents[i], related, slot)
    && forall j :: i < j < |contents| ==> !Fills(contents[j], related, slot)
  }

  lemma WritesSomething(c: Content, related: map<u32, seq<u32>>, slot: Slot)
    requires Fills(c, related, slot)
    ensures Written(c, slot) != 0
  {
  }

  /** The value is what the last row that fills the slot writes, and is 0 exactly when none fills it. */
  lemma {:induction false} LastValueIs(contents: seq<Content>, related: map<u32, seq<u32>>, slot: Slot)
    ensures LastValue(contents, related, slot) == 0 ==> forall c :: c in contents ==> !Fills(c, related, slot)
    ensures LastValue(contents, related, slot) != 0 ==>
              exists i: nat :: FillsLast(contents, related, slot, i) &&
                               LastValue(contents, related, slot) == Written(contents[i], slot)
    decreases |contents|
  {
    hide Fills, Written;
    if |contents| > 0 {
      var init, last := contents[..|contents| - 1], contents[|contents| - 1];
      assert contents == init + [last];
      if Fills(last, related, slot) {
        WritesSomething(last, related, slot);
        assert FillsLast(contents, related, slot, |contents| - 1);
      } else {
        LastValueIs(init, related, slot);
        if LastValue(init, related, slot) != 0 {
          var i: nat :| FillsLast(init, related, slot, i) && LastValue(init, related, slot) == Written(init[i], slot);
          assert FillsLast(contents, related, slot, i);
        }
      }
    }
  }

  lemma LastValueFrom(contents: seq<Content>, related: map<u32, seq<u32>>, slot: Slot)
    ensures if LastValue(contents, related, slot) == 0 then forall c :: c in contents ==> !Fills(c, related, slot)
            else exists c :: c in contents && Fills(c, related, slot) &&
                             LastValue(contents, related, slot) == Written(c, slot)
  {
    LastValueIs(contents, related, slot);
  }

  /** Two usable rows that write different values to one slot. */
  ghost predicate Conflict(contents: seq<Content>, related: map<u32, seq<u32>>) {
    exists c, d, slot ::
      && c in contents && d in contents
      && Fills(c, related, slot) && Fills(d, related, slot) && Written(c, slot) != Written(d, slot)
  }

  ghost predicate Reorders<T>(s: seq<T>, t: seq<T>) {
    multiset(s) == multiset(t)
  }

  /** Two loads leave the same in every slot. */
  ghost predicate SameLoad(
      related: map<u32, seq<u32>>, c: seq<Content>, l: seq<Legacy>, d: seq<Content>, m: seq<Legacy>)
  {
    forall slot :: Loaded(c, related, l, slot) == Loaded(d, related, m, slot)
  }

  /**
   Every order of the rows and of the legacy rows loads the same tables exactly when no
   two usable rows write different values to one slot.
   */
  lemma RowsOrderFreeIff(contents: seq<Content>, related: map<u32, seq<u32>>, legacy: seq<Legacy>)
    ensures (forall p, q :: Reorders(p, contents) && Reorders(q, legacy) ==>
                              SameLoad(related, p, q, contents, legacy)) <==>
            !Conflict(contents, related)
  {
    if Conflict(contents, related) {
      var c, d, slot :| c in contents && d in contents && Fills(c, related, slot) && Fills(d, related, slot) &&
                        Written(c, slot) != Written(d, slot);
      var p := MovedLast(contents, c);
      var o := MovedLast(contents, d);
      assert Loaded(p, related, legacy, slot) != Loaded(o, related, legacy, slot);
      assert Reorders(legacy, legacy);
      assert !SameLoad(related, p, legacy, contents, legacy) || !SameLoad(related, o, legacy, contents, legacy);
    } else {
      forall p, q | Reorders(p, contents) && Reorders(q, legacy)
        ensures SameLoad(related, p, q, contents, legacy)
      {
        NoConflictSameLoad(related, p, q, contents, legacy);
      }
    }
  }

  /** The same rows, `c` visited last. */
  lemma MovedLast(contents: seq<Content>, c: Content) returns (p: seq<Content>)
    requires c in contents
    ensures Reorders(p, contents) && |p| > 0 && p[|p| - 1] == c
  {
    var i :| 0 <= i < |contents| && contents[i] == c;
    p := contents[..i] + contents[i + 1..] + [c];
    assert contents == contents[..i] + [c] + contents[i + 1..];
  }

  lemma SameMembers<T>(s: seq<T>, t: seq<T>)
    requires Reorders(s, t)
    ensures forall x :: x in s <==> x in t
  {
    assert forall x :: x in s <==> x in multiset(s);
    assert forall x :: x in t <==> x in multiset(t);
  }

  lemma NoConflictSameLoad(
      related: map<u32, seq<u32>>, p: seq<Content>, q: seq<Legacy>, contents: seq<Content>, legacy: seq<Legacy>)
    requires !Conflict(contents, related) && Reorders(p, contents) && Reorders(q, legacy)
    ensures SameLoad(related, p, q, contents, legacy)
  {
    SameMembers(p, contents);
    SameMembers(q, legacy);
    hide LastValue, Fills, Reorders;
    forall slot
      ensures Loaded(p, related, q, slot) == Loaded(contents, related, legacy, slot)
    {
      LastValueFrom(p, related, slot);
      LastValueFrom(contents, related, slot);
      assert LegacyNames(q, slot) == LegacyNames(legacy, slot);
    }
  }

  /** Tables without a zero are determined by their slots. */
  lemma SlotsDetermine(t: Tables, u: Tables)
    requires Sound(t) && Sound(u) && forall slot :: SlotAt(t, slot) == SlotAt(u, slot)
    ensures t == u
  {
    forall k: (u32, u32)
      ensures (k in t.letterOf <==> k in u.letterOf) && (k in t.letterOf ==> t.letterOf[k] == u.letterOf[k])
    {
      assert SlotAt(t, Letter(k.0, k.1)) == SlotAt(u, Letter(k.0, k.1));
    }
    assert t.letterOf == u.letterOf;
    forall k: (u32, u32)
      ensures (k in t.yearsOf <==> k in u.yearsOf) && (k in t.yearsOf ==> t.yearsOf[k] == u.yearsOf[k])
    {
      if k in t.yearsOf { YearsDetermined(t, u, k); }
      if k in u.yearsOf { YearsDetermined(u, t, k); }
    }
    assert t.yearsOf == u.yearsOf;
  }

  lemma YearsDetermined(t: Tables, u: Tables, k: (u32, u32))
    requires Sound(t) && Sound(u) && forall slot :: SlotAt(t, slot) == SlotAt(u, slot)
    requires k in t.yearsOf
    ensures k in u.yearsOf && t.yearsOf[k] == u.yearsOf[k]
  {
    forall y: u32
      ensures EntryAt(t.yearsOf, k, y) == EntryAt(u.yearsOf, k, y)
    {
      assert SlotAt(t, Entry(k, y)) == SlotAt(u, Entry(k, y));
    }
    var year :| year in t.yearsOf[k];
    assert EntryAt(t.yearsOf, k, year) != 0;
    forall y: u32
      ensures y in t.yearsOf[k] <==> y in u.yearsOf[k]
      ensures y in t.yearsOf[k] ==> t.yearsOf[k][y] == u.yearsOf[k][y]
    {
      assert EntryAt(t.yearsOf, k, y) == EntryAt(u.yearsOf, k, y);
    }
  }

  /** Without a conflict any two loads, whatever the orders, build equal tables. */
  lemma LoadedTablesAgree(
      t: Tables, u: Tables, related: map<u32, seq<u32>>,
      contents: seq<Content>, legacy: seq<Legacy>, p: seq<Content>, q: seq<Legacy>)
    requires !Conflict(contents, related) && Reorders(p, contents) && Reorders(q, legacy)
    requires Sound(t) && forall slot :: SlotAt(t, slot) == Loaded(contents, related, legacy, slot)
    requires Sound(u) && forall slot :: SlotAt(u, slot) == Loaded(p, related, q, slot)
    ensures t == u
  {
    NoConflictSameLoad(related, p, q, contents, legacy);
    SlotsDetermine(t, u);
  }

  // ---------- Merging the candidates ----------

  /** The groups that the keys `s` name for a year. */
  ghost function Named(index: Index, s: set<(u32, u32)>, y: u32): set<u32>
    requires s <= index.Keys
  {
    set k | k in s && y in index[k] :: index[k][y]
  }

  /** A year's candidate: the one group all keys agree on, or 0 when they differ. */
  ghost function Agreed(named: set<u32>): u32 {
    if exists v: u32 :: named == {v} then (var v: u32 :| named == {v}; v) else 0
  }

  /** The candidates that the keys `s` amount to. */
  ghost function Merged(index: Index, s: set<(u32, u32)>): Years
    requires s <= index.Keys
  {
    var years := set k, y | k in s && y in index[k] :: y;
    map y | y in years :: Agreed(Named(index, s, y))
  }

  lemma MergedIs(candidates: Years, index: Index, s: set<(u32, u32)>)
    requires s <= index.Keys
    requires forall y: u32 :: y in candidates <==> Named(index, s, y) != {}
    requires forall y: u32 :: y in candidates ==> candidates[y] == Agreed(Named(index, s, y))
    ensures candidates == Merged(index, s)
  {
    forall y: u32
      ensures y in candidates <==> y in Merged(index, s)
    {
      InMerged(index, s, y);
    }
  }

  lemma InMerged(index: Index, s: set<(u32, u32)>, y: u32)
    requires s <= index.Keys
    ensures y in Merged(index, s) <==> Named(index, s, y) != {}
  {
    if y in Merged(index, s) {
      var k :| k in s && y in index[k];
      assert index[k][y] in Named(index, s, y);
    }
    if Named(index, s, y) != {} {
      var v :| v in Named(index, s, y);
      var k :| k in s && y in index[k] && index[k][y] == v;
    }
  }

  lemma AgreedGrows(named: set<u32>, w: u32)
    ensures named == {} ==> Agreed(named + {w}) == w
    ensures named != {} ==> Agreed(named + {w}) == if Agreed(named) != w then 0 else w
  {
    if named == {} {
      assert named + {w} == {w};
    } else if exists v: u32 :: named == {v} {
      var v: u32 :| named == {v};
      if v == w {
        assert named + {w} == {w};
      } else {
        assert v in named + {w} && w in named + {w};
      }
    } else {
      var x :| x in named;
      assert named == (named - {x}) + {x} && {} + {x} == {x};
      var z :| z in named - {x};
      assert x in named + {w} && z in named + {w};
    }
  }

  /** `resolveLoveLetterRepairTarget`, the part without a group: keys and years come in any order. */
  method MergeCandidates(index: Index, item: u32) returns (candidates: Years)
    ensures candidates == Merged(index, KeysOf(index, item))
  {
    candidates := map[];
    var todo := index.Keys;
    ghost var done: set<(u32, u32)> := {};
    while todo != {}
      invariant todo <= index.Keys && done == KeysOf(index, item) - todo
      invariant candidates == Merged(index, done)
      decreases |todo|
    {
      var key: (u32, u32) :| key in todo;
      todo := todo - {key};
      if key.0 != item { continue; }
      candidates := MergeKey(candidates, index, done, key);
      done := done + {key};
    }
    assert done == KeysOf(index, item);
  }

  ghost function KeysOf(index: Index, item: u32): set<(u32, u32)> {
    set k | k in index && k.0 == item
  }

  method MergeKey(before: Years, index: Index, ghost done: set<(u32, u32)>, key: (u32, u32)) returns (candidates: Years)
    requires done <= index.Keys && key in index && key !in done
    requires before == Merged(index, done)
    ensures candidates == Merged(index, done + {key})
  {
    hide Agreed, Named, Merged;
    var years := index[key];
    candidates := before;
    var todo := years.Keys;
    while todo != {}
      invariant todo <= years.Keys
      invariant forall y: u32 :: y in candidates <==> y in before || (y in years && y !in todo)
      invariant forall y: u32 :: y in candidates ==>
                  candidates[y] == if y in years && y !in todo then Joined(before, y, years[y]) else before[y]
    {
      var year: u32 :| year in todo;
      todo := todo - {year};
      var group := years[year];
      if year in candidates && candidates[year] != group {
        candidates := candidates[year := 0];
        continue;
      }
      candidates := candidates[year := group];
    }
    forall y: u32
      ensures y in candidates <==> Named(index, done + {key}, y) != {}
      ensures y in candidates ==> candidates[y] == Agreed(Named(index, done + {key}, y))
    {
      NamedGrows(index, done, key, y);
      InMerged(index, done, y);
      MergedAt(index, done, y);
      assert Named(index, done, y) + {} == Named(index, done, y);
      if y in years { AgreedGrows(Named(index, done, y), years[y]); }
    }
    MergedIs(candidates, index, done + {key});
  }

  lemma MergedAt(index: Index, s: set<(u32, u32)>, y: u32)
    requires s <= index.Keys
    ensures y in Merged(index, s) ==> Merged(index, s)[y] == Agreed(Named(index, s, y))
  {
  }

  function Joined(before: Years, y: u32, group: u32): u32 {
    if y in before && before[y] != group then 0 else group
  }

  lemma NamedGrows(index: Index, done: set<(u32, u32)>, key: (u32, u32), y: u32)
    requires done <= index.Keys && key in index
    ensures Named(index, done + {key}, y) == Named(index, done, y) + if y in index[key] then {index[key][y]} else {}
  {
  }

  // ---------- Choosing the year ----------

  /** A candidate year that is unambiguous and has a letter. */
  predicate Valid(t: Tables, candidates: Years, y: u32) {
    && y in candidates && candidates[y] != 0
    && (candidates[y], y) in t.letterOf && t.letterOf[(candidates[y], y)] != 0
  }

  function TargetOf(t: Tables, candidates: Years, y: u32): Target
    requires Valid(t, candidates, y)
  {
    Target(y, candidates[y], t.letterOf[(candidates[y], y)])
  }

  /** An order in which the candidates may be visited: every year once. */
  ghost predicate Visits(order: seq<u32>, candidates: Years) {
    && (forall y: u32 :: y in order <==> y in candidates)
    && Distinct(order)
  }

  /** The year the scan ends with, `selected` being the year held so far and 0 meaning none. */
  function Scan(t: Tables, candidates: Years, order: seq<u32>, selected: u32): Option<u32>
    decreases |order|
  {
    if |order| == 0 then (if selected == 0 then None else Some(selected))
    else if !Valid(t, candidates, order[0]) then Scan(t, candidates, order[1..], selected)
    else if selected != 0 then None
    else Scan(t, candidates, order[1..], order[0])
  }

  method SelectYear(t: Tables, candidates: Years, order: seq<u32>) returns (r: Option<Target>)
    requires Visits(order, candidates)
    ensures var s := Scan(t, candidates, order, 0);
            (r.Some? <==> s.Some?) &&
            (s.Some? ==> Valid(t, candidates, s.value) && r.value == TargetOf(t, candidates, s.value))
  {
    var selectedYear: u32, selectedGroup: u32 := 0, 0;
    assert order[0..] == order;
    for i := 0 to |order|
      invariant Scan(t, candidates, order, 0) == Scan(t, candidates, order[i..], selectedYear)
      invariant selectedYear != 0 ==> Valid(t, candidates, selectedYear) && candidates[selectedYear] == selectedGroup
    {
      assert order[i..][1..] == order[i + 1..];
      var year := order[i];
      assert year in order;
      var group := candidates[year];
      if group == 0 { continue; }
      if (group, year) !in t.letterOf || t.letterOf[(group, year)] == 0 { continue; }
      if selectedYear != 0 { return None; }
      selectedYear, selectedGroup := year, group;
    }
    if selectedYear == 0 { return None; }
    return Some(Target(selectedYear, selectedGroup, t.letterOf[(selectedGroup, selectedYear)]));
  }

  lemma {:induction false} ScanHolding(t: Tables, candidates: Years, order: seq<u32>, selected: u32)
    requires selected != 0
    ensures Scan(t, candidates, order, selected) ==
            if exists y :: y in order && Valid(t, candidates, y) then None else Some(selected)
    decreases |order|
  {
    if |order| > 0 {
      assert order == [order[0]] + order[1..];
      ScanHolding(t, candidates, order[1..], selected);
    }
  }

  /** Without a valid year 0 the scan finds the one valid year, if there is just one. */
  lemma {:induction false} ScanIs(t: Tables, candidates: Years, order: seq<u32>, y: u32)
    requires Distinct(order) && !Valid(t, candidates, 0)
    ensures Scan(t, candidates, order, 0) == Some(y) <==>
            y in order && Valid(t, candidates, y) && forall z :: z in order && Valid(t, candidates, z) ==> z == y
    decreases |order|
  {
    if |order| > 0 {
      var rest := order[1..];
      assert order == [order[0]] + rest;
      assert order[0] !in rest;
      if Valid(t, candidates, order[0]) {
        ScanHolding(t, candidates, rest, order[0]);
      } else {
        ScanIs(t, candidates, rest, y);
      }
    }
  }

  ghost predicate OnlyValid(t: Tables, candidates: Years, y: u32) {
    Valid(t, candidates, y) && forall z: u32 :: Valid(t, candidates, z) ==> z == y
  }

  /** Year 0 is valid and so is exactly one other year. */
  ghost predicate Clash(t: Tables, candidates: Years, y: u32) {
    y != 0 && Valid(t, candidates, 0) && Valid(t, candidates, y) &&
    forall z: u32 :: Valid(t, candidates, z) ==> z == y || z == 0
  }

  ghost predicate OrderFree(t: Tables, candidates: Years) {
    forall o, p :: Visits(o, candidates) && Visits(p, candidates) ==>
      Scan(t, candidates, o, 0) == Scan(t, candidates, p, 0)
  }

  /** With two valid years other than 0, or none, every order ends without a year. */
  lemma {:induction false} ScanFails(t: Tables, candidates: Years, order: seq<u32>)
    requires Distinct(order)
    requires forall y :: y in order && y != 0 && Valid(t, candidates, y) ==>
               exists z :: z in order && z != 0 && z != y && Valid(t, candidates, z)
    ensures Scan(t, candidates, order, 0) == None
    decreases |order|
  {
    if |order| > 0 {
      var first, rest := order[0], order[1..];
      assert order == [first] + rest;
      if first != 0 && Valid(t, candidates, first) {
        ScanHolding(t, candidates, rest, first);
      } else {
        ScanFails(t, candidates, rest);
      }
    }
  }

  /** In the remaining family one order finds the year and another fails. */
  lemma ClashMatters(t: Tables, candidates: Years, y: u32)
    requires Clash(t, candidates, y)
    ensures !OrderFree(t, candidates)
  {
    hide Scan, Visits;
    var rest := SomeOrder(candidates.Keys - {0, y});
    VisitsPair(candidates, rest, 0, y);
    VisitsPair(candidates, rest, y, 0);
    ScanPair(t, candidates, rest, 0, y);
    ScanPair(t, candidates, rest, y, 0);
    hide Valid;
    ScanHolding(t, candidates, rest, y);
  }

  lemma ScanPair(t: Tables, candidates: Years, rest: seq<u32>, x: u32, y: u32)
    requires Valid(t, candidates, x) && Valid(t, candidates, y)
    ensures Scan(t, candidates, [x, y] + rest, 0) == if x == 0 then Scan(t, candidates, rest, y) else None
  {
    var order := [x, y] + rest;
    assert order[1..] == [y] + rest && order[1..][1..] == rest;
    assert Scan(t, candidates, order, 0) == Scan(t, candidates, order[1..], x);
  }

  lemma VisitsPair(candidates: Years, rest: seq<u32>, x: u32, y: u32)
    requires x != y && x in candidates && y in candidates
    requires Distinct(rest) && forall z: u32 :: z in rest <==> z in candidates.Keys - {x, y}
    ensures Visits([x, y] + rest, candidates)
  {
    assert forall z: u32 :: z in [x, y] + rest <==> z == x || z == y || z in rest;
  }

  /**
   The chosen year does not depend on the visiting order except in one family: a valid
   year 0 beside exactly one other valid year.
   */
  lemma OrderFreeIff(t: Tables, candidates: Years)
    ensures OrderFree(t, candidates) <==> !exists y: u32 :: Clash(t, candidates, y)
  {
    if y: u32 :| Clash(t, candidates, y) {
      ClashMatters(t, candidates, y);
    } else {
      forall o, p | Visits(o, candidates) && Visits(p, candidates)
        ensures Scan(t, candidates, o, 0) == Scan(t, candidates, p, 0)
      {
        SameScan(t, candidates, o, p);
      }
    }
  }

  lemma SameScan(t: Tables, candidates: Years, o: seq<u32>, p: seq<u32>)
    requires Visits(o, candidates) && Visits(p, candidates)
    requires !exists y: u32 :: Clash(t, candidates, y)
    ensures Scan(t, candidates, o, 0) == Scan(t, candidates, p, 0)
  {
    if y: u32 :| y != 0 && OnlyValid(t, candidates, y) {
      ScanIs(t, candidates, o, y);
      ScanIs(t, candidates, p, y);
    } else {
      forall y: u32 | y != 0 && Valid(t, candidates, y)
        ensures exists z: u32 :: z in candidates && z != 0 && z != y && Valid(t, candidates, z)
      {
        assert !OnlyValid(t, candidates, y) && !Clash(t, candidates, y);
      }
      ScanFails(t, candidates, o);
      ScanFails(t, candidates, p);
    }
  }

  // ---------- The whole resolver ----------

  /** The candidate years of a request: one key's, or those all keys of the item amount to. */
  ghost function Candidates(index: Index, item: u32, group: u32): Years {
    if group > 0 then YearsAt(index, item, group) else Merged(index, KeysOf(index, item))
  }

  /** A candidate other than 0 is what every key of the item that has the year says. */
  lemma CandidateAgrees(index: Index, item: u32, y: u32, v: u32)
    requires v != 0
    ensures var c := Candidates(index, item, 0);
            y in c && c[y] == v <==>
            && (exists k :: k in KeysOf(index, item) && y in index[k])
            && (forall k :: k in KeysOf(index, item) && y in index[k] ==> index[k][y] == v)
  {
    var s := KeysOf(index, item);
    var named := Named(index, s, y);
    InMerged(index, s, y);
    assert forall k :: k in s && y in index[k] ==> index[k][y] in named;
    if exists k :: k in s && y in index[k] {
      if forall k :: k in s && y in index[k] ==> index[k][y] == v { assert named == {v}; }
    }
  }

  method CopyYears(years: Years) returns (r: Years)
    ensures r == years
  {
    r := map[];
    var todo := years.Keys;
    while todo != {}
      invariant todo <= years.Keys && r.Keys == years.Keys - todo
      invariant forall y :: y in r ==> r[y] == years[y]
    {
      var year: u32 :| year in todo;
      todo := todo - {year};
      r := r[year := years[year]];
    }
  }

  /** Any order Go's map iteration may take. */
  method AnyOrder(candidates: Years) returns (order: seq<u32>)
    ensures Visits(order, candidates)
  {
    order := [];
    var todo := candidates.Keys;
    while todo != {}
      invariant todo <= candidates.Keys
      invariant Distinct(order)
      invariant forall y: u32 :: y in order <==> y in candidates && y !in todo
    {
      var year: u32 :| year in todo;
      todo := todo - {year};
      order := order + [year];
    }
  }

  /** `resolveLoveLetterRepairTarget`: one answer, whatever the map orders, unless year 0 is valid. */
  method Resolve(t: Tables, item: u32, group: u32, year: u32) returns (r: Option<Target>)
    ensures var candidates := Candidates(t.yearsOf, item, group);
            && (r.Some? ==>
                  var y, g := r.value.year, r.value.group;
                  && y in candidates && g == candidates[y] && g != 0
                  && (g, y) in t.letterOf && t.letterOf[(g, y)] == r.value.letter && r.value.letter != 0)
            && (year > 0 ==>
                  && (r.Some? ==> r.value.year == year)
                  && (r.Some? <==> year in candidates && candidates[year] != 0 &&
                                   (candidates[year], year) in t.letterOf && t.letterOf[(candidates[year], year)] != 0))
            && (year == 0 && !Valid(t, candidates, 0) ==>
                  && (r.Some? ==> OnlyValid(t, candidates, r.value.year))
                  && (forall y: u32 :: OnlyValid(t, candidates, y) ==> r == Some(TargetOf(t, candidates, y))))
  {
    var found: Years;
    if group > 0 {
      found := CopyYears(YearsAt(t.yearsOf, item, group));
    } else {
      found := MergeCandidates(t.yearsOf, item);
    }
    if |found| == 0 { return None; }
    if year > 0 {
      if year !in found || found[year] == 0 { return None; }
      var key := (found[year], year);
      if key !in t.letterOf || t.letterOf[key] == 0 { return None; }
      return Some(Target(year, found[year], t.letterOf[key]));
    }
    var order := AnyOrder(found);
    r := SelectYear(t, found, order);
    if !Valid(t, found, 0) {
      forall y: u32
        ensures Scan(t, found, order, 0) == Some(y) <==> OnlyValid(t, found, y)
      {
        ScanIs(t, found, order, y);
      }
    }
  }

  /** On given loaded tables the scan's order does not matter: year 0 is never a candidate. */
  lemma LoadedIsOrderFree(t: Tables, item: u32, group: u32)
    requires Sound(t)
    ensures 0 !in Candidates(t.yearsOf, item, group)
    ensures OrderFree(t, Candidates(t.yearsOf, item, group))
  {
    if group == 0 {
      var s := KeysOf(t.yearsOf, item);
      assert Named(t.yearsOf, s, 0) == {};
      InMerged(t.yearsOf, s, 0);
    }
    OrderFreeIff(t, Candidates(t.yearsOf, item, group));
  }

  /**
   An instance: of two related ships whose letters share an item and a year, the row
   visited last decides which letter the item is repaired into.
   */
  lemma LaterRowWins(year: u32, t: Tables, u: Tables)
    requires year != 0
    requires Sound(t) && forall slot :: SlotAt(t, slot) == Loaded(Rows(year), map[200 := [100]], [], slot)
    requires Sound(u) && forall slot :: SlotAt(u, slot) == Loaded(Reversed(year), map[200 := [100]], [], slot)
    ensures Reorders(Reversed(year), Rows(year)) && Conflict(Rows(year), map[200 := [100]])
    ensures var c, d := Candidates(t.yearsOf, 5, 100), Candidates(u.yearsOf, 5, 100);
            && Valid(t, c, year) && TargetOf(t, c, year) == Target(year, 200, 2)
            && Valid(u, d, year) && TargetOf(u, d, year) == Target(year, 100, 1)
  {
    var related: map<u32, seq<u32>> := map[200 := [100]];
    var own, other := Rows(year)[0], Rows(year)[1];
    assert GroupsOf(own, related) == [100] && GroupsOf(other, related) == [200, 100];
    var slot := Entry((5, 100), year);
    assert Fills(own, related, slot) && Fills(other, related, slot);
    assert Rows(year)[..1] == [own] && Reversed(year)[..1] == [other];
    assert SlotAt(t, slot) == 200 && SlotAt(t, Letter(200, year)) == 2;
    assert SlotAt(u, slot) == 100 && SlotAt(u, Letter(100, year)) == 1;
  }

  function Rows(year: u32): seq<Content> {
    [Content(1, 100, year, [5]), Content(2, 200, year, [5])]
  }

  function Reversed(year: u32): seq<Content> {
    [Rows(year)[1], Rows(year)[0]]
  }
}
