/** Love-letter gifts: converted items raise a group's medal, and taking them back lowers it again. */
module LoveLetter {
  import opened Options
  import opened Word32
  import Division

  datatype Item = Item(itemId: u32, groupId: u32, year: u32)

  /** The character, content and legacy tables, already indexed. */
  datatype Bundle = Bundle(
    expUp: map<u32, u32>,
    yearsOf: map<(u32, u32), map<u32, u32>>,
    letterOf: map<(u32, u32), u32>
  )

  datatype Medal = Medal(exp: u32, level: u32)

  type Medals = map<u32, Medal>

  type Counts = map<u32, u32>

  datatype Ledger = Ledger(items: seq<Item>, medals: Medals)

  // ---------- Resolving items ----------

  /** `resolveConvertedItem`: the canonical group of an item that has a letter. */
  function Resolve(item: Item, b: Bundle): Option<u32> {
    if item.itemId == 0 || item.groupId == 0 || item.year == 0 then None
    else if (item.itemId, item.groupId) !in b.yearsOf then None
    else
      var years := b.yearsOf[(item.itemId, item.groupId)];
      if item.year !in years then None
      else if (years[item.year], item.year) !in b.letterOf || b.letterOf[(years[item.year], item.year)] == 0 then None
      else Some(years[item.year])
  }

  function Groups(items: seq<Item>, b: Bundle): (r: seq<u32>)
    ensures |r| <= |items|
    decreases |items|
  {
    if |items| == 0 then []
    else
      var init, last := Groups(items[..|items| - 1], b), Resolve(items[|items| - 1], b);
      if last.None? then init else init + [last.value]
  }

  predicate AllResolve(items: seq<Item>, b: Bundle) {
    forall i :: 0 <= i < |items| ==> Resolve(items[i], b).Some?
  }

  function Occurs(s: seq<u32>, g: u32): (n: nat)
    ensures n <= |s|
    ensures n > 0 <==> g in s
    decreases |s|
  {
    if |s| == 0 then 0
    else
      assert s == s[..|s| - 1] + [s[|s| - 1]];
      Occurs(s[..|s| - 1], g) + if s[|s| - 1] == g then 1 else 0
  }

  /** How many of the items count for group `g`. */
  function Tally(items: seq<Item>, b: Bundle, g: u32): nat {
    Occurs(Groups(items, b), g)
  }

  method ResolveStrict(items: seq<Item>, b: Bundle) returns (r: Option<seq<u32>>)
    ensures r == if AllResolve(items, b) then Some(Groups(items, b)) else None
  {
    var groups: seq<u32> := [];
    for i := 0 to |items|
      invariant groups == Groups(items[..i], b)
      invariant forall j :: 0 <= j < i ==> Resolve(items[j], b).Some?
    {
      assert items[..i + 1][..i] == items[..i];
      var group := Resolve(items[i], b);
      if group.None? { return None; }
      groups := groups + [group.value];
    }
    assert items[..|items|] == items;
    return Some(groups);
  }

  method ResolveLenient(items: seq<Item>, b: Bundle) returns (groups: seq<u32>)
    ensures groups == Groups(items, b)
  {
    groups := [];
    for i := 0 to |items|
      invariant groups == Groups(items[..i], b)
    {
      assert items[..i + 1][..i] == items[..i];
      var group := Resolve(items[i], b);
      if group.Some? { groups := groups + [group.value]; }
    }
    assert items[..|items|] == items;
  }

  function CountAt(counts: Counts, g: u32): u32 {
    if g in counts then counts[g] else 0
  }

  /** `convertedCountByGroup`. */
  method CountByGroup(groups: seq<u32>) returns (counts: Counts)
    requires |groups| < WORD
    ensures forall g: u32 :: g in counts <==> g in groups
    ensures forall g: u32 :: CountAt(counts, g) == Occurs(groups, g)
  {
    counts := map[];
    for i := 0 to |groups|
      invariant forall g: u32 :: g in counts <==> g in groups[..i]
      invariant forall g: u32 :: CountAt(counts, g) == Occurs(groups[..i], g)
    {
      assert groups[..i + 1] == groups[..i] + [groups[i]];
      assert groups[..i + 1][..i] == groups[..i];
      counts := counts[groups[i] := CountAt(counts, groups[i]) + 1];
    }
    assert groups[..|groups|] == groups;
  }

  // ---------- Medals ----------

  predicate Gives(b: Bundle, g: u32) {
    g in b.expUp && b.expUp[g] != 0
  }

  /** A group without a medal stands at nothing. */
  function Value(medals: Medals, g: u32): Medal {
    if g in medals then medals[g] else Medal(0, 0)
  }

  function Saturating(a: u32, b: u32): u32 {
    if a > b then a - b else 0
  }

  /** A medal after its group's count goes from `was` up or down to `now`. */
  function Moved(m: Medal, was: u32, now: u32, up: u32): Medal {
    if now > was then Medal(Add(m.exp, Mul(now - was, up)), Add(m.level, now - was))
    else Medal(Saturating(m.exp, Mul(was - now, up)), Saturating(m.level, was - now))
  }

  ghost predicate Refused(l: Ledger, items: seq<Item>, b: Bundle) {
    || !AllResolve(items, b)
    || exists g: u32 :: Tally(items, b, g) != Tally(l.items, b, g) && !Gives(b, g)
  }

  /** The medal of `g` when its count was `was` and is `now`. */
  function Turned(medals: Medals, b: Bundle, g: u32, was: u32, now: u32): Medal {
    if was == now || !Gives(b, g) then Value(medals, g) else Moved(Value(medals, g), was, now, b.expUp[g])
  }

  ghost function MovedAt(l: Ledger, items: seq<Item>, b: Bundle, g: u32): Medal
    requires |items| < WORD && |l.items| < WORD
  {
    Turned(l.medals, b, g, Tally(l.items, b, g), Tally(items, b, g))
  }

  /** The ledger once `items` replace the converted items; a medal appears only with a first item. */
  ghost function Realized(l: Ledger, items: seq<Item>, b: Bundle): Option<Ledger>
    requires |items| < WORD && |l.items| < WORD
  {
    if Refused(l, items, b) then None
    else
      var grown := set g | g in Groups(items, b) && Tally(items, b, g) != Tally(l.items, b, g);
      Some(Ledger(items, map g | g in l.medals.Keys + grown :: MovedAt(l, items, b, g)))
  }

  ghost function Levelled(l: Ledger, g: u32, b: Bundle): Option<Ledger> {
    if !Gives(b, g) then None
    else
      var m := Value(l.medals, g);
      if m.exp < Mul(Add(m.level, 1), b.expUp[g]) then None
      else Some(Ledger(l.items, l.medals[g := Medal(m.exp, m.exp / b.expUp[g])]))
  }

  /** The groups whose medal the new items bring into being or change. */
  ghost function Touched(was: Counts, now: Counts): set<u32> {
    set g | g in now && now[g] != CountAt(was, g)
  }

  /** The first loop of `LoveLetterRealizeGift`: the groups of the new items, in any order. */
  method ApplyNew(medals: Medals, was: Counts, now: Counts, b: Bundle) returns (r: Option<Medals>)
    ensures r.Some? <==> forall g :: g in Touched(was, now) ==> Gives(b, g)
    ensures r.Some? ==> r.value.Keys == medals.Keys + Touched(was, now)
    ensures r.Some? ==> forall g :: g in r.value ==>
              r.value[g] == if g in now then Turned(medals, b, g, CountAt(was, g), now[g]) else medals[g]
  {
    hide Moved;
    var copy := medals;
    var todo := now.Keys;
    while todo != {}
      invariant todo <= now.Keys
      invariant forall g :: g in Touched(was, now) && g !in todo ==> Gives(b, g)
      invariant copy.Keys == medals.Keys + (Touched(was, now) - todo)
      invariant forall g :: g in copy ==>
                  copy[g] == if g in now && g !in todo then Turned(medals, b, g, CountAt(was, g), now[g]) else medals[g]
    {
      var group: u32 :| group in todo;
      todo := todo - {group};
      if now[group] == CountAt(was, group) { continue; }
      if !Gives(b, group) {
        assert group in Touched(was, now);
        return None;
      }
      copy := copy[group := Moved(Value(copy, group), CountAt(was, group), now[group], b.expUp[group])];
    }
    return Some(copy);
  }

  ghost function Gone(was: Counts, now: Counts): set<u32> {
    set g | g in was && g !in now
  }

  /** The second loop: the groups that lost every item. */
  method ApplyGone(medals: Medals, was: Counts, now: Counts, b: Bundle) returns (r: Option<Medals>)
    requires forall g :: g in was ==> was[g] > 0
    ensures r.Some? <==> forall g :: g in Gone(was, now) ==> Gives(b, g)
    ensures r.Some? ==> r.value.Keys == medals.Keys
    ensures r.Some? ==> forall g :: g in r.value ==>
              r.value[g] == if g in Gone(was, now) then Turned(medals, b, g, was[g], 0) else medals[g]
  {
    hide Moved;
    var copy := medals;
    var todo := was.Keys;
    while todo != {}
      invariant todo <= was.Keys
      invariant forall g :: g in Gone(was, now) && g !in todo ==> Gives(b, g)
      invariant copy.Keys == medals.Keys
      invariant forall g :: g in copy ==>
                  copy[g] == if g in Gone(was, now) && g !in todo then Turned(medals, b, g, was[g], 0) else medals[g]
    {
      var group: u32 :| group in todo;
      todo := todo - {group};
      if group in now { continue; }
      if !Gives(b, group) {
        assert group in Gone(was, now);
        return None;
      }
      if group !in copy { continue; }
      copy := copy[group := Moved(copy[group], was[group], 0, b.expUp[group])];
    }
    return Some(copy);
  }

  /** What the two loops leave is the realized ledger. */
  lemma RealizedBy(l: Ledger, gift: seq<Item>, b: Bundle, was: Counts, now: Counts, grown: Medals, settled: Medals)
    requires |gift| < WORD && |l.items| < WORD && AllResolve(gift, b)
    requires forall g: u32 :: (g in was <==> g in Groups(l.items, b)) && CountAt(was, g) == Tally(l.items, b, g)
    requires forall g: u32 :: (g in now <==> g in Groups(gift, b)) && CountAt(now, g) == Tally(gift, b, g)
    requires forall g :: g in Touched(was, now) + Gone(was, now) ==> Gives(b, g)
    requires grown.Keys == l.medals.Keys + Touched(was, now) == settled.Keys
    requires forall g :: g in grown ==>
               grown[g] == if g in now then Turned(l.medals, b, g, CountAt(was, g), now[g]) else l.medals[g]
    requires forall g :: g in settled ==>
               settled[g] == if g in Gone(was, now) then Turned(grown, b, g, was[g], 0) else grown[g]
    ensures Realized(l, gift, b) == Some(Ledger(gift, settled))
  {
    hide Groups, Occurs, Moved;
    forall g: u32 | Tally(gift, b, g) != Tally(l.items, b, g)
      ensures Gives(b, g)
    {
      assert g in Touched(was, now) || g in Gone(was, now);
    }
    assert !Refused(l, gift, b);
    var want := Realized(l, gift, b).value.medals;
    assert Touched(was, now) == set g | g in Groups(gift, b) && Tally(gift, b, g) != Tally(l.items, b, g);
    assert want.Keys == settled.Keys;
    forall g | g in settled
      ensures settled[g] == MovedAt(l, gift, b, g)
    {
      if g in Gone(was, now) {
        assert g !in Touched(was, now) && g in l.medals && grown[g] == l.medals[g];
      } else if g !in now {
        assert CountAt(was, g) == 0 && CountAt(now, g) == 0;
      }
    }
    assert settled == want;
  }

  /** The stored love-letter row, as far as gifts go. */
  class LoveLetterState {
    var items: seq<Item>
    var medals: Medals

    ghost function View(): Ledger
      reads this
    {
      Ledger(items, medals)
    }

    /** `LoveLetterRealizeGift`: both loops work on a copy of the medals, in any group order. */
    method RealizeGift(gift: seq<Item>, b: Bundle) returns (ok: bool)
      requires |gift| < WORD && |items| < WORD
      modifies this
      ensures ok <==> Realized(old(View()), gift, b).Some?
      ensures View() == if ok then Realized(old(View()), gift, b).value else old(View())
    {
      hide Groups, Occurs, Moved;
      var resolvedNew := ResolveStrict(gift, b);
      if resolvedNew.None? { return false; }
      var resolvedOld := ResolveLenient(items, b);
      var oldCounts := CountByGroup(resolvedOld);
      var newCounts := CountByGroup(resolvedNew.value);
      ghost var l := View();
      var grown := ApplyNew(medals, oldCounts, newCounts, b);
      if grown.None? {
        ghost var g :| g in Touched(oldCounts, newCounts) && !Gives(b, g);
        assert Tally(gift, b, g) != Tally(items, b, g);
        return false;
      }
      assert forall g :: g in oldCounts ==> CountAt(oldCounts, g) > 0;
      var settled := ApplyGone(grown.value, oldCounts, newCounts, b);
      if settled.None? {
        ghost var g :| g in Gone(oldCounts, newCounts) && !Gives(b, g);
        assert Tally(gift, b, g) != Tally(items, b, g);
        return false;
      }
      RealizedBy(l, gift, b, oldCounts, newCounts, grown.value, settled.value);
      items, medals := gift, settled.value;
      return true;
    }

    /** `LoveLetterLevelUp`. */
    method LevelUp(group: u32, b: Bundle) returns (ok: bool)
      modifies this
      ensures ok <==> Levelled(old(View()), group, b).Some?
      ensures View() == if ok then Levelled(old(View()), group, b).value else old(View())
    {
      if !Gives(b, group) { return false; }
      var medal := Value(medals, group);
      var threshold := Mul(Add(medal.level, 1), b.expUp[group]);
      if medal.exp < threshold { return false; }
      Division.DivBounds(medal.exp, b.expUp[group]);
      medals := medals[group := Medal(medal.exp, medal.exp / b.expUp[group])];
      return true;
    }
  }
}
