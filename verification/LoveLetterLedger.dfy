/** The gift ledger over whole runs: what converted items give is exactly what they take back. */
module LoveLetterLedger {
  import opened Options
  import opened Word32
  import Division
  import opened LoveLetter

  /** A ledger of the size the handlers accept. */
  ghost predicate Small(l: Ledger) {
    |l.items| < WORD
  }

  /** Every group's items are covered by its level, and its level by its experience. */
  ghost predicate Covered(l: Ledger, b: Bundle, g: u32) {
    var m, n := Value(l.medals, g), Tally(l.items, b, g);
    && n <= m.level
    && (Gives(b, g) ==> m.level * b.expUp[g] <= m.exp)
    && (n > 0 ==> Gives(b, g))
  }

  ghost predicate Good(l: Ledger, b: Bundle) {
    Small(l) && forall g: u32 :: Covered(l, b, g)
  }

  /** The experience a group's medal has apart from what its items gave. */
  ghost function OwnExp(l: Ledger, b: Bundle, g: u32): int
    requires Gives(b, g)
  {
    Value(l.medals, g).exp - Tally(l.items, b, g) * b.expUp[g]
  }

  /** The levels a group's medal has apart from what its items gave. */
  ghost function OwnLevel(l: Ledger, b: Bundle, g: u32): int {
    Value(l.medals, g).level - Tally(l.items, b, g)
  }

  // ---------- What counts for a group ----------

  /** The tables turn item, group and year into group `g`, which has a letter of that year. */
  predicate TurnsInto(item: Item, b: Bundle, g: u32) {
    && item.itemId != 0 && item.groupId != 0 && item.year != 0
    && (item.itemId, item.groupId) in b.yearsOf
    && item.year in b.yearsOf[(item.itemId, item.groupId)]
    && b.yearsOf[(item.itemId, item.groupId)][item.year] == g
    && (g, item.year) in b.letterOf && b.letterOf[(g, item.year)] != 0
  }

  ghost function PlacesOf(items: seq<Item>, b: Bundle, g: u32): set<nat> {
    set i: nat | i < |items| && TurnsInto(items[i], b, g)
  }

  /** A group's tally is the number of places in the list that turn into it. */
  lemma {:induction false} TallyIsSize(items: seq<Item>, b: Bundle, g: u32)
    ensures Tally(items, b, g) == |PlacesOf(items, b, g)|
    decreases |items|
  {
    if |items| == 0 {
      assert PlacesOf(items, b, g) == {};
    } else {
      var n := |items| - 1;
      var init, group := items[..n], Resolve(items[n], b);
      TallyIsSize(init, b, g);
      assert group == Some(g) <==> TurnsInto(items[n], b, g);
      if group.Some? {
        assert (Groups(init, b) + [group.value])[..|Groups(init, b)|] == Groups(init, b);
      }
      if group == Some(g) {
        assert PlacesOf(items, b, g) == PlacesOf(init, b, g) + {n};
      } else {
        assert PlacesOf(items, b, g) == PlacesOf(init, b, g);
      }
    }
  }

  // ---------- One medal ----------

  /** The subtraction never saturates, so both directions are the same sum of words. */
  lemma MovedIs(m: Medal, was: u32, now: u32, up: u32)
    requires up > 0 && was <= m.level && m.level * up <= m.exp
    ensures var r := Moved(m, was, now, up);
            && 0 <= m.exp - was * up
            && r == Medal(Wrap(m.exp - was * up + now * up), Wrap(m.level - was + now))
  {
    hide Wrap;
    Division.MulLe(was, m.level, up);
    if now > was {
      var d: u32 := now - was;
      assert d * up == now * up - was * up;
      WrapAdd(m.exp, d * up);
      AddWraps(m.exp, Mul(d, up));
      AddWraps(m.level, d);
    } else {
      var d: u32 := was - now;
      assert d * up == was * up - now * up;
      Division.MulLe(d, m.level, up);
      Division.MulLe(0, d, up);
      assert 0 <= d * up <= m.exp;
      WrapSmall(d * up);
      WrapSmall(m.exp - d * up);
      WrapSmall(m.level - d);
    }
  }

  // ---------- One request ----------

  ghost predicate Acceptable(items: seq<Item>, b: Bundle) {
    AllResolve(items, b) && forall g: u32 :: Tally(items, b, g) > 0 ==> Gives(b, g)
  }

  /** Whether a gift is accepted depends on the gift alone. */
  lemma AcceptedIff(l: Ledger, items: seq<Item>, b: Bundle)
    requires Good(l, b)
    requires |items| < WORD
    ensures Realized(l, items, b).Some? <==> Acceptable(items, b)
  {
    hide Tally;
    if AllResolve(items, b) {
      if Acceptable(items, b) {
        forall g: u32 | !Gives(b, g)
          ensures Tally(items, b, g) == Tally(l.items, b, g)
        {
          assert Covered(l, b, g);
        }
      } else {
        var g: u32 :| Tally(items, b, g) > 0 && !Gives(b, g);
        assert Covered(l, b, g);
      }
    }
  }

  /** After an accepted gift every medal is its own part plus what the new items give. */
  lemma RealizedValue(l: Ledger, items: seq<Item>, b: Bundle, g: u32)
    requires Good(l, b) && |items| < WORD && Realized(l, items, b).Some?
    ensures Gives(b, g) ==>
              Value(Realized(l, items, b).value.medals, g) ==
              Medal(Wrap(OwnExp(l, b, g) + Tally(items, b, g) * b.expUp[g]),
                    Wrap(OwnLevel(l, b, g) + Tally(items, b, g)))
    ensures !Gives(b, g) ==> Value(Realized(l, items, b).value.medals, g) == Value(l.medals, g)
  {
    hide Moved, Wrap;
    assert Covered(l, b, g);
    var m := Value(l.medals, g);
    var was: u32, now: u32 := Tally(l.items, b, g), Tally(items, b, g);
    assert now > 0 ==> g in Groups(items, b);
    hide Tally;
    if Gives(b, g) {
      var up := b.expUp[g];
      MovedIs(m, was, now, up);
      if was == now {
        WrapSmall(m.exp);
        WrapSmall(m.level);
      }
    }
  }

  /** The items' contribution still fits the two counters of every medal. */
  ghost predicate Fits(l: Ledger, items: seq<Item>, b: Bundle) {
    forall g: u32 :: Gives(b, g) ==> FitsAt(l, items, b, g)
  }

  ghost predicate FitsAt(l: Ledger, items: seq<Item>, b: Bundle, g: u32)
    requires Gives(b, g)
  {
    && OwnExp(l, b, g) + Tally(items, b, g) * b.expUp[g] < WORD
    && OwnLevel(l, b, g) + Tally(items, b, g) < WORD
  }

  ghost predicate SameOwn(l: Ledger, t: Ledger, b: Bundle, g: u32) {
    OwnLevel(t, b, g) == OwnLevel(l, b, g) && (Gives(b, g) ==> OwnExp(t, b, g) == OwnExp(l, b, g))
  }

  lemma RealizedItems(l: Ledger, items: seq<Item>, b: Bundle)
    requires Small(l) && |items| < WORD && Realized(l, items, b).Some?
    ensures Realized(l, items, b).value.items == items
  {
  }

  lemma OwnKeptAt(l: Ledger, items: seq<Item>, b: Bundle, g: u32)
    requires Good(l, b) && |items| < WORD && Realized(l, items, b).Some?
    ensures var t := Realized(l, items, b).value;
            && (Gives(b, g) ==> (FitsAt(l, items, b, g) <==> SameOwn(l, t, b, g)))
            && (!Gives(b, g) ==> SameOwn(l, t, b, g))
            && (SameOwn(l, t, b, g) ==> Covered(t, b, g))
  {
    hide Tally, Realized, Wrap;
    RealizedValue(l, items, b, g);
    AcceptedIff(l, items, b);
    assert Covered(l, b, g);
    var t := Realized(l, items, b).value;
    RealizedItems(l, items, b);
    var was, now := Tally(l.items, b, g), Tally(items, b, g);
    if Gives(b, g) {
      var up, m := b.expUp[g], Value(l.medals, g);
      if FitsAt(l, items, b, g) {
        Division.MulLe(was, m.level, up);
        Division.MulLe(0, now, up);
        WrapSmall(OwnExp(l, b, g) + now * up);
        WrapSmall(OwnLevel(l, b, g) + now);
        assert (m.level - was + now) * up == m.level * up - was * up + now * up;
      }
    }
  }

  /**
   An accepted gift leaves every group's own experience and own levels as they were
   exactly when the new totals fit 32 bits; the ledger then stays covered.
   */
  lemma GiftKeepsOwn(l: Ledger, items: seq<Item>, b: Bundle)
    requires Good(l, b) && |items| < WORD && Realized(l, items, b).Some?
    ensures var t := Realized(l, items, b).value;
            && t.items == items
            && (Fits(l, items, b) <==> forall g: u32 :: SameOwn(l, t, b, g))
            && (Fits(l, items, b) ==> Good(t, b))
  {
    hide Realized, SameOwn, FitsAt, Covered;
    RealizedItems(l, items, b);
    forall g: u32
      ensures Gives(b, g) ==> (FitsAt(l, items, b, g) <==> SameOwn(l, Realized(l, items, b).value, b, g))
      ensures !Gives(b, g) ==> SameOwn(l, Realized(l, items, b).value, b, g)
      ensures SameOwn(l, Realized(l, items, b).value, b, g) ==> Covered(Realized(l, items, b).value, b, g)
    {
      OwnKeptAt(l, items, b, g);
    }
  }

  // ---------- Two requests ----------

  ghost predicate SameValues(l: Ledger, t: Ledger) {
    l.items == t.items && forall g: u32 :: Value(l.medals, g) == Value(t.medals, g)
  }

  /** Giving `a` and then `c` is giving `c`: the same acceptance, the same items, the same medals. */
  lemma LastGiftCounts(l: Ledger, a: seq<Item>, c: seq<Item>, b: Bundle)
    requires Good(l, b) && |a| < WORD && |c| < WORD
    requires Realized(l, a, b).Some? && Fits(l, a, b)
    ensures var mid := Realized(l, a, b).value;
            && Small(mid)
            && (Realized(mid, c, b).Some? <==> Realized(l, c, b).Some?)
            && (Realized(l, c, b).Some? ==> SameValues(Realized(mid, c, b).value, Realized(l, c, b).value))
  {
    hide Realized, Covered;
    GiftKeepsOwn(l, a, b);
    var mid := Realized(l, a, b).value;
    AcceptedIff(l, c, b);
    AcceptedIff(mid, c, b);
    if Realized(l, c, b).Some? {
      RealizedItems(l, c, b);
      RealizedItems(mid, c, b);
      forall g: u32
        ensures Value(Realized(mid, c, b).value.medals, g) == Value(Realized(l, c, b).value.medals, g)
      {
        RealizedValue(l, c, b, g);
        RealizedValue(mid, c, b, g);
        RealizedValue(l, a, b, g);
        assert SameOwn(l, mid, b, g);
      }
    }
  }

  /** Repeating a request changes nothing, medals without value included. */
  lemma GiftTwice(l: Ledger, items: seq<Item>, b: Bundle)
    requires Small(l) && |items| < WORD && Realized(l, items, b).Some?
    ensures Realized(Realized(l, items, b).value, items, b) == Realized(l, items, b)
  {
    hide Tally, Moved;
    var t := Realized(l, items, b).value;
    assert !Refused(t, items, b);
    var again := Realized(t, items, b).value;
    assert again.medals.Keys == t.medals.Keys;
    assert again.medals == t.medals;
  }

  lemma MedalKeys(l: Ledger, items: seq<Item>, b: Bundle, g: u32)
    requires Good(l, b) && |items| < WORD && Realized(l, items, b).Some?
    ensures g in Realized(l, items, b).value.medals <==> g in l.medals || Tally(items, b, g) > 0
  {
    assert Tally(items, b, g) > 0 <==> g in Groups(items, b);
    assert Covered(l, b, g);
  }

  /**
   The stored rows agree as well exactly when every group of the first gift had a medal
   or is given to again: otherwise the gift taken back leaves a medal at nothing.
   */
  lemma LastGiftRowsIff(l: Ledger, a: seq<Item>, c: seq<Item>, b: Bundle)
    requires Good(l, b) && |a| < WORD && |c| < WORD
    requires Realized(l, a, b).Some? && Fits(l, a, b) && Realized(l, c, b).Some?
    ensures var mid := Realized(l, a, b).value;
            && Small(mid)
            && Realized(mid, c, b).Some?
            && (Realized(mid, c, b) == Realized(l, c, b) <==>
                forall g: u32 :: Tally(a, b, g) > 0 ==> g in l.medals || Tally(c, b, g) > 0)
  {
    hide Realized, Covered, Tally;
    LastGiftCounts(l, a, c, b);
    GiftKeepsOwn(l, a, b);
    var mid := Realized(l, a, b).value;
    var via, straight := Realized(mid, c, b).value, Realized(l, c, b).value;
    forall g: u32
      ensures g in via.medals <==> g in l.medals || Tally(a, b, g) > 0 || Tally(c, b, g) > 0
      ensures g in straight.medals <==> g in l.medals || Tally(c, b, g) > 0
    {
      MedalKeys(l, a, b, g);
      MedalKeys(mid, c, b, g);
      MedalKeys(l, c, b, g);
    }
    if forall g: u32 :: Tally(a, b, g) > 0 ==> g in l.medals || Tally(c, b, g) > 0 {
      assert via.medals.Keys == straight.medals.Keys;
      forall g | g in via.medals
        ensures via.medals[g] == straight.medals[g]
      {
        assert Value(via.medals, g) == Value(straight.medals, g);
      }
      assert via.medals == straight.medals;
    }
  }

  // ---------- Levelling up ----------

  /**
   On a covered ledger an accepted level-up moves the level to where the experience
   reaches and touches nothing else. The threshold is computed in 32 bits; where it wraps
   the request is accepted without any effect.
   */
  lemma LevelUpIs(l: Ledger, g: u32, b: Bundle)
    requires Good(l, b) && Levelled(l, g, b).Some?
    ensures var t, up := Levelled(l, g, b).value, b.expUp[g];
            var m, r := Value(l.medals, g), Value(t.medals, g);
            && Good(t, b)
            && t.items == l.items
            && r.exp == m.exp && r.level >= m.level
            && r.level * up <= r.exp < (r.level + 1) * up
            && (r.level > m.level <==> (m.level + 1) * up <= m.exp)
            && (forall k: u32 :: k != g ==> Value(t.medals, k) == Value(l.medals, k))
  {
    hide Tally, Mul;
    var t, up := Levelled(l, g, b).value, b.expUp[g];
    var m, r := Value(l.medals, g), Value(t.medals, g);
    assert Covered(l, b, g);
    Division.DivBounds(m.exp, up);
    assert r.level * up <= r.exp < (r.level + 1) * up;
    if r.level < m.level { Division.MulLe(r.level + 1, m.level, up); }
    if r.level > m.level { Division.MulLe(m.level + 1, r.level, up); }
    if r.level == m.level { assert (m.level + 1) * up > m.exp; }
    forall k: u32
      ensures Covered(t, b, k)
    {
      assert Covered(l, b, k);
    }
  }

  /** A level-up is granted exactly where the experience reaches the next level's total, taken as a word. */
  lemma LevelUpAcceptedIff(l: Ledger, g: u32, b: Bundle)
    ensures Levelled(l, g, b).Some? <==>
            && g in b.expUp && b.expUp[g] > 0
            && (Value(l.medals, g).level + 1) % WORD * b.expUp[g] % WORD <= Value(l.medals, g).exp
  {
    hide Mul, Add;
    if g in b.expUp { ThresholdIs(Value(l.medals, g).level, b.expUp[g]); }
  }

  lemma ThresholdIs(level: u32, up: u32)
    ensures Mul(Add(level, 1), up) == (level + 1) % WORD * up % WORD
  {
    assert Add(level, 1) == (level + 1) % WORD;
  }

  /** A level that is due is always granted. */
  lemma DueLevelIsGranted(l: Ledger, g: u32, b: Bundle)
    requires Good(l, b) && Gives(b, g)
    requires (Value(l.medals, g).level + 1) * b.expUp[g] <= Value(l.medals, g).exp
    ensures Levelled(l, g, b).Some?
  {
    var m, up := Value(l.medals, g), b.expUp[g];
    if m.level + 1 < WORD {
      WrapSmall((m.level + 1) * up);
    } else {
      Division.MulLe(1, up, WORD);
    }
  }

  // ---------- Runs ----------

  datatype Event = Gift(items: seq<Item>) | LevelUp(group: u32)

  /** A refused request leaves the ledger alone. */
  ghost function Next(l: Ledger, e: Event, b: Bundle): Ledger
    requires Small(l)
  {
    match e
    case Gift(items) =>
      if |items| < WORD && Realized(l, items, b).Some? then Realized(l, items, b).value else l
    case LevelUp(g) => if Levelled(l, g, b).Some? then Levelled(l, g, b).value else l
  }

  ghost predicate Takes(l: Ledger, e: Event, b: Bundle) {
    Small(l) && (e.Gift? ==> |e.items| < WORD && Fits(l, e.items, b)) && Small(Next(l, e, b))
  }

  /** The ledger after a run in which no gift overflows a counter; absent otherwise. */
  ghost function Run(l: Ledger, events: seq<Event>, b: Bundle): Option<Ledger>
    decreases |events|
  {
    if |events| == 0 then Some(l)
    else if !Takes(l, events[0], b) then None
    else Run(Next(l, events[0], b), events[1..], b)
  }

  lemma NextIsGood(l: Ledger, e: Event, b: Bundle)
    requires Good(l, b) && Takes(l, e, b)
    ensures var t := Next(l, e, b);
            && Good(t, b)
            && (forall g: u32 :: Gives(b, g) ==> OwnExp(t, b, g) == OwnExp(l, b, g))
            && (forall g: u32 :: OwnLevel(t, b, g) >= OwnLevel(l, b, g))
  {
    hide Realized, Levelled, Covered, Tally;
    match e {
      case Gift(items) =>
        if Realized(l, items, b).Some? {
          GiftKeepsOwn(l, items, b);
          forall g: u32
            ensures Gives(b, g) ==> OwnExp(Next(l, e, b), b, g) == OwnExp(l, b, g)
            ensures OwnLevel(Next(l, e, b), b, g) >= OwnLevel(l, b, g)
          {
            assert SameOwn(l, Next(l, e, b), b, g);
          }
        }
      case LevelUp(g) =>
        if Levelled(l, g, b).Some? {
          LevelUpIs(l, g, b);
          forall k: u32
            ensures Gives(b, k) ==> OwnExp(Next(l, e, b), b, k) == OwnExp(l, b, k)
            ensures OwnLevel(Next(l, e, b), b, k) >= OwnLevel(l, b, k)
          {
          }
        }
    }
  }

  /**
   Over any run of gifts and level-ups every group stays covered, so no subtraction ever
   saturates, and a medal's experience beyond its items' share never changes.
   */
  lemma {:induction false} RunIsGood(l: Ledger, events: seq<Event>, b: Bundle)
    requires Good(l, b) && Run(l, events, b).Some?
    ensures var t := Run(l, events, b).value;
            && Good(t, b)
            && (forall g: u32 :: Gives(b, g) ==> OwnExp(t, b, g) == OwnExp(l, b, g))
            && (forall g: u32 :: OwnLevel(t, b, g) >= OwnLevel(l, b, g))
    decreases |events|
  {
    hide Next, Takes, OwnExp, OwnLevel, Covered;
    if |events| > 0 {
      NextIsGood(l, events[0], b);
      RunIsGood(Next(l, events[0], b), events[1..], b);
    }
  }

  lemma NewLedgerIsGood(b: Bundle)
    ensures Good(Ledger([], map[]), b)
  {
    forall g: u32
      ensures Covered(Ledger([], map[]), b, g)
    {
      assert Groups([], b) == [];
    }
  }
}
