/** What every theme request changes, row by row, and whom a like counter counts. */
module ThemeRows {
  import opened Options
  import opened Word32
  import opened ThemeCounters

  /** The commander's favourites, counted. */
  function FavsOf(b: Board, commander: u32): nat {
    |set r | r in b.favs && r.commander == commander|
  }

  /** A like adds just its row; nothing ever takes one away. */
  lemma LikesChange(b: Board, e: Event, r: Row)
    ensures r in Next(b, e).likes <==> r in b.likes || e == Like(r)
  {
    hide ThemeId;
  }

  /** A collection within 30 adds its row; a cancellation takes the commander's rows of the theme. */
  lemma FavsChange(b: Board, e: Event, r: Row)
    ensures r in Next(b, e).favs <==>
            || (r in b.favs && !(e.Cancel? && e.commander == r.commander && e.theme == r.theme))
            || (e == Collect(r) && FavsOf(b, r.commander) < 30)
  {
    hide ThemeId;
    if e == Collect(r) && r !in b.favs {
      RowAdded(b.favs, r, ("", 0));
      assert RowsOf(b.favs, r.commander) == set x | x in b.favs && x.commander == r.commander;
    }
  }

  /** The request publishes the slot: it is saved, and published or one of fewer than two, under an unused time. */
  predicate Publishes(b: Board, e: Event, slot: Slot) {
    && e.Publish? && e.slot == slot && slot in b.slots
    && (b.slots[slot] > 0 || |set s | s in b.slots && s.0 == slot.0 && b.slots[s] > 0| < 2)
    && (ThemeId(slot), e.now) !in b.versions
  }

  lemma PublishesIff(b: Board, slot: Slot, now: u32)
    ensures Publishes(b, Publish(slot, now), slot) <==> Published(b, slot, now).Some?
  {
    hide ThemeId;
    assert PublishedBy(b.slots, slot.0) == set s | s in b.slots && s.0 == slot.0 && b.slots[s] > 0;
  }

  /** A slot's upload time: set by publishing, cleared by unpublishing, absent once deleted. */
  lemma SlotsChange(b: Board, e: Event, slot: Slot)
    ensures var next := Next(b, e).slots;
            && (slot in next <==> (slot in b.slots && e != Delete(slot)) || e == Save(slot))
            && (slot in next ==>
                  next[slot] == if Publishes(b, e, slot) then e.now
                                else if e == Unpublish(slot) || slot !in b.slots then 0
                                else b.slots[slot])
  {
    hide ThemeId, PublishedBy;
    if e.Publish? { PublishesIff(b, e.slot, e.now); }
  }

  /** The request drops the versions under a theme id. */
  predicate Drops(b: Board, e: Event, theme: string) {
    || (e.Unpublish? && e.slot in b.slots && b.slots[e.slot] > 0 && ThemeId(e.slot) == theme)
    || (e.Delete? && ThemeId(e.slot) == theme)
  }

  /** Versions come by publishing and go with their theme id; counters move by one, with their rows. */
  lemma VersionsChange(b: Board, e: Event, v: Version)
    ensures var next := Next(b, e).versions;
            var isNew := e.Publish? && Publishes(b, e, e.slot) && v == (ThemeId(e.slot), e.now);
            && (v in next <==> isNew || (v in b.versions && !Drops(b, e, v.0)))
            && (isNew ==> next[v] == Counts(0, 0))
            && (v in b.versions && v in next ==>
                  && next[v].likes == b.versions[v].likes +
                       (if e.Like? && e.row !in b.likes && v == (e.row.theme, e.row.time) then 1 else 0)
                  && next[v].favs == b.versions[v].favs +
                       (if e.Collect? && e.row !in b.favs && FavsOf(b, e.row.commander) < 30 &&
                           v == (e.row.theme, e.row.time) then 1 else 0) -
                       (if e.Cancel? && v.0 == e.theme && Row(e.commander, v.0, v.1) in b.favs &&
                           b.versions[v].favs > 0 then 1 else 0))
  {
    hide ThemeId, PublishedBy;
    if e.Publish? { PublishesIff(b, e.slot, e.now); }
    if e.Collect? {
      if e.row !in b.favs { RowAdded(b.favs, e.row, v); }
      assert RowsOf(b.favs, e.row.commander) == set x | x in b.favs && x.commander == e.row.commander;
    }
  }

  /** The likes of a version that a run brought in. */
  ghost function LikedIn(events: seq<Event>, v: Version): set<Row> {
    set i | 0 <= i < |events| && events[i].Like? && VersionOf(events[i].row) == v :: events[i].row
  }

  lemma {:induction false} RunLikes(b: Board, events: seq<Event>, r: Row)
    ensures r in Run(b, events).likes <==> r in b.likes || Like(r) in events
    decreases |events|
  {
    hide Next;
    if |events| > 0 {
      LikesChange(b, events[0], r);
      RunLikes(Next(b, events[0]), events[1..], r);
      assert events == [events[0]] + events[1..];
    }
  }

  /**
   On a board that starts empty and on which publications are fresh, a version's like
   counter is the number of commanders who liked it.
   */
  lemma LikeCounterIs(events: seq<Event>, v: Version)
    requires AllFresh(Board(map[], map[], {}, {}), events)
    requires v in Run(Board(map[], map[], {}, {}), events).versions
    ensures Run(Board(map[], map[], {}, {}), events).versions[v].likes == |LikedIn(events, v)|
    ensures forall r :: r in LikedIn(events, v) ==> (r.theme, r.time) == v
  {
    var empty := Board(map[], map[], {}, {});
    hide Run, AllFresh;
    forall c: u32
      ensures |RowsOf(empty.favs, c)| == 0 && |PublishedBy(empty.slots, c)| == 0
    {
      assert RowsOf(empty.favs, c) == {} && PublishedBy(empty.slots, c) == {};
    }
    RunCounts(empty, events);
    var likes := Run(empty, events).likes;
    forall r: Row
      ensures r in RowsFor(likes, v) <==> r in LikedIn(events, v)
    {
      RunLikes(empty, events, r);
      if Like(r) in events && VersionOf(r) == v {
        var i :| 0 <= i < |events| && events[i] == Like(r);
        assert events[i].row in LikedIn(events, v);
      }
      if r in LikedIn(events, v) {
        var i :| 0 <= i < |events| && events[i].Like? && VersionOf(events[i].row) == v && events[i].row == r;
        assert events[i] == Like(r);
      }
    }
    assert RowsFor(likes, v) == LikedIn(events, v);
  }
}
