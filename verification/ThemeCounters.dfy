/** Published backyard themes: like and favourite counters kept beside the rows they count. */
module ThemeCounters {
  import opened Options
  import opened Word32
  import opened Collections

  const MAX_COLLECTIONS: nat := 30
  const MAX_PUBLISHED: nat := 2

  type Slot = (u32, u32)

  type Version = (string, u32)

  datatype Row = Row(commander: u32, theme: string, time: u32)

  datatype Counts = Counts(likes: nat, favs: nat)

  /** `slots` holds the upload time of every saved template, 0 while it is not published. */
  datatype Board = Board(slots: map<Slot, u32>, versions: map<Version, Counts>, likes: set<Row>, favs: set<Row>)

  // ---------- Theme ids ----------

  function Digit(n: nat): char
    requires n < 10
  {
    ['0', '1', '2', '3', '4', '5', '6', '7', '8', '9'][n]
  }

  function Decimal(n: nat): (s: string)
    ensures |s| > 0
    decreases n
  {
    if n < 10 then [Digit(n)] else Decimal(n / 10) + [Digit(n % 10)]
  }

  /** The client's id: the two numbers one after the other. */
  function ThemeId(slot: Slot): string {
    Decimal(slot.0) + Decimal(slot.1)
  }

  lemma {:induction false} DecimalInjective(a: nat, b: nat)
    requires Decimal(a) == Decimal(b)
    ensures a == b
    decreases a
  {
    var s, t := Decimal(a), Decimal(b);
    assert s[|s| - 1] == Digit(a % 10) && t[|t| - 1] == Digit(b % 10);
    assert a % 10 == b % 10;
    if a >= 10 && b >= 10 {
      assert s[..|s| - 1] == Decimal(a / 10) && t[..|t| - 1] == Decimal(b / 10);
      DecimalInjective(a / 10, b / 10);
    } else {
      assert |s| == 1 <==> a < 10;
      assert |t| == 1 <==> b < 10;
    }
  }

  /** Some digits can pass from the end of one commander's number to the front of the other's slot number. */
  ghost predicate Slides(a: Slot, b: Slot) {
    exists x: string :: SlidesBy(a, b, x)
  }

  ghost predicate SlidesBy(a: Slot, b: Slot, x: string) {
    Decimal(a.1) == x + Decimal(b.1) && Decimal(b.0) == Decimal(a.0) + x
  }

  lemma SlideShares(a: Slot, b: Slot)
    requires Slides(a, b)
    ensures ThemeId(a) == ThemeId(b)
  {
    var x :| SlidesBy(a, b, x);
    assert Decimal(a.0) + (x + Decimal(b.1)) == (Decimal(a.0) + x) + Decimal(b.1);
  }

  lemma SharedSlides(a: Slot, b: Slot)
    requires ThemeId(a) == ThemeId(b) && |Decimal(b.1)| <= |Decimal(a.1)|
    ensures Slides(a, b)
  {
    var id, p, q := ThemeId(a), |Decimal(a.0)|, |Decimal(b.0)|;
    var x := id[p..q];
    assert id[..p] == Decimal(a.0) && id[p..] == Decimal(a.1);
    assert id[..q] == Decimal(b.0) && id[q..] == Decimal(b.1);
    assert id[p..] == x + id[q..] && id[..q] == id[..p] + x;
    assert SlidesBy(a, b, x);
  }

  /** Two slots share an id exactly when digits slide from one number of theirs into the other. */
  lemma ThemeIdsSharedIff(a: Slot, b: Slot)
    ensures ThemeId(a) == ThemeId(b) <==> Slides(a, b) || Slides(b, a)
  {
    if Slides(a, b) { SlideShares(a, b); }
    if Slides(b, a) { SlideShares(b, a); }
    if ThemeId(a) == ThemeId(b) {
      if |Decimal(b.1)| <= |Decimal(a.1)| { SharedSlides(a, b); } else { SharedSlides(b, a); }
    }
  }

  /** Slots whose numbers have equally many digits never share an id. */
  lemma ThemeIdsDiffer(a: Slot, b: Slot)
    requires |Decimal(a.1)| == |Decimal(b.1)|
    ensures ThemeId(a) == ThemeId(b) <==> a == b
  {
    if ThemeId(a) == ThemeId(b) {
      SharedSlides(a, b);
      var x :| SlidesBy(a, b, x);
      assert x == [] && Decimal(a.0) + x == Decimal(a.0) && x + Decimal(b.1) == Decimal(b.1);
      DecimalInjective(a.0, b.0);
      DecimalInjective(a.1, b.1);
    }
  }

  /** Slots 12 and 2 of commanders 1 and 11 share theirs. */
  lemma ThemeIdsCollide()
    ensures ThemeId((1, 12)) == ThemeId((11, 2))
  {
    assert Decimal(12) == ['1'] + Decimal(2) && Decimal(11) == Decimal(1) + ['1'];
    assert SlidesBy((1, 12), (11, 2), ['1']);
    SlideShares((1, 12), (11, 2));
  }

  // ---------- Counting rows ----------

  ghost function RowsFor(rows: set<Row>, v: Version): set<Row> {
    set r | r in rows && r.theme == v.0 && r.time == v.1
  }

  function RowsOf(rows: set<Row>, commander: u32): set<Row> {
    set r | r in rows && r.commander == commander
  }

  function PublishedBy(slots: map<Slot, u32>, commander: u32): set<Slot> {
    set s | s in slots && s.0 == commander && slots[s] > 0
  }

  lemma RowAdded(rows: set<Row>, r: Row, v: Version)
    requires r !in rows
    ensures |RowsFor(rows + {r}, v)| == |RowsFor(rows, v)| + if v == (r.theme, r.time) then 1 else 0
    ensures forall c: u32 :: |RowsOf(rows + {r}, c)| == |RowsOf(rows, c)| + if c == r.commander then 1 else 0
  {
    if v == (r.theme, r.time) {
      assert RowsFor(rows + {r}, v) == RowsFor(rows, v) + {r};
    } else {
      assert RowsFor(rows + {r}, v) == RowsFor(rows, v);
    }
    forall c: u32
      ensures |RowsOf(rows + {r}, c)| == |RowsOf(rows, c)| + if c == r.commander then 1 else 0
    {
      if c == r.commander {
        assert RowsOf(rows + {r}, c) == RowsOf(rows, c) + {r};
      } else {
        assert RowsOf(rows + {r}, c) == RowsOf(rows, c);
      }
    }
  }

  // ---------- The requests on values ----------

  function Bump(versions: map<Version, Counts>, v: Version, likes: nat, favs: nat): map<Version, Counts> {
    if v in versions then versions[v := Counts(versions[v].likes + likes, versions[v].favs + favs)] else versions
  }

  function Liked(b: Board, r: Row): Board {
    if r in b.likes then b
    else b.(likes := b.likes + {r}, versions := Bump(b.versions, (r.theme, r.time), 1, 0))
  }

  /** The row is inserted first and counted; the transaction is rolled back past the limit. */
  function Collected(b: Board, r: Row): Option<Board> {
    if r in b.favs then Some(b)
    else if |RowsOf(b.favs + {r}, r.commander)| > MAX_COLLECTIONS then None
    else Some(b.(favs := b.favs + {r}, versions := Bump(b.versions, (r.theme, r.time), 0, 1)))
  }

  predicate Holds(b: Board, commander: u32, v: Version) {
    Row(commander, v.0, v.1) in b.favs
  }

  function Cancelled(b: Board, commander: u32, theme: string): Board {
    b.(favs := (set r | r in b.favs && !(r.commander == commander && r.theme == theme)),
       versions := (map v | v in b.versions ::
         if v.0 == theme && Holds(b, commander, v) && b.versions[v].favs > 0
         then b.versions[v].(favs := b.versions[v].favs - 1) else b.versions[v]))
  }

  function Published(b: Board, slot: Slot, now: u32): Option<Board> {
    if slot !in b.slots then None
    else if b.slots[slot] == 0 && |PublishedBy(b.slots, slot.0)| >= MAX_PUBLISHED then None
    else if (ThemeId(slot), now) in b.versions then None
    else Some(b.(versions := b.versions[(ThemeId(slot), now) := Counts(0, 0)], slots := b.slots[slot := now]))
  }

  function WithoutTheme(versions: map<Version, Counts>, theme: string): map<Version, Counts> {
    map v | v in versions && v.0 != theme :: versions[v]
  }

  function Unpublished(b: Board, slot: Slot): Option<Board> {
    if slot !in b.slots then None
    else if b.slots[slot] == 0 then Some(b)
    else Some(b.(slots := b.slots[slot := 0], versions := WithoutTheme(b.versions, ThemeId(slot))))
  }

  function Saved(b: Board, slot: Slot): Board {
    if slot in b.slots then b else b.(slots := b.slots[slot := 0])
  }

  function Deleted(b: Board, slot: Slot): Board {
    b.(slots := b.slots - {slot}, versions := WithoutTheme(b.versions, ThemeId(slot)))
  }

  // ---------- The handlers ----------

  class ThemeBoard {
    var slots: map<Slot, u32>
    var versions: map<Version, Counts>
    var likes: set<Row>
    var favs: set<Row>

    function View(): Board
      reads this
    {
      Board(slots, versions, likes, favs)
    }

    /** `LikeTheme`. */
    method LikeTheme(commander: u32, theme: string, time: u32)
      modifies this
      ensures View() == Liked(old(View()), Row(commander, theme, time))
    {
      var row := Row(commander, theme, time);
      if row in likes { return; }
      likes := likes + {row};
      if (theme, time) in versions {
        var was := versions[(theme, time)];
        versions := versions[(theme, time) := was.(likes := was.likes + 1)];
      }
    }

    /** `CollectTheme`. */
    method CollectTheme(commander: u32, theme: string, time: u32) returns (ok: bool)
      modifies this
      ensures ok <==> Collected(old(View()), Row(commander, theme, time)).Some?
      ensures View() == if ok then Collected(old(View()), Row(commander, theme, time)).value else old(View())
    {
      var row := Row(commander, theme, time);
      if row in favs { return true; }
      var before := favs;
      favs := favs + {row};
      if |RowsOf(favs, commander)| > MAX_COLLECTIONS {
        favs := before;
        return false;
      }
      if (theme, time) in versions {
        var was := versions[(theme, time)];
        versions := versions[(theme, time) := was.(favs := was.favs + 1)];
      }
      return true;
    }

    /** `CancelThemeCollection`: the rows go in one statement, the counters one upload time after another. */
    method CancelThemeCollection(commander: u32, theme: string)
      modifies this
      ensures View() == Cancelled(old(View()), commander, theme)
    {
      ghost var was := View();
      var mine := set r | r in favs && r.commander == commander && r.theme == theme;
      favs := favs - mine;
      var todo := mine;
      while todo != {}
        invariant todo <= mine
        invariant versions.Keys == was.versions.Keys
        invariant slots == was.slots && likes == was.likes && favs == was.favs - mine
        invariant forall v: Version :: v in versions ==>
                    versions[v] == if v.0 == theme && Holds(was, commander, v) && Row(commander, v.0, v.1) !in todo &&
                                      was.versions[v].favs > 0
                                   then was.versions[v].(favs := was.versions[v].favs - 1) else was.versions[v]
      {
        var row: Row :| row in todo;
        todo := todo - {row};
        var v := (theme, row.time);
        if v in versions && versions[v].favs > 0 {
          versions := versions[v := versions[v].(favs := versions[v].favs - 1)];
        }
      }
      assert favs == Cancelled(was, commander, theme).favs;
      assert versions == Cancelled(was, commander, theme).versions;
    }

    /** `PublishCustomThemeTemplate`. */
    method Publish(slot: Slot, now: u32) returns (ok: bool)
      modifies this
      ensures ok <==> Published(old(View()), slot, now).Some?
      ensures View() == if ok then Published(old(View()), slot, now).value else old(View())
    {
      if slot !in slots { return false; }
      if slots[slot] == 0 {
        if |PublishedBy(slots, slot.0)| >= MAX_PUBLISHED { return false; }
      }
      var v := (ThemeId(slot), now);
      if v in versions { return false; }
      versions := versions[v := Counts(0, 0)];
      slots := slots[slot := now];
      return true;
    }

    /** `UnpublishCustomThemeTemplate`. */
    method Unpublish(slot: Slot) returns (ok: bool)
      modifies this
      ensures ok <==> Unpublished(old(View()), slot).Some?
      ensures View() == if ok then Unpublished(old(View()), slot).value else old(View())
    {
      if slot !in slots { return false; }
      if slots[slot] == 0 { return true; }
      slots := slots[slot := 0];
      var theme := ThemeId(slot);
      versions := map v | v in versions && v.0 != theme :: versions[v];
      return true;
    }
  }

  // ---------- Runs ----------

  datatype Event =
    | Like(row: Row)
    | Collect(row: Row)
    | Cancel(commander: u32, theme: string)
    | Publish(slot: Slot, now: u32)
    | Unpublish(slot: Slot)
    | Save(slot: Slot)
    | Delete(slot: Slot)

  function Next(b: Board, e: Event): Board {
    match e
    case Like(row) => Liked(b, row)
    case Collect(row) => if Collected(b, row).Some? then Collected(b, row).value else b
    case Cancel(commander, theme) => Cancelled(b, commander, theme)
    case Publish(slot, now) => if Published(b, slot, now).Some? then Published(b, slot, now).value else b
    case Unpublish(slot) => if Unpublished(b, slot).Some? then Unpublished(b, slot).value else b
    case Save(slot) => Saved(b, slot)
    case Delete(slot) => Deleted(b, slot)
  }

  function Run(b: Board, events: seq<Event>): Board
    decreases |events|
  {
    if |events| == 0 then b else Run(Next(b, events[0]), events[1..])
  }

  /** No counter exceeds the rows it stands for. */
  ghost predicate Bounded(b: Board) {
    forall v :: v in b.versions ==>
      b.versions[v].likes <= |RowsFor(b.likes, v)| && b.versions[v].favs <= |RowsFor(b.favs, v)|
  }

  /** Every counter is the number of its rows. */
  ghost predicate Exact(b: Board) {
    forall v :: v in b.versions ==>
      b.versions[v].likes == |RowsFor(b.likes, v)| && b.versions[v].favs == |RowsFor(b.favs, v)|
  }

  ghost predicate WithinLimits(b: Board) {
    forall c: u32 :: |RowsOf(b.favs, c)| <= MAX_COLLECTIONS && |PublishedBy(b.slots, c)| <= MAX_PUBLISHED
  }

  lemma CancelCounts(b: Board, commander: u32, v: Version)
    ensures var after := Cancelled(b, commander, v.0);
            |RowsFor(after.favs, v)| == |RowsFor(b.favs, v)| - if Holds(b, commander, v) then 1 else 0
    ensures forall theme: string :: theme != v.0 ==>
                  RowsFor(Cancelled(b, commander, theme).favs, v) == RowsFor(b.favs, v)
  {
    var after, mine := Cancelled(b, commander, v.0), Row(commander, v.0, v.1);
    if Holds(b, commander, v) {
      assert RowsFor(b.favs, v) == RowsFor(after.favs, v) + {mine};
    } else {
      assert RowsFor(b.favs, v) == RowsFor(after.favs, v);
    }
  }

  /** A publication is fresh when nobody liked or collected its version before it existed. */
  ghost predicate Fresh(b: Board, e: Event) {
    e.Publish? && Published(b, e.slot, e.now).Some? ==>
      RowsFor(b.likes, (ThemeId(e.slot), e.now)) == {} && RowsFor(b.favs, (ThemeId(e.slot), e.now)) == {}
  }

  lemma LikeCounts(b: Board, row: Row)
    requires Bounded(b)
    ensures Bounded(Liked(b, row)) && (Exact(b) ==> Exact(Liked(b, row)))
  {
    if row !in b.likes { forall v: Version { RowAdded(b.likes, row, v); } }
  }

  lemma CollectCounts(b: Board, row: Row)
    requires Bounded(b) && Collected(b, row).Some?
    ensures var next := Collected(b, row).value; Bounded(next) && (Exact(b) ==> Exact(next))
  {
    if row !in b.favs { forall v: Version { RowAdded(b.favs, row, v); } }
  }

  lemma CancelledCounts(b: Board, commander: u32, theme: string)
    requires Bounded(b)
    ensures var next := Cancelled(b, commander, theme); Bounded(next) && (Exact(b) ==> Exact(next))
  {
    var next := Cancelled(b, commander, theme);
    forall v | v in b.versions
      ensures next.versions[v].favs <= |RowsFor(next.favs, v)| && next.versions[v].likes == b.versions[v].likes
      ensures b.versions[v].favs == |RowsFor(b.favs, v)| ==> next.versions[v].favs == |RowsFor(next.favs, v)|
    {
      CancelCounts(b, commander, v);
      if v.0 == theme { assert v == (theme, v.1); }
    }
  }

  lemma PublishCounts(b: Board, slot: Slot, now: u32)
    requires Bounded(b) && Published(b, slot, now).Some?
    ensures var next := Published(b, slot, now).value;
            Bounded(next) && (Exact(b) ==> (Exact(next) <==> Fresh(b, Publish(slot, now))))
  {
    hide ThemeId;
    var next := Published(b, slot, now).value;
    assert next.versions[(ThemeId(slot), now)] == Counts(0, 0);
  }

  lemma NextCounts(b: Board, e: Event)
    requires Bounded(b)
    ensures Bounded(Next(b, e))
    ensures Exact(b) ==> (Exact(Next(b, e)) <==> Fresh(b, e))
  {
    hide ThemeId, Liked, Collected, Cancelled, Published;
    match e {
      case Like(row) => LikeCounts(b, row);
      case Collect(row) => if Collected(b, row).Some? { CollectCounts(b, row); }
      case Cancel(commander, theme) => CancelledCounts(b, commander, theme);
      case Publish(slot, now) => if Published(b, slot, now).Some? { PublishCounts(b, slot, now); }
      case Unpublish(slot) => {}
      case Save(slot) => {}
      case Delete(slot) => {}
    }
  }

  lemma NextWithinLimits(b: Board, e: Event)
    requires WithinLimits(b)
    ensures WithinLimits(Next(b, e))
  {
    hide ThemeId;
    forall c: u32
      ensures |RowsOf(Next(b, e).favs, c)| <= MAX_COLLECTIONS
      ensures |PublishedBy(Next(b, e).slots, c)| <= MAX_PUBLISHED
    {
      assert |RowsOf(b.favs, c)| <= MAX_COLLECTIONS && |PublishedBy(b.slots, c)| <= MAX_PUBLISHED;
      if e.Collect? && e.row !in b.favs { RowAdded(b.favs, e.row, ("", 0)); }
      if e.Cancel? { SubsetSize(RowsOf(Next(b, e).favs, c), RowsOf(b.favs, c)); }
      SlotsWithinLimits(b, e, c);
    }
  }

  lemma SlotsWithinLimits(b: Board, e: Event, c: u32)
    requires |PublishedBy(b.slots, c)| <= MAX_PUBLISHED
    ensures |PublishedBy(Next(b, e).slots, c)| <= MAX_PUBLISHED
  {
    hide ThemeId;
    var was, now := PublishedBy(b.slots, c), PublishedBy(Next(b, e).slots, c);
    if e.Publish? && Published(b, e.slot, e.now).Some? && e.slot.0 == c && b.slots[e.slot] == 0 {
      SubsetSize(now, was + {e.slot});
    } else {
      assert now <= was;
      SubsetSize(now, was);
    }
  }

  ghost predicate AllFresh(b: Board, events: seq<Event>)
    decreases |events|
  {
    |events| > 0 ==> Fresh(b, events[0]) && AllFresh(Next(b, events[0]), events[1..])
  }

  function VersionOf(r: Row): Version {
    (r.theme, r.time)
  }

  /** Likes and collections name a version that is published now; a publication names one never published before. */
  ghost predicate CarefulStep(b: Board, e: Event, ever: set<Version>) {
    && ((e.Like? || e.Collect?) ==> VersionOf(e.row) in b.versions)
    && (e.Publish? && Published(b, e.slot, e.now).Some? ==> (ThemeId(e.slot), e.now) !in ever)
  }

  ghost function EverAfter(b: Board, e: Event, ever: set<Version>): set<Version> {
    if e.Publish? && Published(b, e.slot, e.now).Some? then ever + {(ThemeId(e.slot), e.now)} else ever
  }

  ghost predicate Careful(b: Board, events: seq<Event>, ever: set<Version>)
    decreases |events|
  {
    |events| > 0 ==>
      CarefulStep(b, events[0], ever) && Careful(Next(b, events[0]), events[1..], EverAfter(b, events[0], ever))
  }

  /** Everything on the board is about a version that was published at some time. */
  ghost predicate Tracked(b: Board, ever: set<Version>) {
    && b.versions.Keys <= ever
    && (forall r :: r in b.likes ==> VersionOf(r) in ever)
    && (forall r :: r in b.favs ==> VersionOf(r) in ever)
  }

  lemma TrackedNext(b: Board, e: Event, ever: set<Version>)
    requires Tracked(b, ever) && CarefulStep(b, e, ever)
    ensures Tracked(Next(b, e), EverAfter(b, e, ever)) && Fresh(b, e)
  {
    hide ThemeId, RowsOf, PublishedBy;
  }

  /** Users who act on published versions only, under upload times that are not reused, keep publications fresh. */
  lemma {:induction false} CarefulIsFresh(b: Board, events: seq<Event>, ever: set<Version>)
    requires Tracked(b, ever) && Careful(b, events, ever)
    ensures AllFresh(b, events)
    decreases |events|
  {
    hide Next, Fresh, Tracked, EverAfter, CarefulStep;
    if |events| > 0 {
      TrackedNext(b, events[0], ever);
      CarefulIsFresh(Next(b, events[0]), events[1..], EverAfter(b, events[0], ever));
    }
  }

  /**
   Over any run no counter exceeds its rows and no commander the two limits; exact counters
   stay exact over a run that publishes no version over rows already there.
   */
  lemma {:induction false} RunCounts(b: Board, events: seq<Event>)
    requires Bounded(b) && WithinLimits(b)
    ensures Bounded(Run(b, events)) && WithinLimits(Run(b, events))
    ensures Exact(b) && AllFresh(b, events) ==> Exact(Run(b, events))
    decreases |events|
  {
    hide Bounded, Exact, WithinLimits, Next, Fresh;
    if |events| > 0 {
      NextCounts(b, events[0]);
      NextWithinLimits(b, events[0]);
      RunCounts(Next(b, events[0]), events[1..]);
    }
  }

  /** Unpublishing a slot takes exactly the versions of the slots whose digits slide into it. */
  lemma UnpublishTakes(b: Board, slot: Slot, other: Slot, time: u32)
    requires Unpublished(b, slot).Some? && b.slots[slot] > 0
    requires (ThemeId(other), time) in b.versions
    ensures (ThemeId(other), time) in Unpublished(b, slot).value.versions <==>
            !Slides(slot, other) && !Slides(other, slot)
  {
    ThemeIdsSharedIff(slot, other);
  }

  /** In particular it spares every other slot with equally many digits. */
  lemma UnpublishSparesOthers(b: Board, slot: Slot, other: Slot, time: u32)
    requires Unpublished(b, slot).Some? && b.slots[slot] > 0
    requires (ThemeId(other), time) in b.versions && |Decimal(other.1)| == |Decimal(slot.1)|
    ensures (ThemeId(other), time) in Unpublished(b, slot).value.versions <==> other != slot
  {
    ThemeIdsDiffer(slot, other);
  }

  /** Cancelling right after collecting a version not yet held restores counters and rows. */
  lemma CancelUndoesCollect(b: Board, row: Row)
    requires row !in b.favs && Collected(b, row).Some?
    requires forall r :: r in b.favs && r.commander == row.commander ==> r.theme != row.theme
    ensures Cancelled(Collected(b, row).value, row.commander, row.theme) == b
  {
    var mid := Collected(b, row).value;
    assert mid.favs == b.favs + {row} && mid.versions == Bump(b.versions, (row.theme, row.time), 0, 1);
    hide Collected, RowsOf;
    var after := Cancelled(mid, row.commander, row.theme);
    assert after.favs == b.favs;
    assert after.versions.Keys == b.versions.Keys;
    forall v | v in b.versions
      ensures after.versions[v] == b.versions[v]
    {
      if v == (row.theme, row.time) {
        assert Holds(mid, row.commander, v) && mid.versions[v].favs == b.versions[v].favs + 1;
      } else {
        assert !(v.0 == row.theme && Holds(mid, row.commander, v));
      }
    }
    assert after.versions == b.versions;
  }
}
