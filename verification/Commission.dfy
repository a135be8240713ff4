/** Commissions: ships are sent out, give up, come back, and may be sent on by themselves. */
module Commission {
  import opened Word32

  datatype Template = Template(
    id: u32, collectTime: u32, shipNum: u32, shipLv: u32, shipType: seq<u32>,
    oil: u32, dropOilMax: u32, dropGoldMax: u32, overTime: u32, maxTeam: u32
  )

  datatype ShipInfo = ShipInfo(level: u32, kind: u32)

  type Roster = map<u32, ShipInfo>

  datatype Row = Row(startTime: u32, finishTime: u32, ships: seq<u32>)

  type Rows = map<u32, Row>

  datatype Store = Store(rows: Rows, oil: nat)

  /** What a handler reads besides the stored rows: the tables, the ships, the gold, the clock. */
  datatype World = World(byKey: map<u32, Template>, all: seq<Template>, roster: Roster, gold: nat, now: u32)

  // ---------- Which commissions are out ----------

  predicate Out(rows: Rows, id: u32) {
    id in rows && rows[id].finishTime > 0
  }

  function Active(rows: Rows): set<u32> {
    set id | id in rows && Out(rows, id)
  }

  ghost predicate Busy(rows: Rows, ship: u32) {
    exists id :: id in rows && Out(rows, id) && ship in rows[id].ships
  }

  method BusyShips(rows: Rows) returns (busy: set<u32>)
    ensures forall ship: u32 :: ship in busy <==> Busy(rows, ship)
  {
    busy := {};
    var todo := Active(rows);
    while todo != {}
      invariant todo <= Active(rows)
      invariant forall ship: u32 :: ship in busy <==>
                  exists id :: id in rows && Out(rows, id) && id !in todo && ship in rows[id].ships
    {
      var id: u32 :| id in todo;
      var ships := rows[id].ships;
      ghost var before := busy;
      for i := 0 to |ships|
        invariant forall ship: u32 :: ship in busy <==> ship in before || ship in ships[..i]
      {
        busy := busy + {ships[i]};
      }
      assert ships[..|ships|] == ships;
      todo := todo - {id};
    }
  }

  // ---------- Requirements ----------

  predicate LevelMet(t: Template, ships: seq<u32>, roster: Roster) {
    t.shipLv == 0 || exists i :: 0 <= i < |ships| && ships[i] in roster && roster[ships[i]].level >= t.shipLv
  }

  predicate KindsMet(t: Template, ships: seq<u32>, roster: Roster) {
    |t.shipType| == 0 || forall i :: 0 <= i < |ships| ==> ships[i] in roster && roster[ships[i]].kind in t.shipType
  }

  predicate Owned(ships: seq<u32>, roster: Roster) {
    forall i :: 0 <= i < |ships| ==> ships[i] in roster
  }

  predicate Expired(t: Template, now: u32) {
    t.overTime > 0 && now >= t.overTime
  }

  /** The wallet has reached what the rewards may fill it up to. */
  predicate Full(t: Template, oil: nat, gold: nat) {
    (t.dropGoldMax > 0 && gold >= t.dropGoldMax) || (t.dropOilMax > 0 && oil >= t.dropOilMax)
  }

  predicate TeamFull(t: Template, rows: Rows) {
    t.maxTeam > 0 && |Active(rows)| >= t.maxTeam
  }

  // ---------- The three requests on values ----------

  ghost predicate CanStart(s: Store, w: World, id: u32, ships: seq<u32>) {
    && id != 0 && id in w.byKey && |ships| > 0
    && var t := w.byKey[id];
       && (t.shipNum > 0 ==> |ships| == t.shipNum)
       && Owned(ships, w.roster) && LevelMet(t, ships, w.roster) && KindsMet(t, ships, w.roster)
       && t.oil <= s.oil && !Full(t, s.oil, w.gold) && !Expired(t, w.now) && !TeamFull(t, s.rows)
       && !Out(s.rows, id)
       && (forall i :: 0 <= i < |ships| ==> !Busy(s.rows, ships[i]))
  }

  function Sent(t: Template, ships: seq<u32>, now: u32): Row {
    Row(now, Add(now, t.collectTime), ships)
  }

  function Started(s: Store, w: World, id: u32, ships: seq<u32>): Store
    requires id in w.byKey && w.byKey[id].oil <= s.oil
  {
    Store(s.rows[id := Sent(w.byKey[id], ships, w.now)], s.oil - w.byKey[id].oil)
  }

  /** The oil is taken before the row is saved. */
  function OilTaken(s: Store, w: World, id: u32): Store
    requires id in w.byKey && w.byKey[id].oil <= s.oil
  {
    s.(oil := s.oil - w.byKey[id].oil)
  }

  predicate CanGiveUp(s: Store, w: World, id: u32) {
    id != 0 && !(id in w.byKey && Expired(w.byKey[id], w.now)) && Out(s.rows, id) && w.now < s.rows[id].finishTime
  }

  function GivenUp(s: Store, id: u32): Store {
    s.(rows := s.rows[id := Row(0, 0, [])])
  }

  predicate CanFinish(s: Store, w: World, id: u32) {
    && id != 0 && id in w.byKey
    && var t := w.byKey[id];
       && !Expired(t, w.now) && !Full(t, s.oil, w.gold)
       && Out(s.rows, id) && s.rows[id].finishTime <= w.now
       && var ships := s.rows[id].ships;
          |ships| > 0 && (t.shipNum > 0 ==> |ships| == t.shipNum) && Owned(ships, w.roster)
  }

  /** A template the returning ships may be sent on to. */
  predicate Eligible(t: Template, rows: Rows, w: World, ships: seq<u32>, finished: u32) {
    && t.id != 0 && t.id != finished && !Expired(t, w.now)
    && (t.shipNum > 0 ==> |ships| == t.shipNum)
    && LevelMet(t, ships, w.roster) && KindsMet(t, ships, w.roster)
    && !TeamFull(t, rows) && t.id !in rows
  }

  function Candidates(all: seq<Template>, rows: Rows, w: World, ships: seq<u32>, finished: u32): (r: seq<Template>)
    ensures forall i :: 0 <= i < |r| ==> Eligible(r[i], rows, w, ships, finished)
    ensures |r| == 0 <==> forall i :: 0 <= i < |all| ==> !Eligible(all[i], rows, w, ships, finished)
    decreases |all|
  {
    if |all| == 0 then []
    else
      var last := all[|all| - 1];
      var init := Candidates(all[..|all| - 1], rows, w, ships, finished);
      if Eligible(last, rows, w, ships, finished) then init + [last] else init
  }

  /** The random draw among `n` candidates; `pick` is whatever the generator gives. */
  function Draw(pick: nat, n: nat): (r: nat)
    requires n > 0
    ensures r < n
  {
    if pick < n then pick else 0
  }

  function Spawned(rows: Rows, w: World, ships: seq<u32>, finished: u32, pick: nat): Rows {
    var candidates := Candidates(w.all, rows, w, ships, finished);
    if |candidates| == 0 then rows
    else
      var t := candidates[Draw(pick, |candidates|)];
      rows[t.id := Sent(t, ships, w.now)]
  }

  /** The row is deleted first; the ships, `grown` by their experience, may leave again at once. */
  function Finished(s: Store, w: World, id: u32, grown: Roster, pick: nat): Store
    requires id in s.rows
  {
    s.(rows := Spawned(s.rows - {id}, w.(roster := grown), s.rows[id].ships, id, pick))
  }

  /** The row is gone even when paying out fails afterwards. */
  function RowDeleted(s: Store, id: u32): Store {
    s.(rows := s.rows - {id})
  }

  /** How paying out goes: the drop table may not be readable, or a payment may break off. */
  datatype Payment = Unreadable | Breaks | Pays

  /** An accepted finish: nothing has changed yet when the drop table turns out unreadable. */
  function Paid(s: Store, w: World, id: u32, grown: Roster, pick: nat, payment: Payment): Store
    requires id in s.rows
  {
    match payment
    case Unreadable => s
    case Breaks => RowDeleted(s, id)
    case Pays => Finished(s, w, id, grown, pick)
  }

  // ---------- The handlers ----------

  class CommissionStore {
    var rows: Rows
    var oil: nat

    function View(): Store
      reads this
    {
      Store(rows, oil)
    }

    method ShipsFit(t: Template, ships: seq<u32>, roster: Roster) returns (ok: bool)
      ensures ok <==> Owned(ships, roster) && LevelMet(t, ships, roster) && KindsMet(t, ships, roster)
    {
      var hasLevelRequirement := t.shipLv > 0;
      var meetsLevelRequirement := false;
      for i := 0 to |ships|
        invariant forall j :: 0 <= j < i ==> ships[j] in roster
        invariant meetsLevelRequirement <==>
                    t.shipLv > 0 && exists j :: 0 <= j < i && roster[ships[j]].level >= t.shipLv
        invariant |t.shipType| > 0 ==> forall j :: 0 <= j < i ==> roster[ships[j]].kind in t.shipType
      {
        if ships[i] !in roster { return false; }
        if hasLevelRequirement && roster[ships[i]].level >= t.shipLv { meetsLevelRequirement := true; }
        if |t.shipType| > 0 && roster[ships[i]].kind !in t.shipType { return false; }
      }
      return !hasLevelRequirement || meetsLevelRequirement;
    }

    /** `EventCollectionStart`, which is no transaction; `saved` says whether the row could be saved. */
    method Start(w: World, id: u32, ships: seq<u32>, saved: bool) returns (ok: bool)
      modifies this
      ensures ok <==> CanStart(old(View()), w, id, ships) && saved
      ensures View() == if !CanStart(old(View()), w, id, ships) then old(View())
                        else if saved then Started(old(View()), w, id, ships)
                        else OilTaken(old(View()), w, id)
    {
      hide Out, LevelMet, KindsMet, Owned, Busy;
      if id == 0 || id !in w.byKey { return false; }
      var t := w.byKey[id];
      if |ships| == 0 { return false; }
      if t.shipNum > 0 && |ships| != t.shipNum { return false; }
      var fit := ShipsFit(t, ships, w.roster);
      if !fit { return false; }
      if t.oil > 0 && oil < t.oil { return false; }
      if t.dropGoldMax > 0 && w.gold >= t.dropGoldMax { return false; }
      if t.dropOilMax > 0 && oil >= t.dropOilMax { return false; }
      if t.overTime > 0 && w.now >= t.overTime { return false; }
      if t.maxTeam > 0 && |Active(rows)| >= t.maxTeam { return false; }
      if Out(rows, id) { return false; }
      var busy := BusyShips(rows);
      for i := 0 to |ships|
        invariant forall j :: 0 <= j < i ==> !Busy(rows, ships[j])
      {
        if ships[i] in busy { return false; }
      }
      if t.oil > 0 { oil := oil - t.oil; }
      if !saved { return false; }
      rows := rows[id := Row(w.now, Add(w.now, t.collectTime), ships)];
      return true;
    }

    /** `EventGiveUp`. */
    method GiveUp(w: World, id: u32) returns (ok: bool)
      modifies `rows
      ensures ok <==> CanGiveUp(old(View()), w, id)
      ensures View() == if ok then GivenUp(old(View()), id) else old(View())
    {
      if id == 0 { return false; }
      if id in w.byKey && Expired(w.byKey[id], w.now) { return false; }
      if id !in rows { return false; }
      if rows[id].finishTime == 0 || w.now >= rows[id].finishTime { return false; }
      rows := rows[id := Row(0, 0, [])];
      return true;
    }

    /**
     `EventFinish`, which is no transaction: the drops are read, the commission's row goes,
     the ships and the commander are paid, and the ships may be sent on.
     */
    method Finish(w: World, id: u32, grown: Roster, pick: nat, payment: Payment) returns (ok: bool)
      modifies `rows
      ensures ok <==> CanFinish(old(View()), w, id) && payment == Pays
      ensures View() == if CanFinish(old(View()), w, id) then Paid(old(View()), w, id, grown, pick, payment)
                        else old(View())
    {
      if id == 0 || id !in w.byKey { return false; }
      var t := w.byKey[id];
      if t.overTime > 0 && w.now >= t.overTime { return false; }
      if t.dropGoldMax > 0 && w.gold >= t.dropGoldMax { return false; }
      if t.dropOilMax > 0 && oil >= t.dropOilMax { return false; }
      if id !in rows { return false; }
      if rows[id].finishTime == 0 || w.now < rows[id].finishTime { return false; }
      var ships := rows[id].ships;
      if |ships| == 0 { return false; }
      if t.shipNum > 0 && |ships| != t.shipNum { return false; }
      for i := 0 to |ships|
        invariant forall j :: 0 <= j < i ==> ships[j] in w.roster
      {
        if ships[i] !in w.roster { return false; }
      }
      if payment == Unreadable { return false; }
      rows := rows - {id};
      if payment == Breaks { return false; }
      SpawnNext(w.(roster := grown), ships, id, pick);
      return true;
    }

    /** `spawnNextEventCollection`. */
    method SpawnNext(w: World, ships: seq<u32>, finished: u32, pick: nat)
      modifies `rows
      ensures rows == Spawned(old(rows), w, ships, finished, pick)
    {
      hide LevelMet, KindsMet, Active;
      var candidates: seq<Template> := [];
      for i := 0 to |w.all|
        invariant candidates == Candidates(w.all[..i], rows, w, ships, finished)
      {
        assert w.all[..i + 1][..i] == w.all[..i];
        var t := w.all[i];
        if t.id == 0 || t.id == finished { continue; }
        if t.overTime > 0 && w.now >= t.overTime { continue; }
        if t.shipNum > 0 && |ships| != t.shipNum { continue; }
        if !LevelMet(t, ships, w.roster) { continue; }
        if !KindsMet(t, ships, w.roster) { continue; }
        if t.maxTeam > 0 && |Active(rows)| >= t.maxTeam { continue; }
        if t.id in rows { continue; }
        candidates := candidates + [t];
      }
      assert w.all[..|w.all|] == w.all;
      if |candidates| == 0 { return; }
      var picked := candidates[Draw(pick, |candidates|)];
      var finishTime := w.now;
      if picked.collectTime > 0 { finishTime := Add(w.now, picked.collectTime); }
      rows := rows[picked.id := Row(w.now, finishTime, ships)];
    }
  }

  // ---------- Runs ----------

  /** No ship is on two commissions at once. */
  ghost predicate Apart(rows: Rows) {
    forall a, b, ship :: a in rows && b in rows && a != b && Out(rows, a) && Out(rows, b) && ship in rows[a].ships ==>
      ship !in rows[b].ships
  }

  datatype Request =
    | Start(id: u32, ships: seq<u32>, saved: bool)
    | GiveUp(id: u32)
    | Finish(id: u32, grown: Roster, pick: nat, payment: Payment)

  ghost function Next(s: Store, w: World, r: Request): Store {
    match r
    case Start(id, ships, saved) =>
      if !CanStart(s, w, id, ships) then s
      else if saved then Started(s, w, id, ships) else OilTaken(s, w, id)
    case GiveUp(id) => if CanGiveUp(s, w, id) then GivenUp(s, id) else s
    case Finish(id, grown, pick, payment) =>
      if CanFinish(s, w, id) then Paid(s, w, id, grown, pick, payment) else s
  }

  ghost function Run(s: Store, steps: seq<(World, Request)>): Store
    decreases |steps|
  {
    if |steps| == 0 then s else Run(Next(s, steps[0].0, steps[0].1), steps[1..])
  }

  /** Sending free ships out keeps commissions apart. */
  lemma SendingKeepsApart(rows: Rows, id: u32, row: Row)
    requires Apart(rows) && !Out(rows, id)
    requires forall i :: 0 <= i < |row.ships| ==> !Busy(rows, row.ships[i])
    ensures Apart(rows[id := row])
  {
    var next := rows[id := row];
    forall a, b, ship | a in next && b in next && a != b && Out(next, a) && Out(next, b) && ship in next[a].ships
      ensures ship !in next[b].ships
    {
      assert b != id ==> Out(rows, b);
      assert a != id ==> Out(rows, a);
    }
  }

  lemma RemovingKeepsApart(rows: Rows, id: u32)
    requires Apart(rows) && Out(rows, id)
    ensures Apart(rows - {id}) && Apart(rows[id := Row(0, 0, [])])
    ensures forall i :: 0 <= i < |rows[id].ships| ==> !Busy(rows - {id}, rows[id].ships[i])
  {
    forall i | 0 <= i < |rows[id].ships|
      ensures !Busy(rows - {id}, rows[id].ships[i])
    {
      assert forall b :: b in rows && b != id && Out(rows - {id}, b) ==> Out(rows, b);
    }
    assert forall b :: b in rows && b != id ==> (Out(rows - {id}, b) <==> Out(rows, b));
    assert forall b :: b in rows && b != id ==> (Out(rows[id := Row(0, 0, [])], b) <==> Out(rows, b));
  }

  lemma NextKeepsApart(s: Store, w: World, r: Request)
    requires Apart(s.rows)
    ensures Apart(Next(s, w, r).rows)
  {
    hide LevelMet, KindsMet, Owned, Expired, Full, TeamFull, Apart, Busy;
    match r {
      case Start(id, ships, saved) =>
        if CanStart(s, w, id, ships) { SendingKeepsApart(s.rows, id, Sent(w.byKey[id], ships, w.now)); }
      case GiveUp(id) =>
        if CanGiveUp(s, w, id) { RemovingKeepsApart(s.rows, id); }
      case Finish(id, grown, pick, payment) =>
        if CanFinish(s, w, id) {
          RemovingKeepsApart(s.rows, id);
          var ships, rest := s.rows[id].ships, s.rows - {id};
          var candidates := Candidates(w.all, rest, w.(roster := grown), ships, id);
          if |candidates| > 0 {
            var t := candidates[Draw(pick, |candidates|)];
            SendingKeepsApart(rest, t.id, Sent(t, ships, w.now));
          }
        }
    }
  }

  /** Over any run, under any tables, fleets and clocks, no ship is on two commissions at once. */
  lemma {:induction false} RunKeepsApart(s: Store, steps: seq<(World, Request)>)
    requires Apart(s.rows)
    ensures Apart(Run(s, steps).rows)
    decreases |steps|
  {
    hide Apart, Next;
    if |steps| > 0 {
      NextKeepsApart(s, steps[0].0, steps[0].1);
      RunKeepsApart(Next(s, steps[0].0, steps[0].1), steps[1..]);
    }
  }

  // ---------- Team limits ----------

  lemma SendingCounts(rows: Rows, id: u32, row: Row)
    requires !Out(rows, id)
    ensures |Active(rows[id := row])| == |Active(rows)| + if row.finishTime > 0 then 1 else 0
  {
    var next := rows[id := row];
    forall b: u32 | b != id ensures Out(next, b) <==> Out(rows, b) { }
    if row.finishTime > 0 {
      assert Active(next) == Active(rows) + {id};
    } else {
      assert Active(next) == Active(rows);
    }
  }

  lemma RemovingCounts(rows: Rows, id: u32)
    requires Out(rows, id)
    ensures |Active(rows - {id})| == |Active(rows)| - 1
    ensures |Active(rows[id := Row(0, 0, [])])| == |Active(rows)| - 1
  {
    forall b: u32 | b != id
      ensures Out(rows - {id}, b) <==> Out(rows, b)
      ensures Out(rows[id := Row(0, 0, [])], b) <==> Out(rows, b)
    {
    }
    assert Active(rows) == Active(rows - {id}) + {id};
    assert Active(rows) == Active(rows[id := Row(0, 0, [])]) + {id};
  }

  /** Every commission of the tables limits the teams to at most `m`. */
  ghost predicate LimitedTo(w: World, m: nat) {
    && (forall id :: id in w.byKey ==> 0 < w.byKey[id].maxTeam <= m)
    && AllLimited(w.all, m)
  }

  ghost predicate AllLimited(all: seq<Template>, m: nat) {
    forall t :: t in all ==> 0 < t.maxTeam <= m
  }

  lemma {:induction false} CandidatesLimited(all: seq<Template>, rows: Rows, w: World, ships: seq<u32>,
                                   finished: u32, m: nat)
    requires AllLimited(all, m)
    ensures AllLimited(Candidates(all, rows, w, ships, finished), m)
    decreases |all|
  {
    hide Eligible;
    if |all| > 0 { CandidatesLimited(all[..|all| - 1], rows, w, ships, finished, m); }
  }

  lemma NextWithinLimit(s: Store, w: World, r: Request, m: nat)
    requires LimitedTo(w, m) && |Active(s.rows)| <= m
    ensures |Active(Next(s, w, r).rows)| <= m
  {
    hide LevelMet, KindsMet, Owned, Expired, Full, Busy, Active;
    match r {
      case Start(id, ships, saved) =>
        if CanStart(s, w, id, ships) { SendingCounts(s.rows, id, Sent(w.byKey[id], ships, w.now)); }
      case GiveUp(id) =>
        if CanGiveUp(s, w, id) { RemovingCounts(s.rows, id); }
      case Finish(id, grown, pick, payment) =>
        if CanFinish(s, w, id) {
          RemovingCounts(s.rows, id);
          var ships, rest := s.rows[id].ships, s.rows - {id};
          var candidates := Candidates(w.all, rest, w.(roster := grown), ships, id);
          if |candidates| > 0 {
            CandidatesLimited(w.all, rest, w.(roster := grown), ships, id, m);
            var t := candidates[Draw(pick, |candidates|)];
            assert t in candidates;
            SendingCounts(rest, t.id, Sent(t, ships, w.now));
          }
        }
    }
  }

  /** The commissions that are out never exceed the largest team limit of the tables. */
  lemma {:induction false} RunWithinLimit(s: Store, steps: seq<(World, Request)>, m: nat)
    requires |Active(s.rows)| <= m
    requires forall i :: 0 <= i < |steps| ==> LimitedTo(steps[i].0, m)
    ensures |Active(Run(s, steps).rows)| <= m
    decreases |steps|
  {
    hide Active, Next, LimitedTo;
    if |steps| > 0 {
      NextWithinLimit(s, steps[0].0, steps[0].1, m);
      RunWithinLimit(Next(s, steps[0].0, steps[0].1), steps[1..], m);
    }
  }

  /** The request puts a commission out. */
  ghost predicate Sends(s: Store, w: World, r: Request, t: Template) {
    match r
    case Start(id, ships, saved) =>
      CanStart(s, w, id, ships) && saved && t == w.byKey[id] && Add(w.now, t.collectTime) > 0
    case GiveUp(_) => false
    case Finish(id, grown, pick, payment) =>
      CanFinish(s, w, id) && payment == Pays &&
      var candidates := Candidates(w.all, s.rows - {id}, w.(roster := grown), s.rows[id].ships, id);
      |candidates| > 0 && t == candidates[Draw(pick, |candidates|)] && Add(w.now, t.collectTime) > 0
  }

  /** Under a template's limit; a limit of 0 is none. */
  predicate Within(count: nat, limit: u32) {
    limit == 0 || count <= limit
  }

  lemma StartSends(s: Store, w: World, id: u32, ships: seq<u32>)
    requires CanStart(s, w, id, ships)
    ensures var t, after := w.byKey[id], Active(Started(s, w, id, ships).rows);
            if Add(w.now, t.collectTime) > 0 then Within(|after|, t.maxTeam) else |after| == |Active(s.rows)|
  {
    hide LevelMet, KindsMet, Owned, Expired, Full, Busy, Active;
    SendingCounts(s.rows, id, Sent(w.byKey[id], ships, w.now));
  }

  lemma FinishSends(s: Store, w: World, id: u32, grown: Roster, pick: nat)
    requires CanFinish(s, w, id)
    ensures var r, after := Finish(id, grown, pick, Pays), Active(Finished(s, w, id, grown, pick).rows);
            && (forall t :: Sends(s, w, r, t) ==> Within(|after|, t.maxTeam))
            && ((forall t :: !Sends(s, w, r, t)) ==> |after| < |Active(s.rows)|)
  {
    hide LevelMet, KindsMet, Owned, Expired, Full, Busy, Active;
    RemovingCounts(s.rows, id);
    var ships, rest := s.rows[id].ships, s.rows - {id};
    var candidates := Candidates(w.all, rest, w.(roster := grown), ships, id);
    if |candidates| > 0 {
      var t := candidates[Draw(pick, |candidates|)];
      SendingCounts(rest, t.id, Sent(t, ships, w.now));
      assert Add(w.now, t.collectTime) > 0 ==> Sends(s, w, Finish(id, grown, pick, Pays), t);
    }
  }

  /** A commission is sent out only below its own template's team limit, and nothing else adds to the count. */
  lemma SentWithinOwnLimit(s: Store, w: World, r: Request)
    ensures var after := Active(Next(s, w, r).rows);
            && (forall t :: Sends(s, w, r, t) ==> Within(|after|, t.maxTeam))
            && ((forall t :: !Sends(s, w, r, t)) ==> |after| <= |Active(s.rows)|)
  {
    hide CanStart, CanGiveUp, CanFinish, Active, Started, Finished;
    match r {
      case Start(id, ships, saved) =>
        if CanStart(s, w, id, ships) {
          StartSends(s, w, id, ships);
          StartNeedsRow(s, w, id, ships);
          assert saved && Add(w.now, w.byKey[id].collectTime) > 0 ==> Sends(s, w, r, w.byKey[id]);
        }
      case GiveUp(id) =>
        if CanGiveUp(s, w, id) {
          OutToGiveUp(s, w, id);
          RemovingCounts(s.rows, id);
        }
      case Finish(id, grown, pick, payment) =>
        if CanFinish(s, w, id) {
          OutToFinish(s, w, id);
          RemovingCounts(s.rows, id);
          if payment == Pays { FinishSends(s, w, id, grown, pick); }
        }
    }
  }

  lemma StartNeedsRow(s: Store, w: World, id: u32, ships: seq<u32>)
    requires CanStart(s, w, id, ships)
    ensures id in w.byKey && w.byKey[id].oil <= s.oil
  {
  }

  lemma OutToGiveUp(s: Store, w: World, id: u32)
    requires CanGiveUp(s, w, id)
    ensures Out(s.rows, id)
  {
  }

  lemma OutToFinish(s: Store, w: World, id: u32)
    requires CanFinish(s, w, id)
    ensures Out(s.rows, id)
  {
  }

  /** The limit of the template the request sends out, `limit` if it sends none. */
  ghost function LimitAfter(s: Store, w: World, r: Request, limit: u32): u32 {
    if t: Template :| Sends(s, w, r, t) then t.maxTeam else limit
  }

  /** The limit of the template a run sends out last. */
  ghost function LastLimit(s: Store, steps: seq<(World, Request)>, limit: u32): u32
    decreases |steps|
  {
    if |steps| == 0 then limit
    else
      var w, r := steps[0].0, steps[0].1;
      LastLimit(Next(s, w, r), steps[1..], LimitAfter(s, w, r, limit))
  }

  lemma LimitAfterHolds(s: Store, w: World, r: Request, limit: u32)
    requires Within(|Active(s.rows)|, limit)
    ensures Within(|Active(Next(s, w, r).rows)|, LimitAfter(s, w, r, limit))
  {
    hide Active, Next, Sends;
    SentWithinOwnLimit(s, w, r);
  }

  /** The commissions that are out never exceed the limit of the one sent out last. */
  lemma {:induction false} RunWithinLastLimit(s: Store, steps: seq<(World, Request)>, limit: u32)
    requires Within(|Active(s.rows)|, limit)
    ensures Within(|Active(Run(s, steps).rows)|, LastLimit(s, steps, limit))
    decreases |steps|
  {
    hide Active, Next, LimitAfter;
    if |steps| > 0 {
      var w, r := steps[0].0, steps[0].1;
      LimitAfterHolds(s, w, r, limit);
      RunWithinLastLimit(Next(s, w, r), steps[1..], LimitAfter(s, w, r, limit));
    }
  }

  /** A commission that was not out and is out now was sent, under its own id. */
  lemma NewlyOutIsSent(s: Store, w: World, r: Request, id: u32)
    requires !Out(s.rows, id) && Out(Next(s, w, r).rows, id)
    ensures exists t :: Sends(s, w, r, t) &&
              if r.Start? then r.id == id && t == w.byKey[id] else t.id == id && t in w.all
  {
    hide LevelMet, KindsMet, Owned, Expired, Full, Busy, Active, Eligible;
    match r {
      case Start(key, ships, saved) => assert Sends(s, w, r, w.byKey[key]);
      case GiveUp(_) => {}
      case Finish(key, grown, pick, _) => {
        var candidates := Candidates(w.all, s.rows - {key}, w.(roster := grown), s.rows[key].ships, key);
        if |candidates| > 0 {
          var t := candidates[Draw(pick, |candidates|)];
          CandidatesListed(w.all, s.rows - {key}, w.(roster := grown), s.rows[key].ships, key, t);
          assert t.id == id ==> Sends(s, w, r, t);
        }
      }
    }
  }

  lemma {:induction false} CandidatesListed(all: seq<Template>, rows: Rows, w: World, ships: seq<u32>,
                                   finished: u32, t: Template)
    requires t in Candidates(all, rows, w, ships, finished)
    ensures t in all
    decreases |all|
  {
    hide Eligible;
    if |all| > 0 && t in Candidates(all[..|all| - 1], rows, w, ships, finished) {
      CandidatesListed(all[..|all| - 1], rows, w, ships, finished, t);
    }
  }

  // ---------- Giving up and finishing ----------

  /** A commission that is out can be given up or finished, never both: the finish time decides. */
  lemma GiveUpOrFinish(s: Store, w: World, id: u32)
    ensures !(CanGiveUp(s, w, id) && CanFinish(s, w, id))
    ensures id != 0 && id in w.byKey && Out(s.rows, id) && !Expired(w.byKey[id], w.now) ==>
              && (CanGiveUp(s, w, id) <==> w.now < s.rows[id].finishTime)
              && (CanFinish(s, w, id) <==>
                    var t, ships := w.byKey[id], s.rows[id].ships;
                    && !CanGiveUp(s, w, id) && !Full(t, s.oil, w.gold)
                    && |ships| > 0 && (t.shipNum > 0 ==> |ships| == t.shipNum) && Owned(ships, w.roster))
  {
  }

  /** Giving up undoes a start except for the oil: the same ships are free and the same teams are out. */
  lemma GiveUpUndoesStart(s: Store, w: World, later: World, id: u32, ships: seq<u32>)
    requires CanStart(s, w, id, ships) && CanGiveUp(Started(s, w, id, ships), later, id)
    ensures var undone := GivenUp(Started(s, w, id, ships), id);
            && Active(undone.rows) == Active(s.rows)
            && (forall ship: u32 :: Busy(undone.rows, ship) <==> Busy(s.rows, ship))
            && undone.rows.Keys == s.rows.Keys + {id}
            && (forall k :: k in s.rows && k != id ==> undone.rows[k] == s.rows[k])
            && undone.oil == s.oil - w.byKey[id].oil
  {
    var undone := GivenUp(Started(s, w, id, ships), id);
    forall b: u32 ensures Out(undone.rows, b) <==> Out(s.rows, b) { }
    forall ship: u32
      ensures Busy(undone.rows, ship) <==> Busy(s.rows, ship)
    {
      if Busy(s.rows, ship) {
        var b :| b in s.rows && Out(s.rows, b) && ship in s.rows[b].ships;
        assert b in undone.rows && Out(undone.rows, b);
      }
    }
  }
}
