/** Ship blueprints: one development at a time, with its working time banked across stops. */
module Shipyard {
  import opened Options
  import opened Word32
  import BlueprintExp

  const COOLDOWN: u32 := 86400

  datatype Entry = Entry(shipId: u32, startTime: u32, level: u32, exp: u32, startDuration: u32)

  const FRESH := Entry(0, 0, 0, 0, 0)

  datatype Yard = Yard(blueprints: map<u32, Entry>, coldTime: u32)

  /** The blueprint is being worked on. */
  predicate Live(e: Entry) {
    e.shipId == 0 && e.startTime > 0
  }

  ghost predicate OtherLive(blueprints: map<u32, Entry>, id: u32) {
    exists k :: k in blueprints && k != id && Live(blueprints[k])
  }

  function EntryOf(blueprints: map<u32, Entry>, id: u32): Entry {
    if id in blueprints then blueprints[id] else FRESH
  }

  // ---------- The handlers on values ----------

  /** What a blueprint asks for: its strengthening levels, and the tasks that open and unlock it. */
  datatype Config = Config(levels: u32, openCondition: seq<u32>, unlock: seq<seq<u32>>)

  predicate AllIn(tasks: seq<u32>, satisfied: set<u32>) {
    forall i :: 0 <= i < |tasks| ==> tasks[i] in satisfied
  }

  /** Development may begin once every opening task and the very first unlock task are satisfied. */
  predicate ReadyToStart(cfg: Option<Config>, satisfied: set<u32>) {
    && cfg.Some? && AllIn(cfg.value.openCondition, satisfied)
    && (|cfg.value.unlock| > 0 && |cfg.value.unlock[0]| > 0 ==> cfg.value.unlock[0][0] in satisfied)
  }

  /** A task the blueprint names; id 0 is none. */
  ghost predicate Names(cfg: Config, task: u32) {
    task != 0 && (task in cfg.openCondition || exists g :: 0 <= g < |cfg.unlock| && task in cfg.unlock[g])
  }

  /** The blueprint names tasks, and all of them are satisfied. */
  ghost predicate TasksDone(cfg: Config, satisfied: set<u32>) {
    && (exists task: u32 :: Names(cfg, task))
    && forall task: u32 :: Names(cfg, task) ==> task in satisfied
  }

  /** Begun, and either strengthened to the end or through with its tasks. */
  ghost predicate ReadyToFinish(e: Entry, cfg: Config, satisfied: set<u32>) {
    (e.startTime != 0 || e.startDuration != 0) && (e.level >= cfg.levels || TasksDone(cfg, satisfied))
  }

  /** `StartShipBlueprintDevelopment`; a blueprint without a config is not known. */
  ghost function Started(y: Yard, id: u32, cfg: Option<Config>, satisfied: set<u32>, now: u32): Option<Yard> {
    var e := EntryOf(y.blueprints, id);
    if id == 0 || !ReadyToStart(cfg, satisfied) || y.coldTime > now || OtherLive(y.blueprints, id) then None
    else if e.shipId != 0 || e.startTime > 0 then None
    else
      var since := if e.startDuration > 0 then Sub(now, e.startDuration) else now;
      Some(Yard(y.blueprints[id := e.(startTime := since)], Add(now, COOLDOWN)))
  }

  /** `StopShipBlueprint`. */
  ghost function Stopped(y: Yard, id: u32, cfg: Option<Config>, now: u32): Option<Yard> {
    if id == 0 || cfg.None? || id !in y.blueprints then None
    else
      var e := y.blueprints[id];
      if e.shipId != 0 || (e.startTime == 0 && e.level < cfg.value.levels) then None
      else
        var elapsed := if e.startTime > 0 && now > e.startTime then now - e.startTime else e.startDuration;
        Some(y.(blueprints := y.blueprints[id := e.(startTime := 0, startDuration := elapsed)]))
  }

  /** `ResumeShipBlueprint`. */
  ghost function Resumed(y: Yard, id: u32, now: u32): Option<Yard> {
    if id == 0 || OtherLive(y.blueprints, id) || id !in y.blueprints then None
    else
      var e := y.blueprints[id];
      if e.shipId != 0 || e.startTime > 0 then None
      else Some(y.(blueprints := y.blueprints[id :=
             e.(startTime := if e.startDuration > now then 0 else now - e.startDuration)]))
  }

  function Built(e: Entry, shipId: u32): Entry {
    e.(shipId := shipId, startTime := 0, startDuration := 0)
  }

  /** `FinishShipBlueprint`; the new ship's id is given. */
  ghost function Finished(y: Yard, id: u32, cfg: Option<Config>, satisfied: set<u32>, shipId: u32): Option<Yard> {
    if id == 0 || cfg.None? || id !in y.blueprints then None
    else
      var e := y.blueprints[id];
      if !ReadyToFinish(e, cfg.value, satisfied) || e.shipId != 0 then None
      else Some(y.(blueprints := y.blueprints[id := Built(e, shipId)]))
  }

  /** `ItemUnlockShipBlueprint`; `paid` says the item is allowed and was consumed. */
  ghost function Unlocked(y: Yard, id: u32, paid: bool, shipId: u32): Option<Yard> {
    var e := EntryOf(y.blueprints, id);
    if id == 0 || !paid || e.shipId != 0 then None
    else Some(y.(blueprints := y.blueprints[id := Built(e, shipId)]))
  }

  /** `ModShipBlueprint`: the built ship `shipId` is strengthened to `grown`, if that succeeds and is paid. */
  ghost function Modded(y: Yard, id: u32, shipId: u32, grown: Option<BlueprintExp.State>, paid: bool): Option<Yard> {
    if shipId == 0 || id !in y.blueprints || y.blueprints[id].shipId != shipId || grown.None? || !paid then None
    else Some(y.(blueprints := y.blueprints[id :=
           y.blueprints[id].(level := grown.value.level, exp := grown.value.exp)]))
  }

  ghost function GrownBy(y: Yard, id: u32, cfg: BlueprintExp.Config, strengths: BlueprintExp.Strengths,
                         shipLevel: u32, gain: u32): Option<BlueprintExp.State>
    requires cfg.Total() < WORD
  {
    var e := EntryOf(y.blueprints, id);
    BlueprintExp.Gain(cfg, strengths, shipLevel, BlueprintExp.State(e.level, e.exp), gain)
  }

  // ---------- Tasks ----------

  method AllSatisfied(tasks: seq<u32>, satisfied: set<u32>) returns (ok: bool)
    ensures ok <==> AllIn(tasks, satisfied)
  {
    for i := 0 to |tasks|
      invariant forall j :: 0 <= j < i ==> tasks[j] in satisfied
    {
      if tasks[i] !in satisfied { return false; }
    }
    return true;
  }

  /** Appends the ids of a list that are neither 0 nor already there. */
  method AppendNew(ids: seq<u32>, tasks: seq<u32>) returns (r: seq<u32>)
    ensures forall t: u32 :: t in r <==> t in ids || (t != 0 && t in tasks)
  {
    r := ids;
    for i := 0 to |tasks|
      invariant forall t: u32 :: t in r <==> t in ids || (t != 0 && t in tasks[..i])
    {
      assert tasks[..i + 1] == tasks[..i] + [tasks[i]];
      if tasks[i] == 0 || tasks[i] in r { continue; }
      r := r + [tasks[i]];
    }
    assert tasks[..|tasks|] == tasks;
  }

  method TasksOf(cfg: Config) returns (ids: seq<u32>)
    ensures forall t: u32 :: t in ids <==> Names(cfg, t)
  {
    ids := AppendNew([], cfg.openCondition);
    for g := 0 to |cfg.unlock|
      invariant forall t: u32 :: t in ids <==>
                  t != 0 && (t in cfg.openCondition || exists h :: 0 <= h < g && t in cfg.unlock[h])
    {
      ids := AppendNew(ids, cfg.unlock[g]);
    }
  }

  /** `isShipyardBlueprintReadyToFinishTx`. */
  method IsReadyToFinish(e: Entry, cfg: Config, satisfied: set<u32>) returns (ready: bool)
    ensures ready <==> ReadyToFinish(e, cfg, satisfied)
  {
    if e.startTime == 0 && e.startDuration == 0 { return false; }
    if e.level >= cfg.levels { return true; }
    var ids := TasksOf(cfg);
    if |ids| == 0 { return false; }
    assert Names(cfg, ids[0]);
    ready := AllSatisfied(ids, satisfied);
    assert ready ==> forall t: u32 :: t in ids ==> t in satisfied;
  }

  // ---------- The store ----------

  /** One commander's shipyard rows. */
  class ShipyardStore {
    var blueprints: map<u32, Entry>
    var coldTime: u32

    ghost function View(): Yard
      reads this
    {
      Yard(blueprints, coldTime)
    }

    method FindOtherLive(id: u32) returns (found: bool)
      ensures found <==> OtherLive(blueprints, id)
    {
      var todo := blueprints.Keys;
      while todo != {}
        invariant todo <= blueprints.Keys
        invariant forall k :: k in blueprints && k !in todo && k != id ==> !Live(blueprints[k])
      {
        var k: u32 :| k in todo;
        todo := todo - {k};
        if k != id && Live(blueprints[k]) { return true; }
      }
      return false;
    }

    method Start(id: u32, cfg: Option<Config>, satisfied: set<u32>, now: u32) returns (ok: bool)
      modifies this
      ensures ok <==> Started(old(View()), id, cfg, satisfied, now).Some?
      ensures View() == if ok then Started(old(View()), id, cfg, satisfied, now).value else old(View())
    {
      if id == 0 || cfg.None? { return false; }
      if coldTime > now { return false; }
      var satisfiedAll := AllSatisfied(cfg.value.openCondition, satisfied);
      if !satisfiedAll { return false; }
      if |cfg.value.unlock| > 0 && |cfg.value.unlock[0]| > 0 {
        if cfg.value.unlock[0][0] !in satisfied { return false; }
      }
      var busy := FindOtherLive(id);
      if busy { return false; }
      var entry := EntryOf(blueprints, id);
      if entry.shipId != 0 || entry.startTime > 0 { return false; }
      if entry.startDuration > 0 {
        entry := entry.(startTime := Sub(now, entry.startDuration));
      } else {
        entry := entry.(startTime := now);
      }
      blueprints := blueprints[id := entry];
      coldTime := Add(now, COOLDOWN);
      return true;
    }

    method Stop(id: u32, cfg: Option<Config>, now: u32) returns (ok: bool)
      modifies this
      ensures ok <==> Stopped(old(View()), id, cfg, now).Some?
      ensures View() == if ok then Stopped(old(View()), id, cfg, now).value else old(View())
    {
      if id == 0 || cfg.None? || id !in blueprints { return false; }
      var entry := blueprints[id];
      var finished := entry.level >= cfg.value.levels;
      if entry.shipId != 0 || (entry.startTime == 0 && !finished) { return false; }
      var elapsed := entry.startDuration;
      if entry.startTime > 0 && now > entry.startTime {
        elapsed := now - entry.startTime;
      }
      blueprints := blueprints[id := entry.(startTime := 0, startDuration := elapsed)];
      return true;
    }

    method Resume(id: u32, now: u32) returns (ok: bool)
      modifies this
      ensures ok <==> Resumed(old(View()), id, now).Some?
      ensures View() == if ok then Resumed(old(View()), id, now).value else old(View())
    {
      if id == 0 { return false; }
      var busy := FindOtherLive(id);
      if busy || id !in blueprints { return false; }
      var entry := blueprints[id];
      if entry.shipId != 0 || entry.startTime > 0 { return false; }
      if entry.startDuration > now {
        entry := entry.(startTime := 0);
      } else {
        entry := entry.(startTime := now - entry.startDuration);
      }
      blueprints := blueprints[id := entry];
      return true;
    }

    method Finish(id: u32, cfg: Option<Config>, satisfied: set<u32>, shipId: u32) returns (ok: bool)
      modifies this
      ensures ok <==> Finished(old(View()), id, cfg, satisfied, shipId).Some?
      ensures View() == if ok then Finished(old(View()), id, cfg, satisfied, shipId).value else old(View())
    {
      if id == 0 || cfg.None? || id !in blueprints { return false; }
      var entry := blueprints[id];
      var ready := IsReadyToFinish(entry, cfg.value, satisfied);
      if !ready || entry.shipId != 0 { return false; }
      blueprints := blueprints[id := entry.(shipId := shipId, startTime := 0, startDuration := 0)];
      return true;
    }

    method ItemUnlock(id: u32, paid: bool, shipId: u32) returns (ok: bool)
      modifies this
      ensures ok <==> Unlocked(old(View()), id, paid, shipId).Some?
      ensures View() == if ok then Unlocked(old(View()), id, paid, shipId).value else old(View())
    {
      if id == 0 { return false; }
      var entry := EntryOf(blueprints, id);
      if entry.shipId != 0 || !paid { return false; }
      blueprints := blueprints[id := entry.(shipId := shipId, startTime := 0, startDuration := 0)];
      return true;
    }

    method Mod(id: u32, shipId: u32, cfg: BlueprintExp.Config, strengths: BlueprintExp.Strengths,
               shipLevel: u32, gain: u32, paid: bool) returns (ok: bool)
      requires cfg.Total() < WORD
      modifies this
      ensures var grown := GrownBy(old(View()), id, cfg, strengths, shipLevel, gain);
              && (ok <==> Modded(old(View()), id, shipId, grown, paid).Some?)
              && View() == if ok then Modded(old(View()), id, shipId, grown, paid).value else old(View())
    {
      hide BlueprintExp.Gain;
      if shipId == 0 || id !in blueprints { return false; }
      var entry := blueprints[id];
      if entry.shipId != shipId { return false; }
      var blueprint := new BlueprintExp.Blueprint(entry.level, entry.exp);
      var updated := blueprint.ApplyExpGain(cfg, strengths, shipLevel, gain);
      if !updated || !paid { return false; }
      blueprints := blueprints[id := entry.(level := blueprint.level, exp := blueprint.exp)];
      return true;
    }
  }

  // ---------- Runs ----------

  /** The requests; a new ship's id is never 0. */
  datatype Request =
    | Start(id: u32, cfg: Option<Config>, satisfied: set<u32>)
    | Stop(id: u32, cfg: Option<Config>)
    | Resume(id: u32)
    | Finish(id: u32, cfg: Option<Config>, satisfied: set<u32>, shipId: u32)
    | ItemUnlock(id: u32, paid: bool, shipId: u32)
    | Mod(id: u32, shipId: u32, grown: Option<BlueprintExp.State>, paid: bool)

  ghost predicate Sane(r: Request) {
    (r.Finish? || r.ItemUnlock?) ==> r.shipId != 0
  }

  ghost function Serve(y: Yard, r: Request, now: u32): Option<Yard> {
    match r
    case Start(id, cfg, satisfied) => Started(y, id, cfg, satisfied, now)
    case Stop(id, cfg) => Stopped(y, id, cfg, now)
    case Resume(id) => Resumed(y, id, now)
    case Finish(id, cfg, satisfied, shipId) => Finished(y, id, cfg, satisfied, shipId)
    case ItemUnlock(id, paid, shipId) => Unlocked(y, id, paid, shipId)
    case Mod(id, shipId, grown, paid) => Modded(y, id, shipId, grown, paid)
  }

  /**
   A stopwatch per blueprint that sees only which requests succeeded and when: the
   total of the completed work intervals, and the beginning of the current one.
   */
  datatype Watch = Watch(total: nat, since: Option<u32>)

  type Watches = map<u32, Watch>

  ghost function WatchOf(ws: Watches, id: u32): Watch {
    if id in ws then ws[id] else Watch(0, None)
  }

  ghost function Clocked(w: Watch, now: int): int {
    w.total + if w.since.Some? then now - w.since.value else 0
  }

  /** Start and resume begin an interval, stop ends it. */
  ghost function Observe(ws: Watches, r: Request, now: u32): Watches {
    match r
    case Start(id, _, _) => ws[id := WatchOf(ws, id).(since := Some(now))]
    case Resume(id) => ws[id := WatchOf(ws, id).(since := Some(now))]
    case Stop(id, _) =>
      var t := Clocked(WatchOf(ws, id), now);
      ws[id := Watch(if t >= 0 then t else 0, None)]
    case _ => ws
  }

  datatype Moment = Moment(yard: Yard, watches: Watches, clock: u32, starts: seq<u32>)

  /** One request at a time the clock has not passed; `starts` records the successful starts. */
  ghost function Next(m: Moment, r: Request, now: u32): Moment {
    match Serve(m.yard, r, now)
    case None => m.(clock := now)
    case Some(y) => Moment(y, Observe(m.watches, r, now), now, if r.Start? then m.starts + [now] else m.starts)
  }

  ghost function Run(m: Moment, requests: seq<(Request, u32)>): Moment
    decreases |requests|
  {
    if requests == [] then m else Run(Next(m, requests[0].0, requests[0].1), requests[1..])
  }

  /** The clock never goes back, and a cooldown that ends within the run does not wrap. */
  ghost predicate Monotone(clock: u32, requests: seq<(Request, u32)>)
    decreases |requests|
  {
    requests == [] ||
    (clock <= requests[0].1 < WORD - COOLDOWN && Sane(requests[0].0) && Monotone(requests[0].1, requests[1..]))
  }

  // ---------- The invariant ----------

  ghost predicate OneLive(blueprints: map<u32, Entry>) {
    forall a, b :: a in blueprints && b in blueprints && Live(blueprints[a]) && Live(blueprints[b]) ==> a == b
  }

  /** An unbuilt blueprint's row agrees with its stopwatch. */
  ghost predicate Timed(e: Entry, w: Watch, clock: int) {
    e.shipId == 0 ==>
      && e.startDuration == w.total < clock
      && (match w.since
          case None => e.startTime == 0
          case Some(s) => w.total < s <= clock && e.startTime == s - w.total)
  }

  ghost predicate AllTimed(y: Yard, ws: Watches, clock: int) {
    forall id: u32 :: Timed(EntryOf(y.blueprints, id), WatchOf(ws, id), clock)
  }

  ghost predicate StartsApart(starts: seq<u32>, coldTime: u32) {
    && (forall i :: 0 < i < |starts| ==> starts[i - 1] + COOLDOWN <= starts[i])
    && (starts != [] ==> starts[|starts| - 1] + COOLDOWN <= coldTime)
  }

  ghost predicate Good(m: Moment) {
    && m.clock > 0
    && OneLive(m.yard.blueprints)
    && AllTimed(m.yard, m.watches, m.clock)
    && StartsApart(m.starts, m.yard.coldTime)
  }

  /** Nothing begun, at any positive time. */
  lemma NewYardIsGood(clock: u32, coldTime: u32)
    requires clock > 0
    ensures Good(Moment(Yard(map[], coldTime), map[], clock, []))
  {
  }

  /** Only the row asked about changes. */
  lemma OthersStay(y: Yard, r: Request, now: u32, k: u32)
    requires Serve(y, r, now).Some? && k != r.id
    ensures var z := Serve(y, r, now).value;
            EntryOf(z.blueprints, k) == EntryOf(y.blueprints, k) && (k in z.blueprints <==> k in y.blueprints)
  {
  }

  lemma RowStaysTimed(m: Moment, r: Request, now: u32)
    requires Good(m) && m.clock <= now && Sane(r) && Serve(m.yard, r, now).Some?
    ensures var n := Next(m, r, now); Timed(EntryOf(n.yard.blueprints, r.id), WatchOf(n.watches, r.id), now)
  {
    assert Timed(EntryOf(m.yard.blueprints, r.id), WatchOf(m.watches, r.id), m.clock);
  }

  lemma TimingKept(m: Moment, r: Request, now: u32)
    requires Good(m) && m.clock <= now && Sane(r)
    ensures var n := Next(m, r, now); AllTimed(n.yard, n.watches, now)
  {
    var n := Next(m, r, now);
    forall k: u32
      ensures Timed(EntryOf(n.yard.blueprints, k), WatchOf(n.watches, k), now)
    {
      assert Timed(EntryOf(m.yard.blueprints, k), WatchOf(m.watches, k), m.clock);
      if Serve(m.yard, r, now).Some? {
        if k == r.id { RowStaysTimed(m, r, now); } else { OthersStay(m.yard, r, now, k); }
      }
    }
  }

  /** A row that comes alive does so alone. */
  lemma ComesAliveAlone(y: Yard, r: Request, now: u32)
    requires Serve(y, r, now).Some?
    requires Live(EntryOf(Serve(y, r, now).value.blueprints, r.id)) && !Live(EntryOf(y.blueprints, r.id))
    ensures !OtherLive(y.blueprints, r.id)
  {
  }

  lemma OneLiveKept(y: Yard, r: Request, now: u32)
    requires OneLive(y.blueprints) && Serve(y, r, now).Some?
    ensures OneLive(Serve(y, r, now).value.blueprints)
  {
    hide Serve;
    var z := Serve(y, r, now).value;
    forall a, b | a in z.blueprints && b in z.blueprints && Live(z.blueprints[a]) && Live(z.blueprints[b])
      ensures a == b
    {
      if a != r.id { OthersStay(y, r, now, a); }
      if b != r.id { OthersStay(y, r, now, b); }
      if Live(EntryOf(z.blueprints, r.id)) && !Live(EntryOf(y.blueprints, r.id)) { ComesAliveAlone(y, r, now); }
    }
  }

  lemma NextIsGood(m: Moment, r: Request, now: u32)
    requires Good(m) && m.clock <= now < WORD - COOLDOWN && Sane(r)
    ensures Good(Next(m, r, now))
  {
    TimingKept(m, r, now);
    if Serve(m.yard, r, now).Some? { OneLiveKept(m.yard, r, now); }
  }

  /** The same ship and the same clock; only strengthening may differ. */
  ghost predicate SameShip(a: Entry, b: Entry) {
    b == a.(level := b.level, exp := b.exp)
  }

  /** A ship, once built, stays the blueprint's ship. */
  lemma ShipStays(m: Moment, r: Request, now: u32, id: u32)
    requires EntryOf(m.yard.blueprints, id).shipId != 0
    ensures SameShip(EntryOf(m.yard.blueprints, id), EntryOf(Next(m, r, now).yard.blueprints, id))
    ensures !r.Mod? ==> EntryOf(Next(m, r, now).yard.blueprints, id) == EntryOf(m.yard.blueprints, id)
  {
    if Serve(m.yard, r, now).Some? && id != r.id { OthersStay(m.yard, r, now, id); }
  }

  /** Working time as the rows tell it: live since the shifted start, or banked. */
  function Developed(e: Entry, now: int): int {
    if e.startTime > 0 then now - e.startTime else e.startDuration
  }

  /**
   Over any run under a monotone positive clock: at most one blueprint is in
   development, every unbuilt blueprint's banked or live time is the total length of
   its work intervals, successful starts lie at least a day apart, and no ship is ever
   replaced.
   */
  lemma {:induction false} RunIsSound(m: Moment, requests: seq<(Request, u32)>)
    requires Good(m) && Monotone(m.clock, requests)
    ensures var n := Run(m, requests);
            && OneLive(n.yard.blueprints)
            && (forall id: u32, now: int :: now >= n.clock && EntryOf(n.yard.blueprints, id).shipId == 0 ==>
                  Developed(EntryOf(n.yard.blueprints, id), now) == Clocked(WatchOf(n.watches, id), now))
            && (forall i :: 0 < i < |n.starts| ==> n.starts[i - 1] + COOLDOWN <= n.starts[i])
            && (forall id: u32 :: EntryOf(m.yard.blueprints, id).shipId != 0 ==>
                  SameShip(EntryOf(m.yard.blueprints, id), EntryOf(n.yard.blueprints, id)))
    decreases |requests|
  {
    if requests == [] {
      forall id: u32, now: int | now >= m.clock && EntryOf(m.yard.blueprints, id).shipId == 0
        ensures Developed(EntryOf(m.yard.blueprints, id), now) == Clocked(WatchOf(m.watches, id), now)
      {
        assert Timed(EntryOf(m.yard.blueprints, id), WatchOf(m.watches, id), m.clock);
      }
    } else {
      var next := Next(m, requests[0].0, requests[0].1);
      NextIsGood(m, requests[0].0, requests[0].1);
      RunIsSound(next, requests[1..]);
      forall id: u32 | EntryOf(m.yard.blueprints, id).shipId != 0
        ensures SameShip(EntryOf(m.yard.blueprints, id), EntryOf(next.yard.blueprints, id))
      {
        ShipStays(m, requests[0].0, requests[0].1, id);
      }
    }
  }
}
