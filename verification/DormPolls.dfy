/** When the dorm is polled does not matter: what is granted depends on the latest poll only. */
module DormPolls {
  import opened Division
  import opened Options
  import opened Word32
  import opened Dorm

  ghost function Polled(d: Dorm, tpl: Option<LevelTemplate>, polls: seq<u32>): Dorm {
    if |polls| == 0 then d
    else Ticked(Polled(d, tpl, polls[..|polls| - 1]), tpl, polls[|polls| - 1])
  }

  ghost function Later(a: u32, b: u32): u32 {
    if a > b then a else b
  }

  ghost function Latest(polls: seq<u32>): u32 {
    if |polls| == 0 then 0 else Later(Latest(polls[..|polls| - 1]), polls[|polls| - 1])
  }

  /** Equal in all that ticks grant and consume; only time stamps may differ. */
  ghost predicate SameGrants(a: Dorm, b: Dorm) {
    a.food == b.food && a.loadFood == b.loadFood && a.loadExp == b.loadExp && a.ships == b.ships
  }

  // ---------- The eager simulator ----------

  lemma {:induction false} SimulateKeepsRates(d: Dorm, t: LevelTemplate, now: u32)
    requires t.time > 0
    ensures var e := Simulate(d, t, now);
            && Total(e.ships, Here) == Total(d.ships, Here)
            && Total(e.ships, Training) == Total(d.ships, Training)
            && PerTickFood(e, t) == PerTickFood(d, t) && PerTickExp(e, t) == PerTickExp(d, t)
            && d.updatedAt <= e.updatedAt && !TickDue(e, t, now)
    decreases WORD - d.updatedAt
  {
    if TickDue(d, t, now) {
      StepKeepsRates(d, t);
      SimulateKeepsRates(Step(d, t), t, now);
    }
  }

  /** Simulating up to `m` and on to `now` is simulating up to the later of the two. */
  lemma {:induction false} SimulateInTwo(d: Dorm, t: LevelTemplate, m: u32, now: u32)
    requires t.time > 0
    ensures Simulate(Simulate(d, t, m), t, now) == Simulate(d, t, Later(m, now))
    decreases WORD - d.updatedAt
  {
    if TickDue(d, t, m) {
      SimulateInTwo(Step(d, t), t, m, now);
    }
  }

  /** The simulator looks at nothing but the counters, the roster and its own stamp. */
  lemma {:induction false} SimulateSame(a: Dorm, b: Dorm, t: LevelTemplate, now: u32)
    requires t.time > 0 && SameGrants(a, b) && a.updatedAt == b.updatedAt
    ensures SameGrants(Simulate(a, t, now), Simulate(b, t, now))
    ensures Simulate(a, t, now).updatedAt == Simulate(b, t, now).updatedAt
    decreases WORD - a.updatedAt
  {
    if TickDue(a, t, now) {
      SimulateSame(Step(a, t), Step(b, t), t, now);
    }
  }

  // ---------- Any list of polls ----------

  /** The simulator has a template, a tick length, lodgers and a food bill. */
  ghost predicate Running(d: Dorm, tpl: Option<LevelTemplate>) {
    tpl.Some? && tpl.value.time > 0 && Total(d.ships, Here) != 0 && PerTickFood(d, tpl.value) != 0
  }

  /** What a running, started dorm looks like after any polls. */
  ghost predicate CaughtUp(d: Dorm, t: LevelTemplate, r: Dorm, latest: u32)
    requires t.time > 0
  {
    var e := Simulate(d, t, latest);
    SameGrants(r, e) && r.updatedAt != 0 && (r.food < PerTickFood(d, t) || r.updatedAt == e.updatedAt)
  }

  lemma TickCatchesUp(d: Dorm, t: LevelTemplate, r: Dorm, latest: u32, now: u32)
    requires Running(d, Some(t)) && CaughtUp(d, t, r, latest)
    ensures CaughtUp(d, t, Ticked(r, Some(t), now), Later(latest, now))
  {
    var e := Simulate(d, t, latest);
    SimulateKeepsRates(d, t, latest);
    SimulateInTwo(d, t, latest, now);
    assert PerTickFood(r, t) == PerTickFood(d, t);
    if r.food >= PerTickFood(d, t) {
      SimulateSame(r, e, t, now);
      SimulateKeepsRates(r, t, now);
    }
  }

  lemma {:induction false} PollsCatchUp(d: Dorm, t: LevelTemplate, polls: seq<u32>)
    requires Running(d, Some(t)) && d.updatedAt != 0
    ensures CaughtUp(d, t, Polled(d, Some(t), polls), Latest(polls))
  {
    if |polls| != 0 {
      var n := |polls| - 1;
      PollsCatchUp(d, t, polls[..n]);
      TickCatchesUp(d, t, Polled(d, Some(t), polls[..n]), Latest(polls[..n]), polls[n]);
    }
  }

  /** No tick can ever be granted: nothing to run, food short, or a tick that never fits. */
  ghost predicate Inert(d: Dorm, tpl: Option<LevelTemplate>) {
    !Running(d, tpl) || d.food < PerTickFood(d, tpl.value) || tpl.value.time == WORD - 1
  }

  lemma {:induction false} InertPollsGrantNothing(d: Dorm, tpl: Option<LevelTemplate>, polls: seq<u32>)
    requires Inert(d, tpl) && (d.updatedAt == 0 || !Running(d, tpl))
    ensures SameGrants(Polled(d, tpl, polls), d)
  {
    if |polls| != 0 {
      InertPollsGrantNothing(d, tpl, polls[..|polls| - 1]);
    }
  }

  lemma OnePoll(d: Dorm, tpl: Option<LevelTemplate>, now: u32)
    ensures Polled(d, tpl, [now]) == Ticked(d, tpl, now) && Latest([now]) == now
  {
    assert [now][..0] == [];
  }

  /** A started dorm: any polls, in any order, grant what one poll at the latest time grants. */
  lemma PollScheduleIrrelevant(d: Dorm, tpl: Option<LevelTemplate>, polls: seq<u32>)
    requires d.updatedAt != 0 && polls != []
    ensures SameGrants(Polled(d, tpl, polls), Ticked(d, tpl, Latest(polls)))
  {
    OnePoll(d, tpl, Latest(polls));
    if Running(d, tpl) {
      PollsCatchUp(d, tpl.value, polls);
      PollsCatchUp(d, tpl.value, [Latest(polls)]);
    } else {
      InertPollsGrantNothing(d, tpl, polls);
      InertPollsGrantNothing(d, tpl, [Latest(polls)]);
    }
  }

  // ---------- A dorm whose clock was never started ----------

  ghost predicate ScheduleFree(d: Dorm, tpl: Option<LevelTemplate>) {
    forall polls: seq<u32> :: polls != [] ==> SameGrants(Polled(d, tpl, polls), Ticked(d, tpl, Latest(polls)))
  }

  /** The first poll of an unstarted clock only sets it, so an early poll makes a difference. */
  lemma EarlyPollMatters(d: Dorm, t: LevelTemplate)
    requires d.updatedAt == 0 && !Inert(d, Some(t))
    ensures var polls := [1, 1 + t.time];
            !SameGrants(Polled(d, Some(t), polls), Ticked(d, Some(t), Latest(polls)))
  {
    var late: u32 := 1 + t.time;
    var polls: seq<u32> := [1, late];
    assert polls[..1] == [1];
    OnePoll(d, Some(t), 1);
    var started := d.(updatedAt := 1);
    assert Polled(d, Some(t), polls) == Ticked(started, Some(t), late);
    StepKeepsRates(started, t);
    assert Simulate(started, t, late) == Step(started, t);
  }

  /** Poll times are irrelevant exactly when the clock is started or nothing can be granted. */
  lemma ScheduleFreeIff(d: Dorm, tpl: Option<LevelTemplate>)
    ensures ScheduleFree(d, tpl) <==> d.updatedAt != 0 || Inert(d, tpl)
  {
    if d.updatedAt != 0 || Inert(d, tpl) {
      forall polls: seq<u32> | polls != []
        ensures SameGrants(Polled(d, tpl, polls), Ticked(d, tpl, Latest(polls)))
      {
        if d.updatedAt != 0 {
          PollScheduleIrrelevant(d, tpl, polls);
        } else {
          OnePoll(d, tpl, Latest(polls));
          InertPollsGrantNothing(d, tpl, polls);
          InertPollsGrantNothing(d, tpl, [Latest(polls)]);
        }
      }
    } else {
      EarlyPollMatters(d, tpl.value);
    }
  }

  // ---------- Conservation and the next stamp ----------

  lemma {:induction false} SimulateMovesFood(d: Dorm, t: LevelTemplate, now: u32)
    requires t.time > 0
    ensures var e := Simulate(d, t, now);
            Add(e.food, e.loadFood) == Add(d.food, d.loadFood) && e.food <= d.food
    decreases WORD - d.updatedAt
  {
    if TickDue(d, t, now) { SimulateMovesFood(Step(d, t), t, now); }
  }

  /** Food is moved, never made: stock plus load stays the same word, and the stock never underflows. */
  lemma FoodConserved(d: Dorm, tpl: Option<LevelTemplate>, now: u32)
    ensures var e := Ticked(d, tpl, now);
            Add(e.food, e.loadFood) == Add(d.food, d.loadFood) && e.food <= d.food
  {
    if tpl.Some? && tpl.value.time > 0 { SimulateMovesFood(d, tpl.value, now); }
  }

  ghost function Gathered(s: ShipRow): int {
    s.info2
  }

  lemma {:induction false} StepGathers(ships: seq<ShipRow>, t: LevelTemplate)
    ensures Wrap(Total(ShipsStep(ships, t), Gathered) - Total(ships, Gathered)) == Wrap(t.exp * Total(ships, Training))
  {
    hide Wrap, Mul;
    if |ships| != 0 {
      var n := |ships| - 1;
      StepGathers(ships[..n], t);
      assert ShipsStep(ships, t)[..n] == ShipsStep(ships[..n], t);
      var s := ships[n];
      var gained := Total(ShipsStep(ships[..n], t), Gathered) - Total(ships[..n], Gathered);
      var booked := t.exp * Total(ships[..n], Training);
      Distribute(t.exp, Total(ships[..n], Training), Training(s));
      OneShipGathers(s, t, gained, booked);
    }
  }

  lemma Distribute(a: int, x: int, y: int)
    ensures a * (x + y) == a * x + a * y
  {
  }

  lemma OneShipGathers(s: ShipRow, t: LevelTemplate, gained: int, booked: int)
    requires Wrap(gained) == Wrap(booked)
    ensures Wrap(gained + (ShipStep(s, t).info2 - s.info2)) == Wrap(booked + t.exp * Training(s))
  {
    var one := if s.state == TRAIN then t.exp else 0;
    var delta := ShipStep(s, t).info2 - s.info2;
    assert delta == one || delta == one - WORD;
    WrapShift(booked + one, -1);
    WrapAdd(gained, delta);
    WrapAdd(booked, delta);
  }

  lemma StepBooks(d: Dorm, t: LevelTemplate)
    ensures Wrap(Total(Step(d, t).ships, Gathered) - Total(d.ships, Gathered)) == PerTickExp(d, t)
  {
    StepGathers(d.ships, t);
    WrapMul(t.exp, Total(d.ships, Training));
  }

  lemma {:induction false} SimulateBooksExp(d: Dorm, t: LevelTemplate, now: u32)
    requires t.time > 0
    ensures var e := Simulate(d, t, now);
            Wrap(Total(e.ships, Gathered) - Total(d.ships, Gathered)) == Sub(e.loadExp, d.loadExp)
    decreases WORD - d.updatedAt
  {
    hide Mul;
    if TickDue(d, t, now) {
      var s, e := Step(d, t), Simulate(d, t, now);
      SimulateBooksExp(s, t, now);
      StepBooks(d, t);
      var late, early := Total(e.ships, Gathered) - Total(s.ships, Gathered),
                         Total(s.ships, Gathered) - Total(d.ships, Gathered);
      WrapSum(late, early);
      assert late + early == Total(e.ships, Gathered) - Total(d.ships, Gathered);
    }
  }

  /** The experience put on training ships is the experience booked on the dorm. */
  lemma ExpBooked(d: Dorm, tpl: Option<LevelTemplate>, now: u32)
    ensures var e := Ticked(d, tpl, now);
            Wrap(Total(e.ships, Gathered) - Total(d.ships, Gathered)) == Sub(e.loadExp, d.loadExp)
  {
    hide Mul;
    if tpl.Some? && tpl.value.time > 0 { SimulateBooksExp(d, tpl.value, now); }
  }

  /** The tick grants something. */
  ghost predicate Productive(d: Dorm, tpl: Option<LevelTemplate>, now: u32) {
    Running(d, tpl) && d.updatedAt != 0 && TickDue(d, tpl.value, now)
  }

  /** The last tick boundary at or before `now`. */
  ghost function Boundary(last: int, time: int, now: int): int
    requires time > 0
  {
    last + (now - last) / time * time
  }

  lemma BoundaryIs(last: int, time: int, now: int)
    requires time > 0 && last <= now
    ensures now < last + time ==> Boundary(last, time, now) == last
    ensures Boundary(last + time, time, now) == Boundary(last, time, now)
  {
    DivZero(now - last, time);
    DivMinus(now - last, time, 1);
    var q := (now - last) / time;
    assert q * time == (q - 1) * time + time;
  }

  lemma {:induction false} SimulateStopsAtBoundary(d: Dorm, t: LevelTemplate, now: u32)
    requires t.time > 0 && d.updatedAt <= now && PerTickFood(d, t) <= Simulate(d, t, now).food
    ensures Simulate(d, t, now).updatedAt == Boundary(d.updatedAt, t.time, now)
    decreases WORD - d.updatedAt
  {
    SimulateMovesFood(d, t, now);
    BoundaryIs(d.updatedAt, t.time, now);
    if TickDue(d, t, now) {
      StepKeepsRates(d, t);
      SimulateStopsAtBoundary(Step(d, t), t, now);
    }
  }

  /** What is left pays for no further tick. */
  lemma FoodRunsOut(d: Dorm, t: LevelTemplate, now: u32)
    requires Running(d, Some(t)) && 0 < d.updatedAt <= now
    ensures Simulate(d, t, now).food < PerTickFood(d, t) <==>
            d.food < (Elapsed(d.updatedAt, t.time, now) + 1) * PerTickFood(d, t)
  {
    hide PerTickFood, Simulate, Granted, Elapsed;
    var per := PerTickFood(d, t);
    SimulateTakesGranted(d, t, now);
    GrantedFits(d.updatedAt, t.time, d.food, per, now);
    StepsAccrue(d, t, Granted(d.updatedAt, t.time, d.food, per, now));
    GrantedLeaves(d.updatedAt, t.time, d.food, per, now);
  }

  lemma GrantedLeaves(last: int, time: int, food: nat, per: nat, now: int)
    requires time > 0 && per > 0
    ensures food - Granted(last, time, food, per, now) * per < per <==> food < (Elapsed(last, time, now) + 1) * per
  {
    hide Elapsed;
    var ticks, most := Elapsed(last, time, now), food / per;
    DivBounds(food, per);
    OneMore(ticks, per);
    OneMore(most, per);
    if ticks < most { MulLe(ticks + 1, most, per); } else { MulLe(most, ticks, per); }
  }

  lemma OneMore(n: int, per: int)
    ensures (n + 1) * per == n * per + per
  {
  }

  /**
   After a productive tick the next stamp is 0 or lies in the future exactly when nobody
   trains, the food pays for no tick beyond those over, or the next tick boundary fits
   into 32 bits or wraps to 0.
   */
  lemma NextStampAhead(d: Dorm, tpl: Option<LevelTemplate>, now: u32)
    requires Productive(d, tpl, now)
    ensures var t, stamp := tpl.value, Ticked(d, tpl, now).nextTimestamp;
            stamp == 0 || stamp > now <==>
            || Wrap(Total(d.ships, Training)) == 0
            || d.food < (Elapsed(d.updatedAt, t.time, now) + 1) * PerTickFood(d, t)
            || Boundary(d.updatedAt, t.time, now) + t.time <= WORD
  {
    var t, e := tpl.value, Simulate(d, tpl.value, now);
    SimulateKeepsRates(d, t, now);
    FoodRunsOut(d, t, now);
    if e.food >= PerTickFood(d, t) {
      SimulateStopsAtBoundary(d, t, now);
    }
  }

  // ---------- Opening the dorm ----------

  /** `DormData` ticks, then stamps the dorm with the current time. */
  ghost function Opened(d: Dorm, tpl: Option<LevelTemplate>, now: u32): Dorm {
    Ticked(d, tpl, now).(updatedAt := now)
  }

  ghost function OpenedAll(d: Dorm, tpl: Option<LevelTemplate>, times: seq<u32>): Dorm
    decreases |times|
  {
    if times == [] then d else OpenedAll(Opened(d, tpl, times[0]), tpl, times[1..])
  }

  /** Every opening comes before a tick is over since the stamp before it; an unstarted clock never ticks. */
  ghost predicate Rushed(last: u32, time: u32, times: seq<u32>)
    decreases |times|
  {
    times == [] || ((last == 0 || times[0] < last + time) && Rushed(times[0], time, times[1..]))
  }

  /** One opening either grants nothing or uses up food for good. */
  lemma OpenedGrants(d: Dorm, t: LevelTemplate, now: u32)
    requires Running(d, Some(t)) && d.food >= PerTickFood(d, t)
    ensures var e := Opened(d, Some(t), now);
            if d.updatedAt == 0 || now < d.updatedAt + t.time
            then SameGrants(e, d) else e.food < d.food
  {
    if TickDue(d, t, now) { SimulateMovesFood(Step(d, t), t, now); }
  }

  lemma {:induction false} FoodNeverRises(d: Dorm, tpl: Option<LevelTemplate>, times: seq<u32>)
    ensures OpenedAll(d, tpl, times).food <= d.food
    decreases |times|
  {
    if times != [] {
      FoodConserved(d, tpl, times[0]);
      FoodNeverRises(Opened(d, tpl, times[0]), tpl, times[1..]);
    }
  }

  lemma {:induction false} ShortOpeningsGrantNothing(d: Dorm, tpl: Option<LevelTemplate>, times: seq<u32>)
    requires !Running(d, tpl) || d.food < PerTickFood(d, tpl.value)
    ensures SameGrants(OpenedAll(d, tpl, times), d)
    decreases |times|
  {
    if times != [] { ShortOpeningsGrantNothing(Opened(d, tpl, times[0]), tpl, times[1..]); }
  }

  /**
   However often the dorm is opened, it grants nothing exactly when nothing is running,
   the food is short, or every opening comes before a tick is over since the stamp
   before it.
   */
  lemma {:induction false} OpeningOftenStarves(d: Dorm, tpl: Option<LevelTemplate>, times: seq<u32>)
    ensures SameGrants(OpenedAll(d, tpl, times), d) <==>
            || !Running(d, tpl) || d.food < PerTickFood(d, tpl.value)
            || Rushed(d.updatedAt, tpl.value.time, times)
    decreases |times|
  {
    if !Running(d, tpl) || d.food < PerTickFood(d, tpl.value) {
      ShortOpeningsGrantNothing(d, tpl, times);
    } else if times != [] {
      var e := Opened(d, tpl, times[0]);
      OpenedGrants(d, tpl.value, times[0]);
      FoodNeverRises(e, tpl, times[1..]);
      if SameGrants(e, d) { OpeningOftenStarves(e, tpl, times[1..]); }
    }
  }

  // ---------- What one opening costs ----------

  /** The opening at `now` changes nothing that any later poll grants. */
  ghost predicate CostsNothing(d: Dorm, tpl: Option<LevelTemplate>, now: u32) {
    forall later: u32 :: now <= later ==>
      SameGrants(Ticked(Opened(d, tpl, now), tpl, later), Ticked(d, tpl, later))
  }

  /** The dorm a productive or idle tick leaves, and where its stamp stands. */
  lemma TickedStamp(d: Dorm, t: LevelTemplate, now: u32)
    requires Running(d, Some(t)) && 0 < d.updatedAt <= now
    ensures var r := Ticked(d, Some(t), now);
            && Running(r, Some(t)) && r.updatedAt != 0
            && PerTickFood(r, t) == PerTickFood(d, t)
            && r.food == Simulate(d, t, now).food
            && (r.food >= PerTickFood(d, t) ==> r.updatedAt == Boundary(d.updatedAt, t.time, now))
  {
    SimulateKeepsRates(d, t, now);
    BoundaryIs(d.updatedAt, t.time, now);
    if Simulate(d, t, now).food >= PerTickFood(d, t) { SimulateStopsAtBoundary(d, t, now); }
  }

  /** Ticking now and later grants what ticking later does. */
  lemma TickedTwice(d: Dorm, tpl: Option<LevelTemplate>, now: u32, later: u32)
    requires d.updatedAt != 0 && now <= later
    ensures SameGrants(Ticked(Ticked(d, tpl, now), tpl, later), Ticked(d, tpl, later))
  {
    var polls: seq<u32> := [now, later];
    assert polls[..1] == [now];
    OnePoll(d, tpl, now);
    PollScheduleIrrelevant(d, tpl, polls);
  }

  /** The opening costs nothing, in terms of the dorm before it. */
  ghost predicate Free(d: Dorm, t: LevelTemplate, now: u32)
    requires t.time > 0
  {
    if d.updatedAt == 0 || (now < d.updatedAt && now > 0) then
      // the opening sets the clock, or sets it back: later polls may grant more
      now == 0 || now + t.time >= WORD
    else if now < d.updatedAt then
      // the opening stops the clock
      d.updatedAt + t.time >= WORD
    else
      || (now - d.updatedAt) % t.time == 0
      || d.food < (Elapsed(d.updatedAt, t.time, now) + 1) * PerTickFood(d, t)
      || Boundary(d.updatedAt, t.time, now) + t.time >= WORD
  }

  /**
   Opening any dorm costs nothing exactly when nothing is running, the food is short, or
   `Free` holds; for a clock that is started and not ahead of `now` that is a tick
   boundary, food for no tick beyond those over, or a next boundary beyond 32 bits.
   */
  lemma OpeningCostsNothingIff(d: Dorm, tpl: Option<LevelTemplate>, now: u32)
    ensures CostsNothing(d, tpl, now) <==>
            !Running(d, tpl) || d.food < PerTickFood(d, tpl.value) || Free(d, tpl.value, now)
  {
    if !Running(d, tpl) || d.food < PerTickFood(d, tpl.value) {
      forall later: u32
        ensures SameGrants(Ticked(Opened(d, tpl, now), tpl, later), Ticked(d, tpl, later))
      {
        ShortTickGrantsNothing(d, tpl, now);
        ShortTickGrantsNothing(d, tpl, later);
        ShortTickGrantsNothing(Opened(d, tpl, now), tpl, later);
      }
    } else if d.updatedAt == 0 || now < d.updatedAt {
      OpeningOffClock(d, tpl.value, now);
    } else {
      OpeningOnClock(d, tpl.value, now);
    }
  }

  lemma ShortTickGrantsNothing(d: Dorm, tpl: Option<LevelTemplate>, now: u32)
    requires !Running(d, tpl) || d.food < PerTickFood(d, tpl.value)
    ensures SameGrants(Ticked(d, tpl, now), d)
  {
  }

  /** A clock that is not started, or ahead of the opening. */
  lemma OpeningOffClock(d: Dorm, t: LevelTemplate, now: u32)
    requires Running(d, Some(t)) && d.food >= PerTickFood(d, t) && (d.updatedAt == 0 || now < d.updatedAt)
    ensures CostsNothing(d, Some(t), now) <==> Free(d, t, now)
  {
    var tpl, o := Some(t), Opened(d, Some(t), now);
    assert SameGrants(o, d) && o.updatedAt == now;
    SameRate(o, d, t);
    hide Ticked, PerTickFood;
    if Free(d, t, now) {
      forall later: u32 | now <= later
        ensures SameGrants(Ticked(o, tpl, later), Ticked(d, tpl, later))
      {
        NoTickGrants(o, t, later);
        NoTickGrants(d, t, later);
      }
    } else if now == 0 {
      var later: u32 := d.updatedAt + t.time;
      NoTickGrants(o, t, later);
      TickDueEats(d, t, later);
    } else {
      var later: u32 := now + t.time;
      NoTickGrants(d, t, later);
      TickDueEats(o, t, later);
    }
  }

  /** A clock that is started and not ahead of the opening. */
  lemma OpeningOnClock(d: Dorm, t: LevelTemplate, now: u32)
    requires Running(d, Some(t)) && 0 < d.updatedAt <= now
    ensures CostsNothing(d, Some(t), now) <==> Free(d, t, now)
  {
    hide Ticked, Simulate, PerTickFood;
    var tpl, r, o := Some(t), Ticked(d, Some(t), now), Opened(d, Some(t), now);
    var edge := Boundary(d.updatedAt, t.time, now);
    TickedStamp(d, t, now);
    FoodRunsOut(d, t, now);
    DivBounds(now - d.updatedAt, t.time);
    assert edge == now <==> (now - d.updatedAt) % t.time == 0;
    SameRate(o, r, t);
    forall later: u32 | now <= later
      ensures SameGrants(Ticked(r, tpl, later), Ticked(d, tpl, later))
    {
      TickedTwice(d, tpl, now, later);
    }
    if r.food < PerTickFood(d, t) || edge + t.time >= WORD {
      forall later: u32 | now <= later
        ensures SameGrants(Ticked(o, tpl, later), Ticked(r, tpl, later))
      {
        NoTickGrants(o, t, later);
        NoTickGrants(r, t, later);
      }
    } else if edge == now {
      assert o == r;
    } else {
      var later: u32 := edge + t.time;
      NoTickGrants(o, t, later);
      TickDueEats(r, t, later);
    }
  }

  lemma SameRate(o: Dorm, r: Dorm, t: LevelTemplate)
    requires o.ships == r.ships
    ensures PerTickFood(o, t) == PerTickFood(r, t) && (Running(o, Some(t)) <==> Running(r, Some(t)))
  {
  }

  lemma NoTickGrants(d: Dorm, t: LevelTemplate, now: u32)
    requires Running(d, Some(t)) && (d.updatedAt == 0 || !TickDue(d, t, now))
    ensures SameGrants(Ticked(d, Some(t), now), d)
  {
  }

  lemma TickDueEats(d: Dorm, t: LevelTemplate, now: u32)
    requires Running(d, Some(t)) && TickDue(d, t, now) && d.updatedAt != 0
    ensures Ticked(d, Some(t), now).food < d.food
  {
    SimulateMovesFood(Step(d, t), t, now);
  }
}
