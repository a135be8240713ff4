/** What each shipyard request asks for and writes, row by row, and where strengthening leads. */
module YardRows {
  import opened Options
  import opened Word32
  import opened BlueprintExp
  import opened Shipyard

  /** The steps a blueprint is strengthened by. */
  type Ladder = BlueprintExp.Config

  // ---------- Strengthening ----------

  /** The step at a level: the ordinary steps, then the fate steps. */
  function StepAt(cfg: Ladder, l: nat): u32
    requires l < |cfg.strengthenEffect| + |cfg.fateStrengthen|
  {
    (cfg.strengthenEffect + cfg.fateStrengthen)[l]
  }

  /** The ship may work on the level. */
  predicate Reachable(cfg: Ladder, strengths: Strengths, shipLevel: u32, l: nat) {
    && l < |cfg.strengthenEffect| + |cfg.fateStrengthen|
    && StepAt(cfg, l) in strengths && strengths[StepAt(cfg, l)].needLv <= shipLevel
  }

  /** Levels the ship may work on, none of them free. */
  predicate AllReachable(cfg: Ladder, strengths: Strengths, shipLevel: u32, lo: nat, hi: nat) {
    forall l: nat :: lo <= l < hi ==>
      Reachable(cfg, strengths, shipLevel, l) && strengths[StepAt(cfg, l)].needExp > 0
  }

  ghost function Bill(cfg: Ladder, strengths: Strengths, shipLevel: u32, lo: nat, hi: nat): nat
    requires lo <= hi && AllReachable(cfg, strengths, shipLevel, lo, hi)
    decreases hi - lo
  {
    if lo == hi then 0
    else
      assert Reachable(cfg, strengths, shipLevel, lo);
      strengths[StepAt(cfg, lo)].needExp + Bill(cfg, strengths, shipLevel, lo + 1, hi)
  }

  /**
   Points that pay for the levels up to `to`: the rest stays on the bar if the ship may
   work on that level and it asks for more; at the last level the bar is empty; a level
   the ship may not work on refuses the whole request if anything is left for it.
   */
  lemma {:induction false} GainInNumbers(
      cfg: Ladder, strengths: Strengths, shipLevel: u32, s: State, gain: u32, to: u32)
    requires cfg.Total() < WORD && gain > 0 && s.level < cfg.Total()
    requires Reachable(cfg, strengths, shipLevel, s.level) ==> s.exp <= strengths[StepAt(cfg, s.level)].needExp
    requires s.level <= to <= cfg.Total() && AllReachable(cfg, strengths, shipLevel, s.level, to)
    requires Bill(cfg, strengths, shipLevel, s.level, to) <= s.exp + gain
    ensures var rest := s.exp + gain - Bill(cfg, strengths, shipLevel, s.level, to);
            && (to == cfg.Total() ==> Gain(cfg, strengths, shipLevel, s, gain) == Some(State(to, 0)))
            && (to < cfg.Total() && Reachable(cfg, strengths, shipLevel, to) &&
                rest < strengths[StepAt(cfg, to)].needExp ==>
                  Gain(cfg, strengths, shipLevel, s, gain) == Some(State(to, rest)))
            && (to < cfg.Total() && !Reachable(cfg, strengths, shipLevel, to) && (rest > 0 || to == s.level) ==>
                  Gain(cfg, strengths, shipLevel, s, gain) == None)
    decreases cfg.Total() - s.level
  {
    assert Reachable(cfg, strengths, shipLevel, s.level) <==> Open(cfg, strengths, shipLevel, s.level);
    if s.level < to {
      assert Reachable(cfg, strengths, shipLevel, s.level);
      var need, next := strengths[StepAt(cfg, s.level)].needExp, State(s.level + 1, 0);
      assert AllReachable(cfg, strengths, shipLevel, next.level, to);
      assert next.level < to ==> Reachable(cfg, strengths, shipLevel, next.level);
      var rest := gain - (need - s.exp);
      assert rest >= 0;
      assert Pour(cfg, strengths, shipLevel, s, gain) == Pour(cfg, strengths, shipLevel, next, rest);
      if rest > 0 && next.level < cfg.Total() {
        GainInNumbers(cfg, strengths, shipLevel, next, rest, to);
      }
    }
  }

  /** The row of a strengthened ship: the level the points pay for, and the rest on its bar. */
  lemma ModInNumbers(
      y: Yard, id: u32, cfg: Ladder, strengths: Strengths, shipLevel: u32, gain: u32, to: u32)
    requires cfg.Total() < WORD && gain > 0 && id in y.blueprints && y.blueprints[id].shipId != 0
    requires y.blueprints[id].level <= to < cfg.Total() && Reachable(cfg, strengths, shipLevel, to)
    requires AllReachable(cfg, strengths, shipLevel, y.blueprints[id].level, to)
    requires Reachable(cfg, strengths, shipLevel, y.blueprints[id].level) ==>
               y.blueprints[id].exp <= strengths[StepAt(cfg, y.blueprints[id].level)].needExp
    requires var rest := y.blueprints[id].exp + gain - Bill(cfg, strengths, shipLevel, y.blueprints[id].level, to);
             0 <= rest < strengths[StepAt(cfg, to)].needExp
    ensures var e := y.blueprints[id];
            var r := Modded(y, id, e.shipId, GrownBy(y, id, cfg, strengths, shipLevel, gain), true);
            && r.Some? && id in r.value.blueprints
            && r.value.blueprints[id].level == to
            && r.value.blueprints[id].exp == e.exp + gain - Bill(cfg, strengths, shipLevel, e.level, to)
  {
    var e := y.blueprints[id];
    GainInNumbers(cfg, strengths, shipLevel, State(e.level, e.exp), gain, to);
  }

  /** Strengthening twice is strengthening once with both gains, unless the first one finishes the blueprint. */
  lemma ModInTwo(
      y: Yard, id: u32, shipId: u32, cfg: Ladder, strengths: Strengths, shipLevel: u32, a: u32, b: u32)
    requires cfg.Total() < WORD && a > 0 && b > 0 && a + b < WORD && id in y.blueprints
    requires !Finishes(cfg, strengths, shipLevel, State(y.blueprints[id].level, y.blueprints[id].exp), a)
    ensures Modded(y, id, shipId, GrownBy(y, id, cfg, strengths, shipLevel, a + b), true) ==
            match Modded(y, id, shipId, GrownBy(y, id, cfg, strengths, shipLevel, a), true)
            case None => None
            case Some(m) => Modded(m, id, shipId, GrownBy(m, id, cfg, strengths, shipLevel, b), true)
  {
    hide Gain, Finishes;
    var e := y.blueprints[id];
    BlueprintExp.GainInTwo(cfg, strengths, shipLevel, State(e.level, e.exp), a, b);
    var first := Modded(y, id, shipId, GrownBy(y, id, cfg, strengths, shipLevel, a), true);
    if first.Some? {
      var second := Modded(first.value, id, shipId, GrownBy(first.value, id, cfg, strengths, shipLevel, b), true);
      if second.Some? {
        var row := second.value.blueprints[id];
        assert first.value.blueprints[id := row] == y.blueprints[id := row];
      }
    }
  }

  // ---------- The other requests ----------

  /** No other blueprint is begun and unbuilt. */
  predicate NothingElseRuns(y: Yard, id: u32) {
    forall k :: k in y.blueprints && k != id ==> y.blueprints[k].shipId != 0 || y.blueprints[k].startTime == 0
  }

  /** All that the opening and unlock tasks ask for, and that something is asked for. */
  ghost predicate EveryTask(cfg: Shipyard.Config, satisfied: set<u32>) {
    && (forall t :: t in cfg.openCondition && t != 0 ==> t in satisfied)
    && (forall g, t :: 0 <= g < |cfg.unlock| && t in cfg.unlock[g] && t != 0 ==> t in satisfied)
    && ((exists t :: t in cfg.openCondition && t != 0) ||
        exists g, t :: 0 <= g < |cfg.unlock| && t in cfg.unlock[g] && t != 0)
  }

  lemma EveryTaskIff(cfg: Shipyard.Config, satisfied: set<u32>)
    ensures EveryTask(cfg, satisfied) <==> TasksDone(cfg, satisfied)
  {
    if TasksDone(cfg, satisfied) {
      var t: u32 :| Names(cfg, t);
      assert t in cfg.openCondition || exists g :: 0 <= g < |cfg.unlock| && t in cfg.unlock[g];
      forall g, t: u32 | 0 <= g < |cfg.unlock| && t in cfg.unlock[g] && t != 0
        ensures t in satisfied
      {
        assert Names(cfg, t);
      }
      forall t: u32 | t in cfg.openCondition && t != 0
        ensures t in satisfied
      {
        assert Names(cfg, t);
      }
    }
    if EveryTask(cfg, satisfied) {
      if t: u32 :| t in cfg.openCondition && t != 0 {
        assert Names(cfg, t);
      } else {
        var g, t :| 0 <= g < |cfg.unlock| && t in cfg.unlock[g] && t != 0;
        assert Names(cfg, t);
      }
    }
  }

  /**
   Development begins for an unbuilt blueprint at rest, a day or more after the last
   start, with nothing else running and the first tasks done; its clock is set back by
   what was worked before, and the next start is a day away.
   */
  lemma StartInRows(y: Yard, id: u32, cfg: Option<Shipyard.Config>, satisfied: set<u32>, now: u32)
    ensures var e, r := EntryOf(y.blueprints, id), Started(y, id, cfg, satisfied, now);
            && (r.Some? <==>
                  && id != 0 && cfg.Some? && (forall t :: t in cfg.value.openCondition ==> t in satisfied)
                  && (|cfg.value.unlock| > 0 && |cfg.value.unlock[0]| > 0 ==> cfg.value.unlock[0][0] in satisfied)
                  && y.coldTime <= now && NothingElseRuns(y, id) && e.shipId == 0 && e.startTime == 0)
            && (r.Some? ==>
                  && r.value.coldTime == (now + 86400) % WORD
                  && r.value.blueprints == y.blueprints[id := e.(startTime := (now - e.startDuration) % WORD)])
  {
    hide Add, Sub;
    var e := EntryOf(y.blueprints, id);
    AddWraps(now, e.startDuration);
    AddWraps(now, COOLDOWN);
    WrapSmall(now);
    assert cfg.Some? ==> (AllIn(cfg.value.openCondition, satisfied) <==>
                          forall t :: t in cfg.value.openCondition ==> t in satisfied);
  }

  /** Stopping banks the time worked since the shifted start; a fully strengthened one may be stopped at rest. */
  lemma StopInRows(y: Yard, id: u32, cfg: Option<Shipyard.Config>, now: u32)
    ensures var e, r := EntryOf(y.blueprints, id), Stopped(y, id, cfg, now);
            && (r.Some? <==>
                  && id != 0 && cfg.Some? && id in y.blueprints && e.shipId == 0
                  && (e.startTime > 0 || e.level >= cfg.value.levels))
            && (r.Some? ==>
                  && r.value.coldTime == y.coldTime
                  && var worked := if e.startTime > 0 && now > e.startTime then now - e.startTime else e.startDuration;
                     r.value.blueprints == y.blueprints[id := e.(startTime := 0, startDuration := worked)])
  {
  }

  /** Resuming sets the clock back by what was worked. */
  lemma ResumeInRows(y: Yard, id: u32, now: u32)
    ensures var e, r := EntryOf(y.blueprints, id), Resumed(y, id, now);
            && (r.Some? <==>
                  id != 0 && id in y.blueprints && NothingElseRuns(y, id) && e.shipId == 0 && e.startTime == 0)
            && (r.Some? ==>
                  && r.value.coldTime == y.coldTime
                  && var since := if e.startDuration > now then 0 else now - e.startDuration;
                     r.value.blueprints == y.blueprints[id := e.(startTime := since)])
  {
  }

  /** Finishing asks for a begun blueprint, strengthened to the end or through with its tasks; the clock is cleared. */
  lemma FinishInRows(y: Yard, id: u32, cfg: Option<Shipyard.Config>, satisfied: set<u32>, shipId: u32)
    ensures var e, r := EntryOf(y.blueprints, id), Finished(y, id, cfg, satisfied, shipId);
            && (r.Some? <==>
                  && id != 0 && cfg.Some? && id in y.blueprints && e.shipId == 0
                  && (e.startTime > 0 || e.startDuration > 0)
                  && (e.level >= cfg.value.levels || EveryTask(cfg.value, satisfied)))
            && (r.Some? ==>
                  && r.value.coldTime == y.coldTime
                  && r.value.blueprints ==
                     y.blueprints[id := e.(shipId := shipId, startTime := 0, startDuration := 0)])
  {
    if cfg.Some? { EveryTaskIff(cfg.value, satisfied); }
  }

  /** An unlock item turns any unbuilt blueprint into a ship. */
  lemma UnlockInRows(y: Yard, id: u32, paid: bool, shipId: u32)
    ensures var e, r := EntryOf(y.blueprints, id), Unlocked(y, id, paid, shipId);
            && (r.Some? <==> id != 0 && paid && e.shipId == 0)
            && (r.Some? ==>
                  && r.value.coldTime == y.coldTime
                  && r.value.blueprints ==
                     y.blueprints[id := e.(shipId := shipId, startTime := 0, startDuration := 0)])
  {
  }
}
