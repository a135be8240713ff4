/** What the city-rebuild requests ask for and leave behind. */
module CityRows {
  import opened Options
  import opened Word32
  import opened Collections
  import opened CityRebuild

  // ---------- Building and recruiting ----------

  /** Whom a building recruits: its role, or the building's own id where it names none. */
  predicate Recruits(b: Building, role: u32) {
    if b.roleId == 0 then role == b.id else role == b.roleId
  }

  predicate Waits(c: City, role: u32) {
    exists i :: 0 <= i < |c.recruits| && c.recruits[i].id == role
  }

  lemma WaitsIff(c: City, role: u32)
    ensures Waits(c, role) <==> role in Ids(c.recruits)
  {
    if Waits(c, role) {
      var i :| 0 <= i < |c.recruits| && c.recruits[i].id == role;
      assert Ids(c.recruits)[i] == role;
    }
  }

  /** Building 1 is a rebuilding and done once; any other recruits, and does not recruit twice. */
  predicate MayBuild(c: City, b: Building) {
    && (b.needLevel == 0 || b.needLevel <= c.curLevel)
    && (|b.ptCost| >= 3 ==> b.ptCost[2] <= c.pt)
    && if b.kind == 1 then b.id !in c.builds
       else
         var role := if b.roleId == 0 then b.id else b.roleId;
         role !in c.roles && !Waits(c, role)
  }

  /**
   An accepted building request leaves the building built, or its role waiting since
   `now`, last in its list, and takes the third number of the price.
   */
  lemma BuildInRows(c: City, cfg: Config, id: u32, now: u32)
    ensures Tried(c, Build(id, now), cfg).Some? <==> id in cfg.buildings && MayBuild(c, cfg.buildings[id])
    ensures Tried(c, Build(id, now), cfg).Some? ==>
              var b, n := cfg.buildings[id], Next(c, Build(id, now), cfg);
              && n.pt == c.pt - (if |b.ptCost| >= 3 then b.ptCost[2] else 0)
              && n.roles == c.roles && n.buffs == c.buffs && n.curLevel == c.curLevel
              && n.builds == (if b.kind == 1 then c.builds + [b.id] else c.builds)
              && (b.kind == 1 ==> n.recruits == c.recruits)
              && (b.kind != 1 ==>
                    && |n.recruits| == |c.recruits| + 1 && n.recruits[..|c.recruits|] == c.recruits
                    && Recruits(b, n.recruits[|c.recruits|].id) && n.recruits[|c.recruits|].startTime == now)
  {
    if id in cfg.buildings { WaitsIff(c, RoleOf(cfg.buildings[id])); }
  }

  /** Ending a recruitment asks for waiting recruits only, and makes each of them a role, once. */
  lemma EndRecruitInRows(c: City, cfg: Config, request: seq<u32>)
    ensures var r := Tried(c, EndRecruit(request), cfg);
            && (r.Some? <==> |request| > 0 && forall v :: v in request ==> Waits(c, v))
            && (r.Some? ==>
                  && (forall v: u32 :: Waits(r.value, v) <==> Waits(c, v) && v !in request)
                  && c.roles <= r.value.roles && Distinct(r.value.roles[|c.roles|..])
                  && (forall v: u32 :: v in r.value.roles[|c.roles|..] <==> v in request)
                  && r.value.pt == c.pt && r.value.builds == c.builds && r.value.buffs == c.buffs)
  {
    var done := Dedupe(request);
    var r := Tried(c, EndRecruit(request), cfg);
    assert |request| > 0 ==> request[0] in done;
    assert |done| > 0 ==> done[0] in request;
    forall v: u32
      ensures Waits(c, v) <==> v in Ids(c.recruits)
      ensures v in done <==> v in request
      ensures r.Some? ==> (Waits(r.value, v) <==> Waits(c, v) && v !in request)
    {
      WaitsIff(c, v);
      if r.Some? { WaitsIff(r.value, v); }
    }
    if r.Some? { assert r.value.roles[|c.roles|..] == done; }
  }

  // ---------- Buff levels ----------

  predicate Between(lo: nat, l: u32, hi: nat) {
    lo < l <= hi
  }

  /** The levels above `lo` up to `hi`. */
  ghost function Levels(lo: nat, hi: nat): set<u32> {
    set l: u32 | Between(lo, l, hi)
  }

  /** The price of a span of levels is the sum over the set of those levels, if all are listed. */
  lemma {:induction false} SpanIsSum(costs: LevelCosts, lo: nat, hi: nat)
    requires hi < WORD
    ensures Span(costs, lo, hi).Some? <==> Levels(lo, hi) <= costs.Keys
    ensures Span(costs, lo, hi).Some? ==> Span(costs, lo, hi).value == SumOver(costs, Levels(lo, hi))
    decreases hi
  {
    if hi <= lo {
      assert Levels(lo, hi) == {};
    } else {
      SpanIsSum(costs, lo, hi - 1);
      var top: u32 := hi;
      assert top in Levels(lo, hi) && Levels(lo, hi) - {top} == Levels(lo, hi - 1);
      assert Levels(lo, hi) == Levels(lo, hi - 1) + {top};
      if Levels(lo, hi) <= costs.Keys { SumSplits(costs, Levels(lo, hi), top); }
    }
  }

  /**
   Without wrap-around of the level: `count` more levels cost the sum of what the levels
   above the present one are listed at, as a word, and are bought exactly if all are
   listed, within the maximum, and paid for.
   */
  lemma BuffInNumbers(c: City, cfg: Config, group: u32, count: u32)
    requires LevelAt(c.buffs, group) + count < WORD - 1
    ensures var r, was := Tried(c, UpgradeBuff(group, count), cfg), if group in c.buffs then c.buffs[group] else 0;
            && (r.Some? <==>
                  && group != 0 && count > 0 && group in cfg.costs && group in cfg.maxLevels
                  && was + count <= cfg.maxLevels[group]
                  && Levels(was, was + count) <= cfg.costs[group].Keys
                  && SumOver(cfg.costs[group], Levels(was, was + count)) % WORD <= c.pt)
            && (r.Some? ==>
                  && r.value.buffs == c.buffs[group := was + count]
                  && r.value.pt == c.pt - SumOver(cfg.costs[group], Levels(was, was + count)) % WORD
                  && r.value.builds == c.builds && r.value.roles == c.roles && r.value.recruits == c.recruits)
  {
    hide Span, SumOver, Levels;
    if group in cfg.costs && count > 0 {
      var was := LevelAt(c.buffs, group);
      SpanIsSum(cfg.costs[group], was, was + count);
      SomeLevel(was, was + count);
    }
  }

  lemma SomeLevel(lo: nat, hi: nat)
    requires lo < hi < WORD
    ensures hi in Levels(lo, hi)
  {
  }
}
