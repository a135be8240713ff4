/** The city-rebuild activity: points buy buildings, recruits and buff levels. */
module CityRebuild {
  import opened Options
  import opened Word32
  import opened Collections

  const BUILDING_TYPE_REBUILD: u32 := 1

  datatype Recruit = Recruit(id: u32, startTime: u32)

  datatype Building = Building(id: u32, kind: u32, ptCost: seq<u32>, roleId: u32, needLevel: u32)

  type LevelCosts = map<u32, u32>

  datatype City = City(
    pt: u32, builds: seq<u32>, roles: seq<u32>, recruits: seq<Recruit>, buffs: map<u32, u32>,
    curLevel: u32, summaryReady: bool, summaryPt: u32
  )

  // ---------- Lists ----------

  /** The first occurrence of every value, in order. */
  function Dedupe(values: seq<u32>): (r: seq<u32>)
    ensures Distinct(r)
    ensures forall v: u32 :: v in r <==> v in values
    decreases |values|
  {
    if |values| == 0 then []
    else
      var init, last := Dedupe(values[..|values| - 1]), values[|values| - 1];
      assert values == values[..|values| - 1] + [last];
      if last in init then init else init + [last]
  }

  method DedupeUint32(values: seq<u32>) returns (result: seq<u32>)
    ensures result == Dedupe(values)
  {
    var seen: set<u32> := {};
    result := [];
    for i := 0 to |values|
      invariant result == Dedupe(values[..i])
      invariant forall v: u32 :: v in seen <==> v in result
    {
      assert values[..i + 1][..i] == values[..i];
      if values[i] in seen { continue; }
      seen := seen + {values[i]};
      result := result + [values[i]];
    }
    assert values[..|values|] == values;
  }

  function Ids(recruits: seq<Recruit>): (r: seq<u32>)
    ensures |r| == |recruits| && forall i :: 0 <= i < |r| ==> r[i] == recruits[i].id
  {
    seq(|recruits|, i requires 0 <= i < |recruits| => recruits[i].id)
  }

  /** The recruits that are not among the finished ones, in order. */
  function Waiting(recruits: seq<Recruit>, done: seq<u32>): (r: seq<Recruit>)
    ensures forall v: u32 :: v in Ids(r) <==> v in Ids(recruits) && v !in done
    ensures Distinct(Ids(recruits)) ==> Distinct(Ids(r))
    decreases |recruits|
  {
    if |recruits| == 0 then []
    else
      var init, last := Waiting(recruits[..|recruits| - 1], done), recruits[|recruits| - 1];
      assert Ids(recruits) == Ids(recruits[..|recruits| - 1]) + [last.id];
      assert Ids(init + [last]) == Ids(init) + [last.id];
      if last.id in done then init else init + [last]
  }

  // ---------- The requests on values ----------

  /** Any accepted spending makes the summary ready; a summary already standing is kept. */
  function Summed(c: City): City {
    c.(summaryReady := true, summaryPt := if c.summaryPt == 0 then c.pt / 10 else c.summaryPt)
  }

  function EndedRecruit(c: City, request: seq<u32>): Option<City> {
    var done := Dedupe(request);
    if |done| == 0 || exists i :: 0 <= i < |done| && done[i] !in Ids(c.recruits) then None
    else Some(Summed(c.(recruits := Waiting(c.recruits, done), roles := c.roles + done)))
  }

  function PtCost(values: seq<u32>): u32 {
    if |values| < 3 then 0 else values[2]
  }

  function RoleOf(b: Building): u32 {
    if b.roleId == 0 then b.id else b.roleId
  }

  function Built(c: City, buildings: map<u32, Building>, id: u32, now: u32): Option<City> {
    if id !in buildings then None
    else
      var b := buildings[id];
      var cost := PtCost(b.ptCost);
      if (b.needLevel > 0 && c.curLevel < b.needLevel) || c.pt < cost then None
      else if b.kind == BUILDING_TYPE_REBUILD then
        if b.id in c.builds then None
        else Some(Summed(c.(builds := c.builds + [b.id], pt := c.pt - cost)))
      else
        if RoleOf(b) in c.roles || RoleOf(b) in Ids(c.recruits) then None
        else Some(Summed(c.(recruits := c.recruits + [Recruit(RoleOf(b), now)], pt := c.pt - cost)))
  }

  /** The costs of the levels above `lo` up to `hi`; absent when one of them is not listed. */
  function Span(costs: LevelCosts, lo: nat, hi: nat): Option<nat>
    requires hi < WORD
    decreases hi
  {
    if hi <= lo then Some(0)
    else
      var rest := Span(costs, lo, hi - 1);
      if rest.None? || hi !in costs then None else Some(rest.value + costs[hi])
  }

  /**
   What the level loop adds up. Its counter is a 32-bit word: above the highest word it
   comes back to level 0, which is never listed.
   */
  function LoopCost(costs: LevelCosts, cur: u32, target: u32): Option<nat> {
    if cur == WORD - 1 || target == WORD - 1 then None else Span(costs, cur, target)
  }

  function LevelAt(buffs: map<u32, u32>, group: u32): u32 {
    if group in buffs then buffs[group] else 0
  }

  function Upgraded(c: City, costs: map<u32, LevelCosts>, maxLevels: map<u32, u32>,
                      group: u32, count: u32): Option<City> {
    if group == 0 || count == 0 then None
    else if group !in costs || |costs[group]| == 0 || LevelAt(maxLevels, group) == 0 then None
    else
      var target := Add(LevelAt(c.buffs, group), count);
      if target > LevelAt(maxLevels, group) then None
      else
        var total := LoopCost(costs[group], LevelAt(c.buffs, group), target);
        if total.None? || c.pt < Wrap(total.value) then None
        else Some(Summed(c.(pt := c.pt - Wrap(total.value), buffs := c.buffs[group := target])))
  }

  // ---------- The handlers ----------

  class CityState {
    var pt: u32
    var builds: seq<u32>
    var roles: seq<u32>
    var recruits: seq<Recruit>
    var buffs: map<u32, u32>
    var curLevel: u32
    var summaryReady: bool
    var summaryPt: u32

    function View(): City
      reads this
    {
      City(pt, builds, roles, recruits, buffs, curLevel, summaryReady, summaryPt)
    }

    /** `CityRebuildEndRecruit`. */
    method EndRecruit(request: seq<u32>) returns (ok: bool)
      modifies this
      ensures ok <==> EndedRecruit(old(View()), request).Some?
      ensures View() == if ok then EndedRecruit(old(View()), request).value else old(View())
    {
      hide Dedupe, Waiting;
      var done := DedupeUint32(request);
      if |done| == 0 { return false; }
      var known: set<u32> := {};
      for i := 0 to |recruits|
        invariant forall v: u32 :: v in known <==> v in Ids(recruits)[..i]
      {
        assert Ids(recruits)[..i + 1] == Ids(recruits)[..i] + [recruits[i].id];
        known := known + {recruits[i].id};
      }
      assert Ids(recruits)[..|recruits|] == Ids(recruits);
      for i := 0 to |done|
        invariant forall j :: 0 <= j < i ==> done[j] in Ids(recruits)
      {
        if done[i] !in known { return false; }
      }
      var next := StillWaiting(recruits, done);
      recruits := next;
      roles := roles + done;
      summaryReady := true;
      if summaryPt == 0 { summaryPt := pt / 10; }
      return true;
    }

    method StillWaiting(all: seq<Recruit>, done: seq<u32>) returns (next: seq<Recruit>)
      ensures next == Waiting(all, done)
    {
      next := [];
      for i := 0 to |all|
        invariant next == Waiting(all[..i], done)
      {
        assert all[..i + 1][..i] == all[..i];
        if all[i].id in done { continue; }
        next := next + [all[i]];
      }
      assert all[..|all|] == all;
    }

    /** `CityRebuildBuildingAction`. */
    method BuildingAction(buildings: map<u32, Building>, id: u32, now: u32) returns (ok: bool)
      modifies this
      ensures ok <==> Built(old(View()), buildings, id, now).Some?
      ensures View() == if ok then Built(old(View()), buildings, id, now).value else old(View())
    {
      if id !in buildings { return false; }
      var b := buildings[id];
      if b.needLevel > 0 && curLevel < b.needLevel { return false; }
      var cost := PtCost(b.ptCost);
      if pt < cost { return false; }
      if b.kind == BUILDING_TYPE_REBUILD {
        if b.id in builds { return false; }
        builds := builds + [b.id];
      } else {
        var role := b.roleId;
        if role == 0 { role := b.id; }
        if role in roles || role in Ids(recruits) { return false; }
        recruits := recruits + [Recruit(role, now)];
      }
      pt := pt - cost;
      summaryReady := true;
      if summaryPt == 0 { summaryPt := pt / 10; }
      return true;
    }

    /** `CityRebuildUpgradeBuff`; the cost table never lists a level 0. */
    method UpgradeBuff(costs: map<u32, LevelCosts>, maxLevels: map<u32, u32>, group: u32, count: u32) returns (ok: bool)
      requires group in costs ==> 0 !in costs[group]
      modifies this
      ensures ok <==> Upgraded(old(View()), costs, maxLevels, group, count).Some?
      ensures View() == if ok then Upgraded(old(View()), costs, maxLevels, group, count).value else old(View())
    {
      if group == 0 || count == 0 { return false; }
      if group !in costs || |costs[group]| == 0 || LevelAt(maxLevels, group) == 0 { return false; }
      var current := LevelAt(buffs, group);
      var target := Add(current, count);
      if target > LevelAt(maxLevels, group) { return false; }
      var total := SumLevels(costs[group], current, target);
      if total.None? || pt < total.value { return false; }
      pt := pt - total.value;
      buffs := buffs[group := target];
      summaryReady := true;
      if summaryPt == 0 { summaryPt := pt / 10; }
      return true;
    }

    method SumLevels(costs: LevelCosts, current: u32, target: u32) returns (total: Option<u32>)
      requires 0 !in costs
      ensures var want := LoopCost(costs, current, target);
              (total.Some? <==> want.Some?) && (want.Some? ==> total.value == Wrap(want.value))
    {
      hide Wrap;
      var sum: u32, level: u32 := 0, Add(current, 1);
      WrapSmall(0);
      while level <= target
        invariant level == 0 ==> current == WORD - 1 || target == WORD - 1
        invariant level > 0 ==> current < level && (level <= target + 1 || level == current + 1)
        invariant level > 0 ==> Span(costs, current, level - 1).Some?
        invariant level > 0 ==> sum == Wrap(Span(costs, current, level - 1).value)
        decreases if level == 0 then 0 else target - level + 1
      {
        if level !in costs {
          if level > 0 { SpanStops(costs, current, level, target); }
          return None;
        }
        WrapAdd(Span(costs, current, level - 1).value, costs[level]);
        AddWraps(sum, costs[level]);
        sum := Add(sum, costs[level]);
        level := Add(level, 1);
      }
      return Some(sum);
    }
  }

  lemma {:induction false} SpanStops(costs: LevelCosts, lo: nat, level: nat, hi: nat)
    requires lo < level <= hi < WORD && level !in costs
    ensures Span(costs, lo, hi) == None
    decreases hi
  {
    if level < hi { SpanStops(costs, lo, level, hi - 1); }
  }

  // ---------- Buff levels bought in two requests ----------

  lemma {:induction false} SpanInTwo(costs: LevelCosts, lo: nat, mid: nat, hi: nat)
    requires lo <= mid <= hi < WORD
    ensures Span(costs, lo, hi).Some? <==> Span(costs, lo, mid).Some? && Span(costs, mid, hi).Some?
    ensures Span(costs, lo, hi).Some? ==>
              Span(costs, lo, hi).value == Span(costs, lo, mid).value + Span(costs, mid, hi).value
    decreases hi
  {
    if mid < hi { SpanInTwo(costs, lo, mid, hi - 1); }
  }

  /**
   Buying `a + b` levels at once is buying `a` and then `b`: accepted alike, for the same
   points, ending on the same level. Only the pending summary may differ, being fixed by
   the first purchase that leaves ten points.
   */
  lemma UpgradeInTwo(c: City, costs: map<u32, LevelCosts>, maxLevels: map<u32, u32>, group: u32, a: u32, b: u32)
    requires a > 0 && b > 0 && LevelAt(c.buffs, group) + a + b < WORD
    requires group in costs ==>
               var total := Span(costs[group], LevelAt(c.buffs, group), LevelAt(c.buffs, group) + a + b);
               total.Some? ==> total.value < WORD
    ensures var one, first := Upgraded(c, costs, maxLevels, group, a + b), Upgraded(c, costs, maxLevels, group, a);
            && (one.Some? <==> first.Some? && Upgraded(first.value, costs, maxLevels, group, b).Some?)
            && (one.Some? ==>
                  one.value ==
                    Upgraded(first.value, costs, maxLevels, group, b).value.(summaryPt := one.value.summaryPt))
  {
    hide Wrap, Span;
    if group in costs {
      var cur := LevelAt(c.buffs, group);
      SpanInTwo(costs[group], cur, cur + a, cur + a + b);
      var x, y := Span(costs[group], cur, cur + a), Span(costs[group], cur + a, cur + a + b);
      if x.Some? && y.Some? {
        WrapSmall(x.value);
        WrapSmall(y.value);
        WrapSmall(x.value + y.value);
      }
    }
  }

  /**
   The level sum wraps too. A request for so many levels that it does is accepted whenever
   the small wrapped target is within the maximum, and costs nothing.
   */
  lemma WrappedRequestIsFree(c: City, costs: map<u32, LevelCosts>, maxLevels: map<u32, u32>, group: u32, count: u32)
    requires group != 0 && group in costs && |costs[group]| > 0 && LevelAt(maxLevels, group) > 0
    requires LevelAt(c.buffs, group) + count >= WORD
    ensures var r, was := Upgraded(c, costs, maxLevels, group, count), LevelAt(c.buffs, group);
            && (r.Some? <==> was < WORD - 1 && was + count - WORD <= LevelAt(maxLevels, group))
            && (r.Some? ==> r.value.pt == c.pt)
  {
    var total := LoopCost(costs[group], LevelAt(c.buffs, group), Add(LevelAt(c.buffs, group), count));
    assert LevelAt(c.buffs, group) < WORD - 1 ==> total == Some(0);
    WrapSmall(0);
  }

  /** An accepted request lowers the level exactly when the level sum wraps; otherwise it adds the levels. */
  lemma WrappedRequestLowers(c: City, costs: map<u32, LevelCosts>, maxLevels: map<u32, u32>, group: u32, count: u32)
    requires Upgraded(c, costs, maxLevels, group, count).Some?
    ensures var was, now := LevelAt(c.buffs, group),
                            LevelAt(Upgraded(c, costs, maxLevels, group, count).value.buffs, group);
            && (now < was <==> was + count >= WORD)
            && now == if was + count < WORD then was + count else was + count - WORD
  {
  }

  // ---------- Runs ----------

  /** Nothing is built twice, and a role is hired at most once, waiting or done. */
  ghost predicate Orderly(c: City) {
    && Distinct(c.builds) && Distinct(c.roles) && Distinct(Ids(c.recruits))
    && forall v: u32 :: v in c.roles ==> v !in Ids(c.recruits)
  }

  datatype Config = Config(buildings: map<u32, Building>, costs: map<u32, LevelCosts>, maxLevels: map<u32, u32>)

  datatype Event = EndRecruit(roles: seq<u32>) | Build(id: u32, now: u32) | UpgradeBuff(group: u32, count: u32)

  function Tried(c: City, e: Event, cfg: Config): Option<City> {
    match e
    case EndRecruit(roles) => EndedRecruit(c, roles)
    case Build(id, now) => Built(c, cfg.buildings, id, now)
    case UpgradeBuff(group, count) => Upgraded(c, cfg.costs, cfg.maxLevels, group, count)
  }

  /** A refused request leaves the city alone. */
  function Next(c: City, e: Event, cfg: Config): City {
    var r := Tried(c, e, cfg);
    if r.Some? then r.value else c
  }

  /**
   The price of an accepted request: what the tables ask for, summed in 32 bits, and nothing
   if the level sum wraps.
   */
  function Price(c: City, e: Event, cfg: Config): nat {
    if Tried(c, e, cfg).None? then 0
    else match e
         case EndRecruit(_) => 0
         case Build(id, _) => if id in cfg.buildings then PtCost(cfg.buildings[id].ptCost) else 0
         case UpgradeBuff(group, count) =>
           if LevelAt(c.buffs, group) + count < WORD && group in cfg.costs then
             var total := Span(cfg.costs[group], LevelAt(c.buffs, group), LevelAt(c.buffs, group) + count);
             if total.Some? then Wrap(total.value) else 0
           else 0
  }

  function Run(c: City, events: seq<Event>, cfg: Config): City
    decreases |events|
  {
    if |events| == 0 then c else Run(Next(c, events[0], cfg), events[1..], cfg)
  }

  function Spent(c: City, events: seq<Event>, cfg: Config): nat
    decreases |events|
  {
    if |events| == 0 then 0 else Price(c, events[0], cfg) + Spent(Next(c, events[0], cfg), events[1..], cfg)
  }

  /** Every role ever hired is still there. */
  ghost predicate KeepsRoles(c: City, d: City) {
    && (forall v: u32 :: v in c.roles ==> v in d.roles)
    && (forall v: u32 :: v in Ids(c.recruits) ==> v in Ids(d.recruits) || v in d.roles)
    && (forall v: u32 :: v in c.builds ==> v in d.builds)
  }

  lemma NextIsOrderly(c: City, e: Event, cfg: Config)
    requires Orderly(c)
    ensures Orderly(Next(c, e, cfg)) && KeepsRoles(c, Next(c, e, cfg))
    ensures Next(c, e, cfg).pt + Price(c, e, cfg) == c.pt
  {
    hide Wrap;
    match e {
      case EndRecruit(roles) =>
        if Tried(c, e, cfg).Some? {
          var done := Dedupe(roles);
          assert forall v: u32 :: v in c.roles + done <==> v in c.roles || v in done;
          assert forall v :: v in done ==> v in Ids(c.recruits);
        }
      case Build(id, now) =>
        if Tried(c, e, cfg).Some? && cfg.buildings[id].kind != BUILDING_TYPE_REBUILD {
          var role := RoleOf(cfg.buildings[id]);
          assert Ids(c.recruits + [Recruit(role, now)]) == Ids(c.recruits) + [role];
        }
      case UpgradeBuff(group, count) => {
        hide Span;
        if Tried(c, e, cfg).Some? && LevelAt(c.buffs, group) + count >= WORD {
          WrapSmall(0);
          SpanEmpty(cfg.costs[group], LevelAt(c.buffs, group), Add(LevelAt(c.buffs, group), count));
        }
      }
    }
  }

  lemma SpanEmpty(costs: LevelCosts, lo: nat, hi: nat)
    requires hi <= lo && hi < WORD
    ensures Span(costs, lo, hi) == Some(0)
  {
  }

  /**
   Over any run nothing is built or hired twice, no role is lost, and the points left
   plus the prices of everything accepted are the points there were.
   */
  lemma {:induction false} RunIsOrderly(c: City, events: seq<Event>, cfg: Config)
    requires Orderly(c)
    ensures var end := Run(c, events, cfg);
            Orderly(end) && KeepsRoles(c, end) && end.pt + Spent(c, events, cfg) == c.pt
    decreases |events|
  {
    hide Next, Price, Orderly;
    if |events| > 0 {
      NextIsOrderly(c, events[0], cfg);
      RunIsOrderly(Next(c, events[0], cfg), events[1..], cfg);
    }
  }
}
