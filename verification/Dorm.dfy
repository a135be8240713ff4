/**
 The dorm: a lazy catch-up simulation that grants whole ticks of food, experience,
 intimacy and coins since the last stamp, and the handlers that draw the accruals.
 */
module Dorm {
  import opened Division
  import opened Options
  import opened Word32
  import ShipExp

  const TRAIN: u32 := 5
  const REST: u32 := 2

  datatype LevelTemplate = LevelTemplate(consume: u32, exp: u32, time: u32, comfortable: u32)

  /** An `owned_ships` row, reduced to what the dorm reads and writes. */
  datatype ShipRow = ShipRow(id: u32, growth: ShipExp.Ship, intimacy: u32, state: u32,
                             info1: u32, info2: u32, info3: u32, info4: u32)

  datatype Dorm = Dorm(food: u32, loadFood: u32, loadExp: u32, loadTime: u32,
                       nextTimestamp: u32, updatedAt: u32, ships: seq<ShipRow>)

  predicate InDorm(s: ShipRow) {
    s.state == TRAIN || s.state == REST
  }

  // ---------- Sums over the roster ----------

  ghost function Total(ships: seq<ShipRow>, f: ShipRow -> int): int {
    if |ships| == 0 then 0 else Total(ships[..|ships| - 1], f) + f(ships[|ships| - 1])
  }

  ghost function Here(s: ShipRow): int {
    if InDorm(s) then 1 else 0
  }

  ghost function Training(s: ShipRow): int {
    if s.state == TRAIN then 1 else 0
  }

  lemma {:induction false} TotalShift(ships: seq<ShipRow>, after: seq<ShipRow>, f: ShipRow -> int, g: ShipRow -> int)
    requires |after| == |ships|
    requires forall i :: 0 <= i < |ships| ==> f(after[i]) == f(ships[i]) + g(ships[i])
    ensures Total(after, f) == Total(ships, f) + Total(ships, g)
  {
    if |ships| != 0 {
      TotalShift(ships[..|ships| - 1], after[..|ships| - 1], f, g);
    }
  }

  lemma {:induction false} TotalScale(ships: seq<ShipRow>, f: ShipRow -> int, g: ShipRow -> int, c: int)
    requires forall i :: 0 <= i < |ships| ==> f(ships[i]) == c * g(ships[i])
    ensures Total(ships, f) == c * Total(ships, g)
  {
    if |ships| != 0 {
      TotalScale(ships[..|ships| - 1], f, g, c);
      var last := ships[|ships| - 1];
      assert c * (Total(ships[..|ships| - 1], g) + g(last)) == c * Total(ships[..|ships| - 1], g) + c * g(last);
    }
  }

  lemma {:induction false} TotalUpdate(ships: seq<ShipRow>, i: nat, row: ShipRow, f: ShipRow -> int)
    requires i < |ships|
    ensures Total(ships[i := row], f) == Total(ships, f) - f(ships[i]) + f(row)
  {
    var n := |ships| - 1;
    if i == n {
      assert ships[i := row][..n] == ships[..n];
    } else {
      assert ships[i := row][..n] == ships[..n][i := row];
      TotalUpdate(ships[..n], i, row, f);
    }
  }

  lemma {:induction false} TotalHolds(ships: seq<ShipRow>, f: ShipRow -> int)
    requires forall i :: 0 <= i < |ships| ==> f(ships[i]) >= 0
    ensures 0 <= Total(ships, f)
    ensures forall i :: 0 <= i < |ships| ==> f(ships[i]) <= Total(ships, f)
  {
    if |ships| != 0 {
      TotalHolds(ships[..|ships| - 1], f);
      assert forall i :: 0 <= i < |ships| - 1 ==> ships[..|ships| - 1][i] == ships[i];
    }
  }

  // ---------- Tick by tick ----------

  function CoinPerTick(t: LevelTemplate): u32 {
    if t.comfortable > 0 then 1 + t.comfortable / 10 else 1
  }

  ghost function PerTickFood(d: Dorm, t: LevelTemplate): u32 {
    Mul(t.consume, Wrap(Total(d.ships, Here)))
  }

  ghost function PerTickExp(d: Dorm, t: LevelTemplate): u32 {
    Mul(t.exp, Wrap(Total(d.ships, Training)))
  }

  ghost function ShipStep(s: ShipRow, t: LevelTemplate): ShipRow {
    if !InDorm(s) then s
    else s.(info2 := if s.state == TRAIN then Add(s.info2, t.exp) else s.info2,
            info3 := Add(s.info3, 1),
            info4 := Add(s.info4, CoinPerTick(t)))
  }

  ghost function ShipsStep(ships: seq<ShipRow>, t: LevelTemplate): seq<ShipRow> {
    seq(|ships|, i requires 0 <= i < |ships| => ShipStep(ships[i], t))
  }

  /** One tick of the dorm clock. */
  ghost function Step(d: Dorm, t: LevelTemplate): Dorm {
    d.(food := Sub(d.food, PerTickFood(d, t)),
       loadFood := Add(d.loadFood, PerTickFood(d, t)),
       loadExp := Add(d.loadExp, PerTickExp(d, t)),
       updatedAt := Add(d.updatedAt, t.time),
       ships := ShipsStep(d.ships, t))
  }

  /** The next tick is over by `now` and its food is there. */
  ghost predicate TickDue(d: Dorm, t: LevelTemplate, now: u32) {
    d.updatedAt + t.time <= now && PerTickFood(d, t) <= d.food
  }

  /** The eager simulator: tick after tick, as long as one is due. */
  ghost function Simulate(d: Dorm, t: LevelTemplate, now: u32): Dorm
    requires t.time > 0
    decreases WORD - d.updatedAt
  {
    if TickDue(d, t, now) then Simulate(Step(d, t), t, now) else d
  }

  /** What one call of the catch-up handler does, in terms of the eager simulator. */
  ghost function Ticked(d: Dorm, tpl: Option<LevelTemplate>, now: u32): Dorm {
    if tpl.None? || tpl.value.time == 0 then d
    else if Total(d.ships, Here) == 0 then d.(nextTimestamp := 0, updatedAt := now)
    else if d.updatedAt == 0 then d.(updatedAt := now)
    else
      var t, per := tpl.value, PerTickFood(d, tpl.value);
      if now < d.updatedAt + t.time || per == 0 then d
      else if d.food < per then d.(nextTimestamp := 0, updatedAt := now)
      else
        var e := Simulate(d, t, now);
        e.(loadTime := now,
           nextTimestamp := if Wrap(Total(d.ships, Training)) > 0 && e.food >= per
                            then Add(e.updatedAt, t.time) else 0)
  }

  lemma {:induction false} RosterKept(ships: seq<ShipRow>, t: LevelTemplate)
    ensures Total(ShipsStep(ships, t), Here) == Total(ships, Here)
    ensures Total(ShipsStep(ships, t), Training) == Total(ships, Training)
  {
    if |ships| != 0 {
      var n := |ships| - 1;
      RosterKept(ships[..n], t);
      assert ShipsStep(ships, t)[..n] == ShipsStep(ships[..n], t);
    }
  }

  lemma StepKeepsRates(d: Dorm, t: LevelTemplate)
    ensures var e := Step(d, t);
            && Total(e.ships, Here) == Total(d.ships, Here)
            && Total(e.ships, Training) == Total(d.ships, Training)
            && PerTickFood(e, t) == PerTickFood(d, t) && PerTickExp(e, t) == PerTickExp(d, t)
  {
    RosterKept(d.ships, t);
  }

  // ---------- All due ticks at once ----------

  /** The whole ticks between `last` and `now`. */
  ghost function Elapsed(last: int, time: int, now: int): nat
    requires time > 0
  {
    if now > last then (now - last) / time else 0
  }

  /** The ticks that fit between `last` and `now` and that `food` pays for. */
  ghost function Granted(last: int, time: int, food: nat, per: int, now: int): nat
    requires time > 0 && per > 0
  {
    if Elapsed(last, time, now) <= food / per then Elapsed(last, time, now) else food / per
  }

  lemma GrantedFits(last: int, time: int, food: nat, per: int, now: int)
    requires time > 0 && per > 0
    ensures Granted(last, time, food, per, now) * per <= food
    ensures now > last ==> Granted(last, time, food, per, now) * time <= now - last
    ensures Granted(last, time, food, per, now) == 0 <==> food < per || now < last + time
  {
    var k := Granted(last, time, food, per, now);
    MulLe(k, food / per, per);
    DivBounds(food, per);
    DivZero(food, per);
    if now > last {
      MulLe(k, (now - last) / time, time);
      DivBounds(now - last, time);
      DivZero(now - last, time);
    }
  }

  /** Granting the ticks left after one of them was taken. */
  lemma GrantedAfterOne(last: int, time: int, food: nat, per: int, now: int)
    requires time > 0 && per > 0 && food >= per && now >= last + time
    ensures Granted(last, time, food, per, now) == 1 + Granted(last + time, time, food - per, per, now)
  {
    DivMinus(food, per, 1);
    DivMinus(now - last, time, 1);
  }

  /** A counter that grows by `c`, `k` times over. */
  ghost function Accrue(x: u32, c: u32, k: nat): u32
    decreases k
  {
    if k == 0 then x else Accrue(Add(x, c), c, k - 1)
  }

  lemma {:induction false} AccrueClosed(x: u32, c: u32, k: u32)
    ensures Accrue(x, c, k) == Add(x, Mul(c, k))
    decreases k
  {
    if k != 0 {
      AccrueClosed(Add(x, c), c, k - 1);
      AddOnce(x, c, c * (k - 1));
      assert c + c * (k - 1) == c * k;
    }
  }

  lemma AddOnce(x: u32, c: u32, m: int)
    ensures Add(Add(x, c), Wrap(m)) == Add(x, Wrap(c + m))
  {
    var part, rest := x + c, c + m;
    WrapSmall(x);
    WrapSmall(c);
    WrapSum(x, c);
    WrapSum(part, m);
    WrapSum(x, rest);
    assert part + m == x + rest;
  }

  /** All counters of a ship after `k` ticks, computed in one go. */
  ghost function ShipJump(s: ShipRow, t: LevelTemplate, k: u32): ShipRow {
    if !InDorm(s) then s
    else s.(info2 := if s.state == TRAIN then Add(s.info2, Mul(t.exp, k)) else s.info2,
            info3 := Add(s.info3, Mul(1, k)),
            info4 := Add(s.info4, Mul(CoinPerTick(t), k)))
  }

  /** The whole dorm after `k` ticks, computed in one go. */
  ghost function Jump(d: Dorm, t: LevelTemplate, k: u32): Dorm {
    d.(food := Sub(d.food, Mul(PerTickFood(d, t), k)),
       loadFood := Add(d.loadFood, Mul(PerTickFood(d, t), k)),
       loadExp := Add(d.loadExp, Mul(PerTickExp(d, t), k)),
       updatedAt := Add(d.updatedAt, Mul(k, t.time)),
       ships := seq(|d.ships|, i requires 0 <= i < |d.ships| => ShipJump(d.ships[i], t, k)))
  }

  ghost function Steps(d: Dorm, t: LevelTemplate, k: nat): Dorm
    decreases k
  {
    if k == 0 then d else Steps(Step(d, t), t, k - 1)
  }

  /** Each field of `k` single ticks is a counter accrued `k` times. */
  lemma {:induction false} StepsAccrue(d: Dorm, t: LevelTemplate, k: nat)
    requires k * PerTickFood(d, t) <= d.food
    ensures var e := Steps(d, t, k);
            && e.food == d.food - k * PerTickFood(d, t)
            && e.loadFood == Accrue(d.loadFood, PerTickFood(d, t), k)
            && e.loadExp == Accrue(d.loadExp, PerTickExp(d, t), k)
            && e.updatedAt == Accrue(d.updatedAt, t.time, k)
            && e.loadTime == d.loadTime && e.nextTimestamp == d.nextTimestamp
            && |e.ships| == |d.ships|
            && forall i :: 0 <= i < |d.ships| ==> e.ships[i] == ShipSteps(d.ships[i], t, k)
    decreases k
  {
    if k != 0 {
      StepKeepsRates(d, t);
      var per := PerTickFood(d, t);
      assert k * per == per + (k - 1) * per;
      MulLe(0, k - 1, per);
      StepsAccrue(Step(d, t), t, k - 1);
    }
  }

  ghost function ShipSteps(s: ShipRow, t: LevelTemplate, k: nat): ShipRow
    decreases k
  {
    if k == 0 then s else ShipSteps(ShipStep(s, t), t, k - 1)
  }

  lemma {:induction false} ShipStepsAccrue(s: ShipRow, t: LevelTemplate, k: nat)
    ensures ShipSteps(s, t, k) ==
            if !InDorm(s) then s
            else s.(info2 := if s.state == TRAIN then Accrue(s.info2, t.exp, k) else s.info2,
                    info3 := Accrue(s.info3, 1, k),
                    info4 := Accrue(s.info4, CoinPerTick(t), k))
    decreases k
  {
    if k != 0 { ShipStepsAccrue(ShipStep(s, t), t, k - 1); }
  }

  /** Multiplying by the number of ticks does what that many ticks do. */
  lemma StepsJump(d: Dorm, t: LevelTemplate, k: u32)
    requires k * PerTickFood(d, t) <= d.food
    ensures Steps(d, t, k) == Jump(d, t, k)
  {
    StepsAccrue(d, t, k);
    AccrueClosed(d.loadFood, PerTickFood(d, t), k);
    AccrueClosed(d.loadExp, PerTickExp(d, t), k);
    AccrueClosed(d.updatedAt, t.time, k);
    FoodExact(d.food, PerTickFood(d, t), k);
    assert Mul(k, t.time) == Mul(t.time, k);
    forall i | 0 <= i < |d.ships|
      ensures ShipSteps(d.ships[i], t, k) == ShipJump(d.ships[i], t, k)
    {
      var s := d.ships[i];
      ShipStepsAccrue(s, t, k);
      AccrueClosed(s.info2, t.exp, k);
      AccrueClosed(s.info3, 1, k);
      AccrueClosed(s.info4, CoinPerTick(t), k);
    }
    assert Steps(d, t, k).ships == Jump(d, t, k).ships;
  }

  lemma FoodExact(food: u32, per: u32, k: u32)
    requires k * per <= food
    ensures Sub(food, Mul(per, k)) == food - k * per
  {
    assert per * k == k * per;
    MulLe(0, k, per);
    assert Mul(per, k) == k * per;
  }

  /** The eager simulator takes exactly the granted ticks. */
  lemma {:induction false} SimulateTakesGranted(d: Dorm, t: LevelTemplate, now: u32)
    requires t.time > 0 && PerTickFood(d, t) > 0
    ensures Simulate(d, t, now) == Steps(d, t, Granted(d.updatedAt, t.time, d.food, PerTickFood(d, t), now))
    decreases WORD - d.updatedAt
  {
    var per := PerTickFood(d, t);
    GrantedFits(d.updatedAt, t.time, d.food, per, now);
    if TickDue(d, t, now) {
      StepKeepsRates(d, t);
      GrantedAfterOne(d.updatedAt, t.time, d.food, per, now);
      SimulateTakesGranted(Step(d, t), t, now);
    }
  }

  /** The division-based catch-up of the handler is the eager simulation. */
  lemma CatchUpIsSimulation(d: Dorm, t: LevelTemplate, now: u32, k: u32)
    requires t.time > 0 && PerTickFood(d, t) > 0
    requires k == Granted(d.updatedAt, t.time, d.food, PerTickFood(d, t), now)
    ensures Jump(d, t, k) == Simulate(d, t, now)
  {
    GrantedFits(d.updatedAt, t.time, d.food, PerTickFood(d, t), now);
    SimulateTakesGranted(d, t, now);
    StepsJump(d, t, k);
  }

  // ---------- The handlers ----------

  /** The first row with this id; past the end if there is none. */
  function Find(ships: seq<ShipRow>, id: u32): (i: nat)
    ensures i <= |ships|
    ensures i < |ships| ==> ships[i].id == id
    ensures forall j :: 0 <= j < i ==> ships[j].id != id
  {
    if ships == [] then 0
    else if ships[0].id == id then 0
    else 1 + Find(ships[1..], id)
  }

  datatype World = World(dorm: Dorm, coins: nat)

  /** `AddDormShip`: kind 1 trains, kind 2 rests, any other kind changes nothing. */
  ghost function Entered(d: Dorm, id: u32, kind: u32, now: u32): Option<Dorm> {
    var i := Find(d.ships, id);
    if i == |d.ships| then None
    else if kind == 1 then
      var e := d.(ships := d.ships[i := d.ships[i].(state := TRAIN, info1 := now, info2 := 0)]);
      Some(if d.nextTimestamp == 0 then e.(nextTimestamp := Add(now, 15), loadTime := now) else e)
    else if kind == 2 then
      Some(d.(ships := d.ships[i := d.ships[i].(state := REST, info1 := now)]))
    else Some(d)
  }

  /** `ExitDormShip`: tick, turn the gathered experience into levels, forfeit the rest. */
  ghost function Exited(table: ShipExp.LevelTable, d: Dorm, tpl: Option<LevelTemplate>, id: u32,
                          now: u32, left: u32): Option<Dorm> {
    var e := Ticked(d, tpl, now);
    var i := Find(e.ships, id);
    if i == |e.ships| then None
    else match ShipExp.Gain(table, e.ships[i].growth, e.ships[i].info2)
         case Failed => None
         case Grown(g) => Some(e.(ships := e.ships[i := e.ships[i].(growth := g, state := 0, info1 := left,
                                                                     info2 := 0, info3 := 0, info4 := 0)]))
  }

  function Bonded(s: ShipRow): ShipRow {
    s.(intimacy := Add(s.intimacy, s.info3), info3 := 0)
  }

  ghost function InDormCoins(s: ShipRow): int {
    if InDorm(s) then s.info4 else 0
  }

  ghost function Drained(s: ShipRow): ShipRow {
    if InDorm(s) then Bonded(s).(info4 := 0) else s
  }

  ghost function AllDrained(ships: seq<ShipRow>): seq<ShipRow> {
    seq(|ships|, i requires 0 <= i < |ships| => Drained(ships[i]))
  }

  /** `ClaimDormIntimacy`: one ship's intimacy, or everything every lodger has gathered. */
  ghost function IntimacyClaimed(w: World, id: u32): Option<World> {
    var ships := w.dorm.ships;
    if id != 0 then
      var i := Find(ships, id);
      if i == |ships| then None else Some(w.(dorm := w.dorm.(ships := ships[i := Bonded(ships[i])])))
    else
      Some(World(w.dorm.(ships := AllDrained(ships)), w.coins + Wrap(Total(ships, InDormCoins))))
  }

  /** `ClaimDormMoney`. */
  ghost function MoneyClaimed(w: World, id: u32): Option<World> {
    var ships := w.dorm.ships;
    var i := Find(ships, id);
    if i == |ships| then None
    else Some(World(w.dorm.(ships := ships[i := ships[i].(info4 := 0)]), w.coins + ships[i].info4))
  }

  // ---------- The store ----------

  /** The rows one commander's dorm lives in, and the coin balance. */
  class DormStore {
    var food: u32
    var loadFood: u32
    var loadExp: u32
    var loadTime: u32
    var nextTimestamp: u32
    var updatedAt: u32
    var ships: seq<ShipRow>
    var coins: nat

    function View(): Dorm
      reads this
    {
      Dorm(food, loadFood, loadExp, loadTime, nextTimestamp, updatedAt, ships)
    }

    /** `tickDormStateTx`. */
    method Tick(tpl: Option<LevelTemplate>, now: u32)
      modifies this
      ensures View() == Ticked(old(View()), tpl, now)
      ensures coins == old(coins)
    {
      hide Mul;
      if tpl.None? || tpl.value.time == 0 { return; }
      var t := tpl.value;
      var shipCount, trainingCount := CountShips();
      if shipCount == 0 {
        nextTimestamp, updatedAt := 0, now;
        return;
      }
      var last := updatedAt;
      if last == 0 {
        updatedAt := now;
        return;
      }
      if now <= last { return; }
      ghost var before := View();
      var ticks: u32 := (now - last) / t.time;
      DivZero(now - last, t.time);
      if ticks == 0 { return; }
      var perTickFood := Mul(t.consume, Wrap(shipCount));
      if perTickFood == 0 { return; }
      var maxTicksByFood: u32 := food / perTickFood;
      DivZero(food, perTickFood);
      if maxTicksByFood == 0 {
        nextTimestamp, updatedAt := 0, now;
        return;
      }
      if ticks > maxTicksByFood { ticks := maxTicksByFood; }
      CatchUpIsSimulation(before, t, now, ticks);
      var training := Wrap(trainingCount);
      var foodConsume := Mul(perTickFood, ticks);
      food := Sub(food, foodConsume);
      loadFood := Add(loadFood, foodConsume);
      var expGained := Mul(Mul(t.exp, training), ticks);
      loadExp := Add(loadExp, expGained);
      loadTime := now;
      updatedAt := Add(last, Mul(ticks, t.time));
      nextTimestamp := if training > 0 && food >= perTickFood then Add(updatedAt, t.time) else 0;
      AccrueShips(t, ticks);
      assert View() == Jump(before, t, ticks).(loadTime := now, nextTimestamp := nextTimestamp);
    }

    method CountShips() returns (shipCount: nat, trainingCount: nat)
      ensures shipCount == Total(ships, Here)
      ensures trainingCount == Total(ships, Training)
    {
      shipCount, trainingCount := 0, 0;
      for i := 0 to |ships|
        invariant shipCount == Total(ships[..i], Here)
        invariant trainingCount == Total(ships[..i], Training)
      {
        assert ships[..i + 1][..i] == ships[..i];
        if InDorm(ships[i]) { shipCount := shipCount + 1; }
        if ships[i].state == TRAIN { trainingCount := trainingCount + 1; }
      }
      assert ships[..|ships|] == ships;
    }

    method AccrueShips(t: LevelTemplate, ticks: u32)
      modifies `ships
      ensures ships == Jump(old(View()), t, ticks).ships
    {
      ghost var before := ships;
      for i := 0 to |ships|
        invariant |ships| == |before|
        invariant forall j :: 0 <= j < i ==> ships[j] == ShipJump(before[j], t, ticks)
        invariant forall j :: i <= j < |ships| ==> ships[j] == before[j]
      {
        if InDorm(ships[i]) {
          var ship := ships[i];
          ship := ship.(info3 := Add(ship.info3, Mul(1, ticks)));
          ship := ship.(info4 := Add(ship.info4, Mul(CoinPerTick(t), ticks)));
          if ship.state == TRAIN {
            ship := ship.(info2 := Add(ship.info2, Mul(t.exp, ticks)));
          }
          ships := ships[i := ship];
        }
      }
    }

    method Restore(d: Dorm)
      modifies this
      ensures View() == d && coins == old(coins)
    {
      food, loadFood, loadExp, loadTime := d.food, d.loadFood, d.loadExp, d.loadTime;
      nextTimestamp, updatedAt, ships := d.nextTimestamp, d.updatedAt, d.ships;
    }

    /** `AddDormShip`. */
    method Enter(id: u32, kind: u32, now: u32) returns (ok: bool)
      modifies this
      ensures ok <==> Entered(old(View()), id, kind, now).Some?
      ensures View() == (if ok then Entered(old(View()), id, kind, now).value else old(View())) && coins == old(coins)
    {
      var i := Find(ships, id);
      if i == |ships| { return false; }
      var ship := ships[i];
      if kind == 1 {
        ship := ship.(state := TRAIN, info1 := now, info2 := 0);
        if nextTimestamp == 0 {
          nextTimestamp, loadTime := Add(now, 15), now;
        }
      } else if kind == 2 {
        ship := ship.(state := REST, info1 := now);
      }
      ships := ships[i := ship];
      return true;
    }

    /** `ExitDormShip`; a failure undoes the tick as well. */
    method Exit(table: ShipExp.LevelTable, tpl: Option<LevelTemplate>, id: u32, now: u32, left: u32)
      returns (ok: bool, gained: u32)
      modifies this
      ensures ok <==> Exited(table, old(View()), tpl, id, now, left).Some?
      ensures View() == if ok then Exited(table, old(View()), tpl, id, now, left).value else old(View())
      ensures coins == old(coins)
      ensures ok ==> var e := Ticked(old(View()), tpl, now); gained == e.ships[Find(e.ships, id)].info2
    {
      var before := View();
      Tick(tpl, now);
      var i := Find(ships, id);
      if i == |ships| {
        Restore(before);
        return false, 0;
      }
      var ship := ships[i];
      gained := ship.info2;
      var owned := new ShipExp.OwnedShip(ship.growth);
      ok := owned.ApplyExpGain(table, gained);
      if !ok {
        Restore(before);
        return false, 0;
      }
      ship := ship.(growth := owned.View(), state := 0, info1 := left, info2 := 0, info3 := 0, info4 := 0);
      ships := ships[i := ship];
    }

    /** `ClaimDormIntimacy`. */
    method ClaimIntimacy(id: u32) returns (ok: bool)
      modifies this
      ensures ok <==> IntimacyClaimed(World(old(View()), old(coins)), id).Some?
      ensures World(View(), coins) ==
              if ok then IntimacyClaimed(World(old(View()), old(coins)), id).value else World(old(View()), old(coins))
    {
      if id != 0 {
        var i := Find(ships, id);
        if i == |ships| { return false; }
        var ship := ships[i];
        if ship.info3 > 0 {
          ship := ship.(intimacy := Add(ship.intimacy, ship.info3));
        }
        ships := ships[i := ship.(info3 := 0)];
        return true;
      }
      var dormMoney := DrainLodgers();
      if dormMoney > 0 {
        coins := coins + dormMoney;
      }
      return true;
    }

    method DrainLodgers() returns (dormMoney: u32)
      modifies `ships
      ensures dormMoney == Wrap(Total(old(ships), InDormCoins))
      ensures ships == AllDrained(old(ships))
    {
      ghost var before := ships;
      dormMoney := 0;
      for i := 0 to |ships|
        invariant |ships| == |before|
        invariant dormMoney == Wrap(Total(before[..i], InDormCoins))
        invariant forall j :: 0 <= j < i ==> ships[j] == Drained(before[j])
        invariant forall j :: i <= j < |ships| ==> ships[j] == before[j]
      {
        assert before[..i + 1][..i] == before[..i];
        if InDorm(ships[i]) {
          var ship := ships[i];
          WrapSum(Total(before[..i], InDormCoins), ship.info4);
          WrapSmall(ship.info4);
          dormMoney := Add(dormMoney, ship.info4);
          if ship.info3 > 0 {
            ship := ship.(intimacy := Add(ship.intimacy, ship.info3));
          }
          ships := ships[i := ship.(info3 := 0, info4 := 0)];
        }
      }
      assert before[..|before|] == before;
    }

    /** `ClaimDormMoney`. */
    method ClaimMoney(id: u32) returns (ok: bool)
      modifies this
      ensures ok <==> MoneyClaimed(World(old(View()), old(coins)), id).Some?
      ensures World(View(), coins) ==
              if ok then MoneyClaimed(World(old(View()), old(coins)), id).value else World(old(View()), old(coins))
    {
      var i := Find(ships, id);
      if i == |ships| { return false; }
      var amount := ships[i].info4;
      ships := ships[i := ships[i].(info4 := 0)];
      if amount > 0 {
        coins := coins + amount;
      }
      return true;
    }
  }
}
