/** What a catch-up of the dorm costs and pays, in the numbers of the tables and the clock alone. */
module DormBill {
  import opened Division
  import opened Options
  import opened Word32
  import opened Dorm
  import ShipExp

  /** The places of the roster whose ship trains (state 5) or rests (state 2). */
  function Lodging(ships: seq<ShipRow>): set<nat> {
    set i: nat | i < |ships| && (ships[i].state == 5 || ships[i].state == 2)
  }

  function InTraining(ships: seq<ShipRow>): set<nat> {
    set i: nat | i < |ships| && ships[i].state == 5
  }

  lemma OneLodgerMore(ships: seq<ShipRow>)
    requires |ships| > 0
    ensures |Lodging(ships)| == |Lodging(ships[..|ships| - 1])| + Here(ships[|ships| - 1])
  {
    var n := |ships| - 1;
    var before, after := Lodging(ships[..n]), Lodging(ships);
    if ships[n].state == 5 || ships[n].state == 2 { assert after == before + {n}; } else { assert after == before; }
  }

  lemma OneTraineeMore(ships: seq<ShipRow>)
    requires |ships| > 0
    ensures |InTraining(ships)| == |InTraining(ships[..|ships| - 1])| + Training(ships[|ships| - 1])
  {
    var n := |ships| - 1;
    var before, after := InTraining(ships[..n]), InTraining(ships);
    if ships[n].state == 5 { assert after == before + {n}; } else { assert after == before; }
  }

  /** Both counts of the handler are sizes of sets of places. */
  lemma {:induction false} CountsAreSizes(ships: seq<ShipRow>)
    ensures Total(ships, Here) == |Lodging(ships)|
    ensures Total(ships, Training) == |InTraining(ships)|
    decreases |ships|
  {
    hide Here, Training;
    if |ships| == 0 {
      assert Lodging(ships) == {} && InTraining(ships) == {};
    } else {
      CountsAreSizes(ships[..|ships| - 1]);
      hide Lodging, InTraining;
      OneLodgerMore(ships);
      OneTraineeMore(ships);
    }
  }

  /** The number of ticks a catch-up grants: those that are over, as far as the food goes. */
  function TicksPaid(elapsed: nat, time: nat, food: nat, bill: nat): nat
    requires time > 0 && bill > 0
  {
    if elapsed / time <= food / bill then elapsed / time else food / bill
  }

  /** A ship after `k` ticks, counter by counter and modulo 2^32. */
  ghost predicate Earned(s: ShipRow, r: ShipRow, t: LevelTemplate, k: nat) {
    && r.id == s.id && r.growth == s.growth && r.intimacy == s.intimacy && r.state == s.state && r.info1 == s.info1
    && (s.state != 5 && s.state != 2 ==> r == s)
    && (s.state == 5 || s.state == 2 ==>
          r.info3 == (s.info3 + k) % WORD && r.info4 == (s.info4 + k * (1 + t.comfortable / 10)) % WORD)
    && (s.state == 5 ==> r.info2 == (s.info2 + k * t.exp) % WORD)
    && (s.state == 2 ==> r.info2 == s.info2)
  }

  lemma AddMul(x: u32, c: u32, k: u32)
    ensures Add(x, Mul(c, k)) == (x + k * c) % WORD
  {
    WrapSmall(x);
    WrapSum(x, c * k);
    assert c * k == k * c;
  }

  lemma ShipEarns(s: ShipRow, t: LevelTemplate, k: u32)
    ensures Earned(s, ShipJump(s, t, k), t, k)
  {
    AddMul(s.info2, t.exp, k);
    AddMul(s.info3, 1, k);
    AddMul(s.info4, CoinPerTick(t), k);
  }

  /** A catch-up that grants `k > 0` ticks on a bill of `bill` a tick. */
  ghost predicate Granting(d: Dorm, t: LevelTemplate, now: u32, bill: nat, k: nat, r: Dorm) {
    var m := |InTraining(d.ships)|;
    && k > 0
    && r.food == d.food - k * bill
    && r.loadFood == (d.loadFood + k * bill) % WORD
    && r.loadExp == (d.loadExp + k * (t.exp * m)) % WORD
    && r.loadTime == now
    && r.updatedAt == d.updatedAt + k * t.time <= now
    && r.nextTimestamp == (if m % WORD > 0 && d.food - k * bill >= bill
                           then (d.updatedAt + k * t.time + t.time) % WORD else 0)
    && |r.ships| == |d.ships|
    && forall i :: 0 <= i < |d.ships| ==> Earned(d.ships[i], r.ships[i], t, k)
  }

  /**
   The whole catch-up, case by case. `bill` is what one tick eats: the template's
   consumption for every ship in the dorm, training or resting, as a 32-bit word.
   */
  lemma TickInNumbers(d: Dorm, t: LevelTemplate, now: u32)
    requires t.time > 0
    ensures var r, bill := Ticked(d, Some(t), now), t.consume * |Lodging(d.ships)| % WORD;
            if Lodging(d.ships) == {} then r == d.(nextTimestamp := 0, updatedAt := now)
            else if d.updatedAt == 0 then r == d.(updatedAt := now)
            else if bill == 0 || now < d.updatedAt + t.time then r == d
            else if d.food < bill then r == d.(nextTimestamp := 0, updatedAt := now)
            else Granting(d, t, now, bill, TicksPaid(now - d.updatedAt, t.time, d.food, bill), r)
  {
    hide PerTickFood, Simulate, Granting, Total;
    CountsAreSizes(d.ships);
    BillIs(d, t);
    assert |Lodging(d.ships)| == 0 <==> Lodging(d.ships) == {};
    if Lodging(d.ships) != {} && d.updatedAt > 0 && d.updatedAt + t.time <= now && 0 < PerTickFood(d, t) <= d.food {
      TickGrants(d, t, now);
    }
  }

  /** Without a template or a tick length nothing happens. */
  lemma NoTemplateNoTick(d: Dorm, tpl: Option<LevelTemplate>, now: u32)
    requires tpl.None? || tpl.value.time == 0
    ensures Ticked(d, tpl, now) == d
  {
  }

  lemma TickGrants(d: Dorm, t: LevelTemplate, now: u32)
    requires t.time > 0 && d.updatedAt > 0 && d.updatedAt + t.time <= now && 0 < PerTickFood(d, t) <= d.food
    requires Total(d.ships, Here) != 0
    ensures var bill := PerTickFood(d, t);
            Granting(d, t, now, bill, TicksPaid(now - d.updatedAt, t.time, d.food, bill), Ticked(d, Some(t), now))
  {
    hide PerTickFood, Simulate, Jump, Total, InTraining, Earned, Wrap;
    var bill := PerTickFood(d, t);
    var k := TicksPaid(now - d.updatedAt, t.time, d.food, bill);
    GrantedFits(d.updatedAt, t.time, d.food, bill, now);
    MulLe(1, t.time, k);
    MulLe(1, bill, k);
    CatchUpIsSimulation(d, t, now, k);
    JumpInNumbers(d, t, k);
    CountsAreSizes(d.ships);
    WrapIs(|InTraining(d.ships)|);
    var stamp: u32 := d.updatedAt + k * t.time;
    AddWraps(stamp, t.time);
    WrapIs(stamp + t.time);
  }

  lemma BillIs(d: Dorm, t: LevelTemplate)
    ensures PerTickFood(d, t) == t.consume * |Lodging(d.ships)| % WORD
    ensures PerTickExp(d, t) == t.exp * |InTraining(d.ships)| % WORD
  {
    hide Wrap;
    CountsAreSizes(d.ships);
    WrapMul(t.consume, |Lodging(d.ships)|);
    WrapMul(t.exp, |InTraining(d.ships)|);
    WrapIs(t.consume * |Lodging(d.ships)|);
    WrapIs(t.exp * |InTraining(d.ships)|);
  }

  lemma WrapIs(n: int)
    ensures Wrap(n) == n % WORD
  {
  }

  lemma StampIs(x: u32, time: u32, k: u32)
    requires x + k * time < WORD
    ensures Add(x, Mul(k, time)) == x + k * time
  {
    hide Wrap;
    MulLe(0, k, time);
    WrapSmall(k * time);
  }

  lemma JumpInNumbers(d: Dorm, t: LevelTemplate, k: u32)
    requires k * PerTickFood(d, t) <= d.food && d.updatedAt + k * t.time < WORD
    ensures var r, bill, m := Jump(d, t, k), PerTickFood(d, t), |InTraining(d.ships)|;
            && r.food == d.food - k * bill
            && r.loadFood == (d.loadFood + k * bill) % WORD
            && r.loadExp == (d.loadExp + k * (t.exp * m)) % WORD
            && r.updatedAt == d.updatedAt + k * t.time
            && |r.ships| == |d.ships|
            && forall i :: 0 <= i < |d.ships| ==> Earned(d.ships[i], r.ships[i], t, k)
  {
    hide PerTickFood, PerTickExp, Earned, ShipJump, Mul, Wrap, Add, Sub;
    BillIs(d, t);
    FoodExact(d.food, PerTickFood(d, t), k);
    AddMul(d.loadFood, PerTickFood(d, t), k);
    StampIs(d.updatedAt, t.time, k);
    AddMul(d.loadExp, PerTickExp(d, t), k);
    WordsOf(d.loadExp, k, t.exp * |InTraining(d.ships)|);
    forall i | 0 <= i < |d.ships| ensures Earned(d.ships[i], ShipJump(d.ships[i], t, k), t, k) {
      ShipEarns(d.ships[i], t, k);
    }
  }

  lemma WordsOf(x: int, k: nat, y: int)
    ensures (x + k * (y % WORD)) % WORD == (x + k * y) % WORD
  {
    var q := y / WORD;
    assert y == y % WORD + q * WORD;
    assert k * y == k * (y % WORD) + k * q * WORD;
    WrapShift(x + k * (y % WORD), k * q);
    WrapIs(x + k * (y % WORD));
    WrapIs(x + k * y);
  }

  /** An instance: a single resting ship eats as well, and is paid two ticks. */
  lemma RestingShipEats(s: ShipRow, d: Dorm)
    requires s.state == 2 && s.info3 == 0 && s.info4 == 0 && d.ships == [s]
    requires d.food == 100 && d.updatedAt == 1000
    ensures var r := Ticked(d, Some(LevelTemplate(5, 10, 60, 20)), 1120);
            r.food == 90 && r.updatedAt == 1120 && r.ships == [s.(info3 := 2, info4 := 6)]
  {
    var t := LevelTemplate(5, 10, 60, 20);
    hide Ticked;
    assert Lodging(d.ships) == {0};
    TickInNumbers(d, t, 1120);
  }

  // ---------- A stay ----------

  /** Entering to train (kind 1) is state 5 with an empty tally, entering to rest (kind 2) is state 2. */
  lemma EnterInRows(d: Dorm, id: u32, kind: u32, now: u32)
    requires kind == 1 || kind == 2
    ensures Entered(d, id, kind, now).Some? <==> exists i :: 0 <= i < |d.ships| && d.ships[i].id == id
    ensures Entered(d, id, kind, now).Some? ==>
              var e, i := Entered(d, id, kind, now).value, Find(d.ships, id);
              && i < |d.ships| && d.ships[i].id == id && |e.ships| == |d.ships|
              && e.ships[i].state == (if kind == 1 then 5 else 2) && e.ships[i].info1 == now
              && e.ships[i].info2 == (if kind == 1 then 0 else d.ships[i].info2)
              && e.ships[i] == d.ships[i].(state := e.ships[i].state, info1 := now, info2 := e.ships[i].info2)
              && (forall j :: 0 <= j < |d.ships| && j != i ==> e.ships[j] == d.ships[j])
              && e.food == d.food && e.updatedAt == d.updatedAt && e.loadFood == d.loadFood && e.loadExp == d.loadExp
              && (if kind == 1 && d.nextTimestamp == 0
                  then e.nextTimestamp == (now + 15) % WORD && e.loadTime == now
                  else e.nextTimestamp == d.nextTimestamp && e.loadTime == d.loadTime)
  {
    assert Add(now, 15) == (now + 15) % WORD;
  }

  /** The ticks that a catch-up grants in all cases. */
  ghost function TicksOf(d: Dorm, t: LevelTemplate, now: u32): nat
    requires t.time > 0
  {
    var bill := t.consume * |Lodging(d.ships)| % WORD;
    if Lodging(d.ships) == {} || d.updatedAt == 0 || bill == 0 || now < d.updatedAt + t.time || d.food < bill then 0
    else TicksPaid(now - d.updatedAt, t.time, d.food, bill)
  }

  lemma TickEarns(d: Dorm, t: LevelTemplate, now: u32, i: nat)
    requires t.time > 0 && i < |d.ships|
    ensures var r := Ticked(d, Some(t), now);
            |r.ships| == |d.ships| && Earned(d.ships[i], r.ships[i], t, TicksOf(d, t, now))
  {
    hide Ticked;
    TickInNumbers(d, t, now);
  }

  lemma SameIds(ships: seq<ShipRow>, after: seq<ShipRow>, id: u32)
    requires |after| == |ships| && forall j :: 0 <= j < |ships| ==> after[j].id == ships[j].id
    ensures Find(after, id) == Find(ships, id)
  {
    var i, k := Find(ships, id), Find(after, id);
    assert i < |ships| ==> after[i].id == id;
    assert k < |ships| ==> ships[k].id == id;
  }

  /**
   A stay from entering to leaving: the ship leaves with what one gain of the ticks'
   experience makes of it if it trained, and its four tallies are emptied. The leaving
   fails exactly if that gain does.
   */
  lemma StayInNumbers(table: ShipExp.LevelTable, d: Dorm, t: LevelTemplate, id: u32, now: u32, out: u32, left: u32)
    requires t.time > 0 && Entered(d, id, 1, now).Some?
    ensures var e, i := Entered(d, id, 1, now).value, Find(d.ships, id);
            var gain := TicksOf(e, t, out) * t.exp % WORD;
            var x, was := Exited(table, e, Some(t), id, out, left), d.ships[i];
            && (x.Some? <==> ShipExp.Gain(table, was.growth, gain).Grown?)
            && (x.Some? ==>
                  && |x.value.ships| == |d.ships|
                  && x.value.ships[i] == was.(growth := ShipExp.Gain(table, was.growth, gain).ship, state := 0,
                                              info1 := left, info2 := 0, info3 := 0, info4 := 0)
                  && forall j :: 0 <= j < |d.ships| && j != i ==>
                       Earned(d.ships[j], x.value.ships[j], t, TicksOf(e, t, out)))
  {
    hide Ticked, TicksOf, ShipExp.Gain, Entered;
    EnterInRows(d, id, 1, now);
    var e, i := Entered(d, id, 1, now).value, Find(d.ships, id);
    var r := Ticked(e, Some(t), out);
    forall j: nat | j < |e.ships|
      ensures |r.ships| == |e.ships| && Earned(e.ships[j], r.ships[j], t, TicksOf(e, t, out))
    {
      TickEarns(e, t, out, j);
    }
    SameIds(d.ships, e.ships, id);
    SameIds(e.ships, r.ships, id);
  }
}
