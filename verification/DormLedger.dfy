/** Where the dorm's coins and intimacy go, over any run of its handlers. */
module DormLedger {
  import opened Options
  import opened Word32
  import opened Dorm
  import ShipExp

  datatype Event =
    | Tick(tpl: Option<LevelTemplate>, now: u32)
    | Enter(id: u32, kind: u32, now: u32)
    | Leave(table: ShipExp.LevelTable, tpl: Option<LevelTemplate>, id: u32, now: u32, left: u32)
    | ClaimIntimacy(id: u32)
    | ClaimMoney(id: u32)

  ghost function OrElse<T>(next: Option<T>, kept: T): T {
    if next.Some? then next.value else kept
  }

  /** A request that fails changes nothing. */
  ghost function Happen(w: World, e: Event): World {
    match e
    case Tick(tpl, now) => w.(dorm := Ticked(w.dorm, tpl, now))
    case Enter(id, kind, now) => w.(dorm := OrElse(Entered(w.dorm, id, kind, now), w.dorm))
    case Leave(table, tpl, id, now, left) => w.(dorm := OrElse(Exited(table, w.dorm, tpl, id, now, left), w.dorm))
    case ClaimIntimacy(id) => OrElse(IntimacyClaimed(w, id), w)
    case ClaimMoney(id) => OrElse(MoneyClaimed(w, id), w)
  }

  ghost function Coins(s: ShipRow): int {
    s.info4
  }

  /** Intimacy a ship has or is about to be given. */
  ghost function Bond(s: ShipRow): int {
    s.intimacy + s.info3
  }

  /** What the ticks up to `now` hand out when each gives every lodger `rate`. */
  ghost function HandedOut(d: Dorm, t: LevelTemplate, now: u32, rate: nat): int
    requires t.time > 0
    decreases WORD - d.updatedAt
  {
    if TickDue(d, t, now) then rate * Total(d.ships, Here) + HandedOut(Step(d, t), t, now, rate) else 0
  }

  ghost function HandedOutBy(d: Dorm, tpl: Option<LevelTemplate>, now: u32, coins: bool): int {
    if tpl.None? || tpl.value.time == 0 || d.updatedAt == 0 || PerTickFood(d, tpl.value) == 0 then 0
    else HandedOut(d, tpl.value, now, if coins then CoinPerTick(tpl.value) else 1)
  }

  ghost function Made(w: World, e: Event, coins: bool): int {
    match e
    case Tick(tpl, now) => HandedOutBy(w.dorm, tpl, now, coins)
    case Leave(table, tpl, id, now, left) =>
      if Exited(table, w.dorm, tpl, id, now, left).Some? then HandedOutBy(w.dorm, tpl, now, coins) else 0
    case _ => 0
  }

  /** What a leaving ship gives up. */
  ghost function Lost(w: World, e: Event, coins: bool): int {
    match e
    case Leave(table, tpl, id, now, left) =>
      if Exited(table, w.dorm, tpl, id, now, left).None? then 0
      else
        var ships := Ticked(w.dorm, tpl, now).ships;
        if coins then ships[Find(ships, id)].info4 else ships[Find(ships, id)].info3
    case _ => 0
  }

  ghost function Run(w: World, events: seq<Event>): World
    decreases |events|
  {
    if events == [] then w else Run(Happen(w, events[0]), events[1..])
  }

  ghost function MadeAll(w: World, events: seq<Event>, coins: bool): int
    decreases |events|
  {
    if events == [] then 0 else Made(w, events[0], coins) + MadeAll(Happen(w, events[0]), events[1..], coins)
  }

  ghost function LostAll(w: World, events: seq<Event>, coins: bool): int
    decreases |events|
  {
    if events == [] then 0 else Lost(w, events[0], coins) + LostAll(Happen(w, events[0]), events[1..], coins)
  }

  // ---------- Ticks ----------

  lemma HereHolds(ships: seq<ShipRow>)
    ensures 0 <= Total(ships, Here)
    ensures forall i :: 0 <= i < |ships| && InDorm(ships[i]) ==> 1 <= Total(ships, Here)
  {
    TotalHolds(ships, Here);
  }

  /** One tick gives every lodger its coins, as long as no counter wraps. */
  lemma StepPays(ships: seq<ShipRow>, t: LevelTemplate)
    requires Total(ships, Coins) + CoinPerTick(t) * Total(ships, Here) < WORD
    ensures Total(ShipsStep(ships, t), Coins) == Total(ships, Coins) + CoinPerTick(t) * Total(ships, Here)
  {
    var coin := CoinPerTick(t);
    var pay := (s: ShipRow) => coin * Here(s);
    HereHolds(ships);
    TotalHolds(ships, Coins);
    forall i | 0 <= i < |ships|
      ensures Coins(ShipsStep(ships, t)[i]) == Coins(ships[i]) + pay(ships[i])
    {
      if InDorm(ships[i]) { Scale(coin, Total(ships, Here)); }
    }
    TotalShift(ships, ShipsStep(ships, t), Coins, pay);
    TotalScale(ships, pay, Here, coin);
  }

  lemma Scale(a: nat, b: int)
    requires b >= 1
    ensures a <= a * b
  {
  }

  lemma StepBonds(ships: seq<ShipRow>, t: LevelTemplate)
    requires Total(ships, Bond) + Total(ships, Here) < WORD
    ensures Total(ShipsStep(ships, t), Bond) == Total(ships, Bond) + Total(ships, Here)
  {
    HereHolds(ships);
    TotalHolds(ships, Bond);
    TotalShift(ships, ShipsStep(ships, t), Bond, Here);
  }

  ghost function Held(d: Dorm, coins: bool): int {
    Total(d.ships, if coins then Coins else Bond)
  }

  lemma {:induction false} SimulatePays(d: Dorm, t: LevelTemplate, now: u32, coins: bool)
    requires t.time > 0
    requires Held(d, coins) + HandedOut(d, t, now, if coins then CoinPerTick(t) else 1) < WORD
    ensures Held(Simulate(d, t, now), coins) ==
            Held(d, coins) + HandedOut(d, t, now, if coins then CoinPerTick(t) else 1)
    decreases WORD - d.updatedAt
  {
    if TickDue(d, t, now) {
      HandedOutHolds(Step(d, t), t, now, if coins then CoinPerTick(t) else 1);
      if coins { StepPays(d.ships, t); } else { StepBonds(d.ships, t); }
      SimulatePays(Step(d, t), t, now, coins);
    }
  }

  lemma {:induction false} HandedOutHolds(d: Dorm, t: LevelTemplate, now: u32, rate: nat)
    requires t.time > 0
    ensures 0 <= HandedOut(d, t, now, rate)
    decreases WORD - d.updatedAt
  {
    if TickDue(d, t, now) {
      HereHolds(d.ships);
      NoLess(rate, Total(d.ships, Here));
      HandedOutHolds(Step(d, t), t, now, rate);
    }
  }

  lemma NoLess(a: nat, b: nat)
    ensures 0 <= a * b
  {
  }

  lemma NoLodgersNoBill(d: Dorm, t: LevelTemplate)
    requires Total(d.ships, Here) == 0
    ensures PerTickFood(d, t) == 0
  {
  }

  lemma TickPays(d: Dorm, tpl: Option<LevelTemplate>, now: u32, coins: bool)
    requires Held(d, coins) + HandedOutBy(d, tpl, now, coins) < WORD
    ensures Held(Ticked(d, tpl, now), coins) == Held(d, coins) + HandedOutBy(d, tpl, now, coins)
    ensures 0 <= HandedOutBy(d, tpl, now, coins)
  {
    hide Mul, CoinPerTick;
    if tpl.Some? && Total(d.ships, Here) == 0 { NoLodgersNoBill(d, tpl.value); }
    if tpl.Some? && tpl.value.time > 0 && d.updatedAt != 0 && PerTickFood(d, tpl.value) != 0 {
      HandedOutHolds(d, tpl.value, now, if coins then CoinPerTick(tpl.value) else 1);
      SimulatePays(d, tpl.value, now, coins);
    }
  }

  // ---------- Claims ----------

  lemma ClaimAllMoves(w: World)
    requires Total(w.dorm.ships, Coins) < WORD
    ensures var v := IntimacyClaimed(w, 0).value;
            v.coins + Held(v.dorm, true) == w.coins + Held(w.dorm, true) && w.coins <= v.coins
  {
    var ships, after := w.dorm.ships, IntimacyClaimed(w, 0).value.dorm.ships;
    var taken := (s: ShipRow) => -InDormCoins(s);
    TotalShift(ships, after, Coins, taken);
    TotalScale(ships, taken, InDormCoins, -1);
    TotalHolds(ships, InDormCoins);
    TotalHolds(after, Coins);
  }

  lemma ClaimAllBonds(w: World)
    requires Total(w.dorm.ships, Bond) < WORD
    ensures Held(IntimacyClaimed(w, 0).value.dorm, false) == Held(w.dorm, false)
  {
    var ships, after := w.dorm.ships, IntimacyClaimed(w, 0).value.dorm.ships;
    var none := (s: ShipRow) => 0;
    TotalHolds(ships, Bond);
    TotalShift(ships, after, Bond, none);
    TotalScale(ships, none, none, 0);
  }

  // ---------- The two laws ----------

  /** Money in hand: the balance when counting coins, nothing when counting intimacy. */
  ghost function Balance(w: World, coins: bool): int {
    if coins then w.coins else 0
  }

  lemma EnterKeeps(d: Dorm, id: u32, kind: u32, now: u32, coins: bool)
    ensures Held(OrElse(Entered(d, id, kind, now), d), coins) == Held(d, coins)
  {
    var f := if coins then Coins else Bond;
    var i := Find(d.ships, id);
    if i < |d.ships| {
      TotalUpdate(d.ships, i, d.ships[i].(state := TRAIN, info1 := now, info2 := 0), f);
      TotalUpdate(d.ships, i, d.ships[i].(state := REST, info1 := now), f);
    }
  }

  lemma ClaimOneMoves(w: World, id: u32, coins: bool)
    requires id != 0 && Held(w.dorm, coins) < WORD
    ensures var v := OrElse(IntimacyClaimed(w, id), w);
            v.coins == w.coins && Held(v.dorm, coins) == Held(w.dorm, coins)
  {
    var f := if coins then Coins else Bond;
    var i := Find(w.dorm.ships, id);
    TotalHolds(w.dorm.ships, f);
    if i < |w.dorm.ships| { TotalUpdate(w.dorm.ships, i, Bonded(w.dorm.ships[i]), f); }
  }

  lemma MoneyMoves(w: World, id: u32, coins: bool)
    ensures var v := OrElse(MoneyClaimed(w, id), w);
            && Balance(v, coins) + Held(v.dorm, coins) == Balance(w, coins) + Held(w.dorm, coins)
            && w.coins <= v.coins
  {
    var i := Find(w.dorm.ships, id);
    if i < |w.dorm.ships| {
      TotalUpdate(w.dorm.ships, i, w.dorm.ships[i].(info4 := 0), if coins then Coins else Bond);
    }
  }

  lemma EventConserves(w: World, e: Event, coins: bool)
    requires Held(w.dorm, coins) + Made(w, e, coins) < WORD
    ensures var v := Happen(w, e);
            && Balance(v, coins) + Held(v.dorm, coins) + Lost(w, e, coins) ==
               Balance(w, coins) + Held(w.dorm, coins) + Made(w, e, coins)
            && Balance(w, coins) <= Balance(v, coins) && 0 <= Lost(w, e, coins)
  {
    hide Ticked, Wrap, Mul;
    match e
    case Tick(tpl, now) => TickPays(w.dorm, tpl, now, coins);
    case Enter(id, kind, now) => EnterKeeps(w.dorm, id, kind, now, coins);
    case Leave(table, tpl, id, now, left) =>
      if Exited(table, w.dorm, tpl, id, now, left).Some? {
        TickPays(w.dorm, tpl, now, coins);
        LeaveGivesUp(table, w.dorm, tpl, id, now, left, coins);
      }
    case ClaimIntimacy(id) =>
      if id != 0 { ClaimOneMoves(w, id, coins); }
      else if coins { ClaimAllMoves(w); }
      else { ClaimAllBonds(w); }
    case ClaimMoney(id) => MoneyMoves(w, id, coins);
  }

  lemma LeaveGivesUp(table: ShipExp.LevelTable, d: Dorm, tpl: Option<LevelTemplate>, id: u32,
                     now: u32, left: u32, coins: bool)
    requires Exited(table, d, tpl, id, now, left).Some?
    ensures var v, t := Exited(table, d, tpl, id, now, left).value, Ticked(d, tpl, now);
            var s := t.ships[Find(t.ships, id)];
            Held(v, coins) == Held(t, coins) - if coins then s.info4 else s.info3
  {
    var v, t := Exited(table, d, tpl, id, now, left).value, Ticked(d, tpl, now);
    var i := Find(t.ships, id);
    TotalUpdate(t.ships, i, v.ships[i], if coins then Coins else Bond);
  }

  /**
   Over any run in which no counter wraps: what is in the wallet, on the ships and
   forfeited by leaving is what was there at the start plus what the ticks handed out.
   With `coins` false, the same for intimacy.
   */
  lemma {:induction false} RunConserves(w: World, events: seq<Event>, coins: bool)
    requires Held(w.dorm, coins) + MadeAll(w, events, coins) < WORD
    ensures var v := Run(w, events);
            Balance(v, coins) + Held(v.dorm, coins) + LostAll(w, events, coins) ==
            Balance(w, coins) + Held(w.dorm, coins) + MadeAll(w, events, coins)
    decreases |events|
  {
    if events != [] {
      var v := Happen(w, events[0]);
      MadeHolds(v, events[1..], coins);
      EventConserves(w, events[0], coins);
      RunConserves(v, events[1..], coins);
    }
  }

  lemma {:induction false} MadeHolds(w: World, events: seq<Event>, coins: bool)
    ensures 0 <= MadeAll(w, events, coins)
    decreases |events|
  {
    if events != [] {
      MadeHolds(Happen(w, events[0]), events[1..], coins);
      match events[0]
      case Tick(tpl, now) => HandedOutByHolds(w.dorm, tpl, now, coins);
      case Leave(table, tpl, id, now, left) => HandedOutByHolds(w.dorm, tpl, now, coins);
      case _ =>
    }
  }

  lemma HandedOutByHolds(d: Dorm, tpl: Option<LevelTemplate>, now: u32, coins: bool)
    ensures 0 <= HandedOutBy(d, tpl, now, coins)
  {
    if tpl.Some? && tpl.value.time > 0 {
      HandedOutHolds(d, tpl.value, now, if coins then CoinPerTick(tpl.value) else 1);
    }
  }
}
