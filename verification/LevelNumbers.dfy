/** Where a gain of experience takes a ship or a commander, in the columns of the level tables. */
module LevelNumbers {
  import opened Word32
  import Ships = ShipExp
  import Commanders = CommanderExp

  // ---------- Ships ----------

  /** The row of a level can be read and asks for something. */
  predicate Charges(table: Ships.LevelTable, ur: bool, l: u32) {
    l != 0 && l in table && table[l].Row? && (if ur then table[l].expUr else table[l].exp) > 0
  }

  /** What it asks for: the `exp_ur` column of a UR ship, the `exp` column of any other. */
  function Column(table: Ships.LevelTable, ur: bool, l: u32): u32
    requires Charges(table, ur, l)
  {
    if ur then table[l].expUr else table[l].exp
  }

  predicate AllCharge(table: Ships.LevelTable, ur: bool, lo: u32, hi: u32) {
    forall l: u32 :: lo <= l < hi ==> Charges(table, ur, l)
  }

  ghost function Bill(table: Ships.LevelTable, ur: bool, lo: u32, hi: u32): nat
    requires lo <= hi && AllCharge(table, ur, lo, hi)
    decreases hi - lo
  {
    if lo == hi then 0 else Column(table, ur, lo) + Bill(table, ur, lo + 1, hi)
  }

  /**
   From level `lo` with `exp` points a ship gets to level `to`: all levels in between
   charge and are paid, and the next one does not charge, is not paid, or is past the cap.
   */
  ghost predicate Arrives(table: Ships.LevelTable, ur: bool, cap: u32, lo: u32, exp: nat, to: u32) {
    && lo <= to <= cap && AllCharge(table, ur, lo, to) && Bill(table, ur, lo, to) <= exp
    && (to == cap || !Charges(table, ur, to) || exp - Bill(table, ur, lo, to) < Column(table, ur, to))
  }

  lemma {:induction false} ClimbArrives(table: Ships.LevelTable, ur: bool, cap: u32, p: Ships.Progress, to: u32)
    requires p.level <= cap
    ensures Arrives(table, ur, cap, p.level, p.exp, to) <==> Ships.Climb(table, ur, cap, p).level == to
    ensures Arrives(table, ur, cap, p.level, p.exp, to) ==>
              && Ships.Climb(table, ur, cap, p).exp == p.exp - Bill(table, ur, p.level, to)
              && (Ships.Stuck(table, ur, cap, p) <==> to < cap && to != 0 && to in table && table[to].Broken?)
    decreases cap - p.level
  {
    if p.level < cap && Charges(table, ur, p.level) && Column(table, ur, p.level) <= p.exp {
      var next := Ships.Progress(p.level + 1, p.exp - Column(table, ur, p.level));
      ClimbArrives(table, ur, cap, next, to);
      ArrivesNext(table, ur, cap, p, to);
      Ships.ClimbBounds(table, ur, cap, next);
    } else if p.level < to && AllCharge(table, ur, p.level, to) {
      assert Charges(table, ur, p.level);
    }
  }

  lemma ArrivesNext(table: Ships.LevelTable, ur: bool, cap: u32, p: Ships.Progress, to: u32)
    requires p.level < cap && Charges(table, ur, p.level) && Column(table, ur, p.level) <= p.exp
    ensures var rest := p.exp - Column(table, ur, p.level);
            && (Arrives(table, ur, cap, p.level, p.exp, to) <==> Arrives(table, ur, cap, p.level + 1, rest, to))
            && (Arrives(table, ur, cap, p.level, p.exp, to) ==>
                  p.exp - Bill(table, ur, p.level, to) == rest - Bill(table, ur, p.level + 1, to))
  {
    hide Charges;
    if p.level < to { assert AllCharge(table, ur, p.level, to) <==> AllCharge(table, ur, p.level + 1, to); }
  }

  /** Banking: up to 3,000,000 in all, and nothing on top of more. */
  ghost predicate Banked(before: u32, points: u32, after: u32) {
    if before >= 3_000_000 || (before + points) % WORD > 3_000_000
    then after == (if before >= 3_000_000 then before else 3_000_000)
    else after == (before + points) % WORD
  }

  /** The ship at level `to` with `rest` points left over; a full one from cap 100 on banks them. */
  ghost predicate Settled(s: Ships.Ship, t: Ships.Ship, to: u32, rest: u32) {
    && t.level == to && t.maxLevel == s.maxLevel && t.ur == s.ur
    && if to == s.maxLevel && s.maxLevel >= 100 && rest > 0
       then t.exp == 0 && Banked(s.surplus, rest, t.surplus)
       else t.exp == rest && t.surplus == s.surplus
  }

  lemma BankIs(before: u32, points: u32)
    ensures Banked(before, points, Ships.AddSurplus(before, points))
  {
  }

  lemma SettleIs(s: Ships.Ship, p: Ships.Progress)
    requires p.level <= s.maxLevel && p.exp < WORD
    ensures Settled(s, Ships.Settle(s, p), p.level, p.exp)
  {
    hide Banked;
    BankIs(s.surplus, p.exp);
  }

  lemma WordSum(a: u32, b: u32)
    ensures Add(a, b) == (a + b) % WORD
  {
  }

  /** A gain below the cap: where it leads, what it costs, what is left, and when it fails. */
  lemma GainInNumbers(table: Ships.LevelTable, s: Ships.Ship, gain: u32, to: u32)
    requires gain > 0 && s.level < s.maxLevel
    requires Arrives(table, s.ur, s.maxLevel, s.level, (s.exp + gain) % WORD, to)
    ensures var r := Ships.Gain(table, s, gain);
            && (r.Failed? <==> to < s.maxLevel && to != 0 && to in table && table[to].Broken?)
            && (r.Grown? ==>
                  Settled(s, r.ship, to, (s.exp + gain) % WORD - Bill(table, s.ur, s.level, to)))
  {
    hide Banked, Bill, Settled, Ships.Settle, Ships.Stuck, Ships.Climb, Add;
    var start := Ships.Progress(s.level, (s.exp + gain) % WORD);
    WordSum(s.exp, gain);
    ClimbArrives(table, s.ur, s.maxLevel, start, to);
    SettleIs(s, Ships.Climb(table, s.ur, s.maxLevel, start));
  }

  /** There is always exactly one such level. */
  lemma ArrivesOnce(table: Ships.LevelTable, ur: bool, cap: u32, lo: u32, exp: nat)
    requires lo <= cap
    ensures exists to: u32 :: Arrives(table, ur, cap, lo, exp, to)
    ensures forall to: u32, other: u32 ::
              Arrives(table, ur, cap, lo, exp, to) && Arrives(table, ur, cap, lo, exp, other) ==> to == other
  {
    var p := Ships.Progress(lo, exp);
    ClimbArrives(table, ur, cap, p, Ships.Climb(table, ur, cap, p).level);
    forall to: u32, other: u32 |
      Arrives(table, ur, cap, lo, exp, to) && Arrives(table, ur, cap, lo, exp, other)
      ensures to == other
    {
      ClimbArrives(table, ur, cap, p, to);
      ClimbArrives(table, ur, cap, p, other);
    }
  }

  /** A full ship banks a gain from cap 100 on and loses it below; no gain changes nothing. */
  lemma FullGain(table: Ships.LevelTable, s: Ships.Ship, gain: u32)
    requires gain == 0 || s.level >= s.maxLevel
    ensures var r := Ships.Gain(table, s, gain);
            && r.Grown? && r.ship == s.(surplus := r.ship.surplus)
            && if gain > 0 && s.maxLevel >= 100 then Banked(s.surplus, gain, r.ship.surplus)
               else r.ship.surplus == s.surplus
  {
    BankIs(s.surplus, gain);
  }

  /** Raising the cap: bar and bank climb together, from an empty bank. */
  lemma ConvertInNumbers(table: Ships.LevelTable, s: Ships.Ship, nextMax: u32, to: u32)
    requires s.level <= nextMax
    requires Arrives(table, s.ur, nextMax, s.level, (s.exp + s.surplus) % WORD, to)
    ensures var r := Ships.Convert(table, s, nextMax);
            && (r.Failed? <==> to < nextMax && to != 0 && to in table && table[to].Broken?)
            && (r.Grown? ==>
                  Settled(s.(surplus := 0, maxLevel := nextMax), r.ship, to,
                          (s.exp + s.surplus) % WORD - Bill(table, s.ur, s.level, to)))
  {
    hide Banked, Bill, Settled, Ships.Settle, Ships.Stuck, Ships.Climb, Add;
    var start := Ships.Progress(s.level, (s.exp + s.surplus) % WORD);
    WordSum(s.exp, s.surplus);
    ClimbArrives(table, s.ur, nextMax, start, to);
    SettleIs(s.(surplus := 0, maxLevel := nextMax), Ships.Climb(table, s.ur, nextMax, start));
  }

  /** The next cap: the first level above, up to 200, that is marked, with no unreadable row before it; 0 if none. */
  lemma NextCapInRows(table: Ships.LevelTable, current: u32, level: u32)
    ensures level > 0 ==>
              (Ships.NextCap(table, current) == level <==>
                 && current < level <= 200
                 && (forall l: u32 :: current < l <= level ==> l in table && table[l].Row?)
                 && (forall l: u32 :: current < l <= level ==> (table[l].levelLimit == 1 <==> l == level)))
  {
    hide Ships.NextCap;
    if Ships.IsNextCap(table, current, level) { Ships.NextCapIs(table, current, level); }
    if level > 0 && Ships.NextCap(table, current) == level { CapIsNext(table, current); }
  }

  lemma CapIsNext(table: Ships.LevelTable, current: u32)
    requires Ships.NextCap(table, current) > 0
    ensures Ships.IsNextCap(table, current, Ships.NextCap(table, current))
  {
  }

  /**
   A battle without a failure: every ship with a gain has grown by it and has the energy
   and intimacy the battle left it, where it left any; every other ship is as before.
   */
  lemma BattleInRows(table: Ships.LevelTable, u: Ships.Updates, ships: map<u32, Ships.FleetShip>, order: seq<u32>)
    requires Ships.Visits(order, u) && Ships.NoneFails(table, u, ships)
    ensures var v := Ships.VisitAll(table, u, ships, order);
            && v.ok && v.ships.Keys == ships.Keys
            && forall id :: id in ships ==>
                 var was, now := ships[id], v.ships[id];
                 if id !in u.gains then now == was
                 else
                   && Ships.Gain(table, was.growth, u.gains[id]) == Ships.Grown(now.growth)
                   && now.energy == (if id in u.energies then u.energies[id] else was.energy)
                   && now.intimacy == (if id in u.intimacies then u.intimacies[id] else was.intimacy)
  {
    hide Ships.VisitAll, Ships.Visits;
    Ships.VisitedWhole(table, u, ships, order);
  }

  // ---------- Commanders ----------

  predicate Asks(table: Commanders.LevelTable, l: nat) {
    l != 0 && l in table && table[l].Row? && table[l].exp > 0
  }

  predicate AllAsk(table: Commanders.LevelTable, lo: nat, hi: nat) {
    forall l: nat :: lo <= l < hi ==> Asks(table, l)
  }

  ghost function Due(table: Commanders.LevelTable, lo: nat, hi: nat): nat
    requires lo <= hi && AllAsk(table, lo, hi)
    decreases hi - lo
  {
    if lo == hi then 0 else assert Asks(table, lo); table[lo].exp + Due(table, lo + 1, hi)
  }

  /**
   A commander whose bar is within its price and whose points pay for the levels up to
   `to` and not for that one is there, with the points left over; at level 200 the bar is
   empty.
   */
  lemma {:induction false} CommanderInNumbers(
      table: Commanders.LevelTable, p: Commanders.Progress, gain: nat, to: nat)
    requires gain > 0 && p.level < 200 && 0 <= p.exp && (Asks(table, p.level) ==> p.exp <= table[p.level].exp)
    requires p.level <= to <= 200 && AllAsk(table, p.level, to) && Due(table, p.level, to) <= p.exp + gain
    requires to < 200 && Asks(table, to) ==> p.exp + gain - Due(table, p.level, to) < table[to].exp
    requires to < 200 && to != 0 && to in table ==> table[to].Row?
    ensures Commanders.Gain(table, p, gain) ==
            Commanders.Reached(if to == 200 then Commanders.Progress(200, 0)
                               else Commanders.Progress(to, p.exp + gain - Due(table, p.level, to)))
    decreases 200 - p.level as int
  {
    if p.level < to {
      assert Asks(table, p.level);
      var price, next := table[p.level].exp, Commanders.Progress(p.level + 1, 0);
      assert AllAsk(table, next.level, to);
      assert next.level < to ==> Asks(table, next.level);
      assert Due(table, p.level, to) == price + Due(table, next.level, to);
      var rest := gain - (price - p.exp);
      assert rest >= 0;
      assert Commanders.Climb(table, p, gain) == Commanders.Climb(table, next, rest);
      if rest > 0 && next.level < 200 { CommanderInNumbers(table, next, rest, to); }
    }
  }
}
