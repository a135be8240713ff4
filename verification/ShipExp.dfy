/**
 Ship levelling: climbing a level table with experience, banking the excess of a
 ship at its cap, and releasing that bank when the cap is raised.
 */
module ShipExp {
  import opened Word32
  import opened Collections

  const SURPLUS_CAP: u32 := 3_000_000

  /** A row of the ship level table; `Broken` is a row that cannot be decoded. */
  datatype LevelRow = Broken | Row(exp: u32, expUr: u32, levelLimit: u32)

  type LevelTable = map<u32, LevelRow>

  datatype Ship = Ship(level: u32, exp: u32, surplus: u32, maxLevel: u32, ur: bool)

  datatype Outcome = Failed | Grown(ship: Ship)

  datatype Progress = Progress(level: u32, exp: nat)

  ghost predicate Unreadable(table: LevelTable, level: u32) {
    level != 0 && level in table && table[level].Broken?
  }

  /** What leaving `level` costs; 0 where climbing stops: no row, or a free one. */
  function Price(table: LevelTable, ur: bool, level: u32): u32 {
    if level == 0 || level !in table || table[level].Broken? then 0
    else if ur then table[level].expUr
    else table[level].exp
  }

  // ---------- Climbing ----------

  function Climb(table: LevelTable, ur: bool, cap: u32, p: Progress): Progress
    decreases cap - p.level
  {
    var price := Price(table, ur, p.level);
    if p.level < cap && price != 0 && price <= p.exp
    then Climb(table, ur, cap, Progress(p.level + 1, p.exp - price))
    else p
  }

  /** The climb asks for a row that cannot be decoded. */
  ghost predicate Stuck(table: LevelTable, ur: bool, cap: u32, p: Progress)
    decreases cap - p.level
  {
    var price := Price(table, ur, p.level);
    p.level < cap &&
    (Unreadable(table, p.level) ||
     (price != 0 && price <= p.exp && Stuck(table, ur, cap, Progress(p.level + 1, p.exp - price))))
  }

  /** The cost of the levels from `lo` up to, and not including, `hi`. */
  ghost function PriceOf(table: LevelTable, ur: bool, lo: u32, hi: u32): nat
    requires lo <= hi
    decreases hi - lo
  {
    if lo == hi then 0 else Price(table, ur, lo) + PriceOf(table, ur, lo + 1, hi)
  }

  /** Every point of experience is either still held or was spent on a level passed. */
  lemma {:induction false} ClimbConserves(table: LevelTable, ur: bool, cap: u32, p: Progress)
    ensures var q := Climb(table, ur, cap, p);
            && p.level <= q.level
            && (q.level <= cap || q == p)
            && q.exp + PriceOf(table, ur, p.level, q.level) == p.exp
    decreases cap - p.level
  {
    var price := Price(table, ur, p.level);
    if p.level < cap && price != 0 && price <= p.exp {
      ClimbConserves(table, ur, cap, Progress(p.level + 1, p.exp - price));
    }
  }

  /** A climb only goes up, only spends, and stops at its cap. */
  lemma ClimbBounds(table: LevelTable, ur: bool, cap: u32, p: Progress)
    ensures var q := Climb(table, ur, cap, p);
            p.level <= q.level && q.exp <= p.exp && (q.level <= cap || q == p)
  {
    ClimbConserves(table, ur, cap, p);
  }

  /** Experience that arrives in two parts takes the climb to the same place. */
  lemma {:induction false} ClimbSplit(table: LevelTable, ur: bool, cap: u32, p: Progress, more: nat)
    ensures var q := Climb(table, ur, cap, p);
            Climb(table, ur, cap, Progress(p.level, p.exp + more)) ==
            Climb(table, ur, cap, Progress(q.level, q.exp + more))
    ensures var q := Climb(table, ur, cap, p);
            Stuck(table, ur, cap, Progress(p.level, p.exp + more)) <==>
            Stuck(table, ur, cap, p) || Stuck(table, ur, cap, Progress(q.level, q.exp + more))
    decreases cap - p.level
  {
    var price := Price(table, ur, p.level);
    if p.level < cap && price != 0 && price <= p.exp {
      ClimbSplit(table, ur, cap, Progress(p.level + 1, p.exp - price), more);
    }
  }

  /** A climb to a high cap passes through the climb to any lower cap. */
  lemma {:induction false} ClimbThrough(table: LevelTable, ur: bool, low: u32, high: u32, p: Progress)
    requires low <= high
    ensures Climb(table, ur, high, Climb(table, ur, low, p)) == Climb(table, ur, high, p)
    ensures Stuck(table, ur, high, p) <==>
            Stuck(table, ur, low, p) || Stuck(table, ur, high, Climb(table, ur, low, p))
    decreases low - p.level
  {
    var price := Price(table, ur, p.level);
    if p.level < low && price != 0 && price <= p.exp {
      ClimbThrough(table, ur, low, high, Progress(p.level + 1, p.exp - price));
    }
  }

  // ---------- Gaining experience ----------

  function AddSurplus(current: u32, gain: u32): u32 {
    if current >= SURPLUS_CAP then current
    else if Add(current, gain) > SURPLUS_CAP then SURPLUS_CAP
    else Add(current, gain)
  }

  function Settle(s: Ship, p: Progress): Ship
    requires p.exp < WORD
  {
    if p.level >= s.maxLevel && s.maxLevel >= 100 && p.exp > 0
    then s.(level := p.level, exp := 0, surplus := AddSurplus(s.surplus, p.exp))
    else s.(level := p.level, exp := p.exp)
  }

  ghost function Gain(table: LevelTable, s: Ship, gain: u32): Outcome {
    if gain == 0 then Grown(s)
    else if s.level >= s.maxLevel then
      Grown(if s.maxLevel >= 100 then s.(surplus := AddSurplus(s.surplus, gain)) else s)
    else
      var start := Progress(s.level, Add(s.exp, gain));
      ClimbBounds(table, s.ur, s.maxLevel, start);
      if Stuck(table, s.ur, s.maxLevel, start) then Failed
      else Grown(Settle(s, Climb(table, s.ur, s.maxLevel, start)))
  }

  /** No 32-bit sum wraps when `s` is given `gain` points. */
  predicate Roomy(s: Ship, gain: nat) {
    s.exp + s.surplus + gain < WORD
  }

  /** An owned ship's record, updated in place. */
  class OwnedShip {
    var level: u32
    var exp: u32
    var surplus: u32
    var maxLevel: u32
    const ur: bool

    constructor (s: Ship)
      ensures View() == s
    {
      level, exp, surplus, maxLevel, ur := s.level, s.exp, s.surplus, s.maxLevel, s.ur;
    }

    function View(): Ship
      reads this
    {
      Ship(level, exp, surplus, maxLevel, ur)
    }

    /** `applyOwnedShipExpGain`: a failed row lookup leaves the record alone. */
    method ApplyExpGain(table: LevelTable, gain: u32) returns (ok: bool)
      modifies this
      ensures ok <==> Gain(table, old(View()), gain).Grown?
      ensures View() == if ok then Gain(table, old(View()), gain).ship else old(View())
    {
      if gain == 0 { return true; }
      if level >= maxLevel {
        if maxLevel >= 100 {
          surplus := AddSurplus(surplus, gain);
        }
        return true;
      }
      var newExp: u32, newLevel: u32 := Add(exp, gain), level;
      ghost var start := Progress(level, newExp);
      while newLevel < maxLevel
        invariant View() == old(View())
        invariant level <= newLevel <= maxLevel
        invariant Climb(table, ur, maxLevel, start) == Climb(table, ur, maxLevel, Progress(newLevel, newExp))
        invariant Stuck(table, ur, maxLevel, start) <==> Stuck(table, ur, maxLevel, Progress(newLevel, newExp))
        decreases maxLevel - newLevel
      {
        if newLevel != 0 && newLevel in table && table[newLevel].Broken? { return false; }
        if newLevel == 0 || newLevel !in table { break; }
        var required := if ur then table[newLevel].expUr else table[newLevel].exp;
        if required == 0 || newExp < required { break; }
        newExp, newLevel := newExp - required, newLevel + 1;
      }
      exp, level := newExp, newLevel;
      if level >= maxLevel && maxLevel >= 100 && exp > 0 {
        surplus := AddSurplus(surplus, exp);
        exp := 0;
      }
      return true;
    }

    /** `convertSurplusExpAfterMaxLevelIncrease`: reads the record, changes nothing. */
    method ConvertSurplus(table: LevelTable, nextMax: u32)
      returns (ok: bool, newLevel: u32, newExp: u32, newSurplus: u32)
      ensures ok <==> Convert(table, View(), nextMax).Grown?
      ensures ok ==> Convert(table, View(), nextMax).ship == Ship(newLevel, newExp, newSurplus, nextMax, ur)
    {
      newLevel, newExp, newSurplus := level, Add(exp, surplus), 0;
      ghost var start := Progress(level, newExp);
      while newLevel < nextMax
        invariant newSurplus == 0
        invariant Climb(table, ur, nextMax, start) == Climb(table, ur, nextMax, Progress(newLevel, newExp))
        invariant Stuck(table, ur, nextMax, start) <==> Stuck(table, ur, nextMax, Progress(newLevel, newExp))
        decreases nextMax - newLevel
      {
        if newLevel != 0 && newLevel in table && table[newLevel].Broken? { return false, 0, 0, 0; }
        if newLevel == 0 || newLevel !in table { break; }
        var required := if ur then table[newLevel].expUr else table[newLevel].exp;
        if required == 0 || newExp < required { break; }
        newExp, newLevel := newExp - required, newLevel + 1;
      }
      if newLevel >= nextMax && nextMax >= 100 && newExp > 0 {
        newSurplus := AddSurplus(newSurplus, newExp);
        newExp := 0;
      }
      ok := true;
    }

    /**
     `UpgradeShipMaxLevel` with the material check and payment folded into `paid`:
     a refused request leaves the record alone.
     */
    method UpgradeMaxLevel(table: LevelTable, paid: bool) returns (ok: bool)
      modifies this
      ensures ok <==>
              && old(level == maxLevel && maxLevel >= 100)
              && NextCap(table, old(maxLevel)) != 0
              && paid
              && Convert(table, old(View()), NextCap(table, old(maxLevel))).Grown?
      ensures View() == if ok then Convert(table, old(View()), NextCap(table, old(maxLevel))).ship else old(View())
    {
      if level != maxLevel || maxLevel < 100 { return false; }
      var next := FindNextMaxLevel(table, maxLevel);
      if next == 0 || !paid { return false; }
      var converted, newLevel, newExp, newSurplus := ConvertSurplus(table, next);
      if !converted { return false; }
      level, exp, surplus, maxLevel := newLevel, newExp, newSurplus, next;
      return true;
    }
  }

  const LAST_LEVEL: u32 := 200

  /** Every level above `lo` and up to `hi` has a readable row. */
  ghost predicate RowsReadable(table: LevelTable, lo: u32, hi: u32) {
    forall l: u32 :: lo < l <= hi ==> l in table && table[l].Row?
  }

  /** `level` is a cap that can be reached from `current` without crossing another. */
  ghost predicate IsNextCap(table: LevelTable, current: u32, level: u32) {
    && current < level <= LAST_LEVEL
    && RowsReadable(table, current, level)
    && table[level].levelLimit == 1
    && forall l: u32 :: current < l < level ==> table[l].levelLimit != 1
  }

  /** The next cap above `current`, 0 if the table shows none. */
  ghost function NextCap(table: LevelTable, current: u32): u32 {
    if exists level: u32 :: IsNextCap(table, current, level)
    then var level: u32 :| IsNextCap(table, current, level); level
    else 0
  }

  lemma NextCapIs(table: LevelTable, current: u32, level: u32)
    requires IsNextCap(table, current, level)
    ensures NextCap(table, current) == level
  {
    var other := NextCap(table, current);
    assert IsNextCap(table, current, other);
    assert !(other < level) && !(level < other);
  }

  /** `findNextShipMaxLevel`; an unreadable row counts as no cap here. */
  method FindNextMaxLevel(table: LevelTable, current: u32) returns (next: u32)
    ensures next == NextCap(table, current)
  {
    var level: u32 := Add(current, 1);
    if current == WORD - 1 {
      assert level == 0;
      assert forall l: u32 :: !IsNextCap(table, current, l);
      return 0;
    }
    assert level == current + 1;
    while level <= LAST_LEVEL
      invariant current < level
      invariant RowsReadable(table, current, level - 1)
      invariant forall l: u32 :: current < l < level ==> table[l].levelLimit != 1
      decreases WORD - level
    {
      if level !in table || table[level].Broken? {
        assert forall l: u32 :: l >= level ==> !RowsReadable(table, current, l);
        assert forall l: u32 :: !IsNextCap(table, current, l);
        return 0;
      }
      if table[level].levelLimit == 1 {
        NextCapIs(table, current, level);
        return level;
      }
      level := level + 1;
    }
    assert forall l: u32 :: !IsNextCap(table, current, l);
    return 0;
  }

  /** Raising the cap to `nextMax`: the whole bank climbs again. */
  ghost function Convert(table: LevelTable, s: Ship, nextMax: u32): Outcome {
    var start := Progress(s.level, Add(s.exp, s.surplus));
    ClimbBounds(table, s.ur, nextMax, start);
    if Stuck(table, s.ur, nextMax, start) then Failed
    else Grown(Settle(s.(surplus := 0, maxLevel := nextMax), Climb(table, s.ur, nextMax, start)))
  }

  // ---------- Splitting gains ----------

  /** Both parts of a split gain, one after the other. */
  ghost function GainTwice(table: LevelTable, s: Ship, a: u32, b: u32): Outcome {
    match Gain(table, s, a)
    case Failed => Failed
    case Grown(t) => Gain(table, t, b)
  }

  lemma AddSurplusSplit(current: u32, a: u32, b: u32)
    requires current + a + b < WORD
    ensures AddSurplus(AddSurplus(current, a), b) == AddSurplus(current, Add(a, b))
  {
  }

  /** Below the cap, a gain is a climb. */
  lemma GainClimbs(table: LevelTable, s: Ship, gain: u32)
    requires s.level < s.maxLevel && gain != 0 && s.exp + gain < WORD
    ensures var start := Progress(s.level, s.exp + gain);
            && Climb(table, s.ur, s.maxLevel, start).exp < WORD
            && Climb(table, s.ur, s.maxLevel, start).level <= s.maxLevel
            && Gain(table, s, gain) ==
               if Stuck(table, s.ur, s.maxLevel, start) then Failed
               else Grown(Settle(s, Climb(table, s.ur, s.maxLevel, start)))
  {
    ClimbBounds(table, s.ur, s.maxLevel, Progress(s.level, s.exp + gain));
    assert Add(s.exp, gain) == s.exp + gain;
  }

  /** The second part of a split gain, after a first part that stopped below the cap. */
  lemma SplitBelowCap(table: LevelTable, s: Ship, a: u32, b: u32)
    requires s.level < s.maxLevel && a != 0 && b != 0 && Roomy(s, a + b)
    requires Gain(table, s, a).Grown? && Gain(table, s, a).ship.level < s.maxLevel
    ensures GainTwice(table, s, a, b) == Gain(table, s, Add(a, b))
  {
    hide AddSurplus, Climb, Stuck, Gain;
    var start := Progress(s.level, s.exp + a);
    GainClimbs(table, s, a);
    GainClimbs(table, s, a + b);
    ClimbBounds(table, s.ur, s.maxLevel, start);
    var p := Climb(table, s.ur, s.maxLevel, start);
    GainClimbs(table, s.(level := p.level, exp := p.exp), b);
    ClimbSplit(table, s.ur, s.maxLevel, start, b);
  }

  /** The same after a first part that filled the ship up: the climb is over. */
  lemma SplitAtCap(table: LevelTable, s: Ship, a: u32, b: u32)
    requires s.level < s.maxLevel && a != 0 && b != 0 && Roomy(s, a + b)
    requires Gain(table, s, a).Grown? && Gain(table, s, a).ship.level >= s.maxLevel
    ensures var p := Climb(table, s.ur, s.maxLevel, Progress(s.level, s.exp + a));
            && p.level == s.maxLevel
            && p.exp <= s.exp + a
            && Gain(table, s, a) == Grown(Settle(s, p))
            && Gain(table, s, Add(a, b)) == Grown(Settle(s, Progress(p.level, p.exp + b)))
  {
    var start := Progress(s.level, s.exp + a);
    assert Add(s.exp, a) == s.exp + a && Add(s.exp, Add(a, b)) == s.exp + a + b;
    ClimbConserves(table, s.ur, s.maxLevel, start);
    ClimbSplit(table, s.ur, s.maxLevel, start, b);
  }

  /** A full ship banks what was left over and every later gain. */
  lemma SettleThenGain(table: LevelTable, s: Ship, p: Progress, b: u32)
    requires s.maxLevel >= 100 && p.level == s.maxLevel && b != 0
    requires s.surplus + p.exp + b < WORD
    ensures Gain(table, Settle(s, p), b) == Grown(Settle(s, Progress(p.level, p.exp + b)))
  {
    AddSurplusSplit(s.surplus, p.exp, b);
  }

  /** From cap 100 upwards it does not matter how a gain is split. */
  lemma GainSplit(table: LevelTable, s: Ship, a: u32, b: u32)
    requires s.maxLevel >= 100 && Roomy(s, a + b)
    ensures GainTwice(table, s, a, b) == Gain(table, s, Add(a, b))
  {
    assert Add(a, b) == a + b;
    if a == 0 || b == 0 {
    } else if s.level >= s.maxLevel {
      AddSurplusSplit(s.surplus, a, b);
    } else if Gain(table, s, a).Failed? {
      GainClimbs(table, s, a);
      GainClimbs(table, s, a + b);
      ClimbSplit(table, s.ur, s.maxLevel, Progress(s.level, s.exp + a), b);
    } else if Gain(table, s, a).ship.level < s.maxLevel {
      SplitBelowCap(table, s, a, b);
    } else {
      SplitAtCap(table, s, a, b);
      var p := Climb(table, s.ur, s.maxLevel, Progress(s.level, s.exp + a));
      SettleThenGain(table, s, p, b);
    }
  }

  /** Some level from `lo` up to, and not including, `hi` has no row, a broken one or a free one. */
  ghost predicate Halts(table: LevelTable, ur: bool, lo: u32, hi: u32) {
    exists l: u32 :: lo <= l < hi && Price(table, ur, l) == 0
  }

  /** A climb reaches the cap exactly when every level on the way has a price and all are paid. */
  lemma {:induction false} ReachesCapIff(table: LevelTable, ur: bool, cap: u32, p: Progress)
    requires p.level <= cap
    ensures Climb(table, ur, cap, p).level == cap <==>
            !Halts(table, ur, p.level, cap) && PriceOf(table, ur, p.level, cap) <= p.exp
    ensures Stuck(table, ur, cap, p) ==> Halts(table, ur, p.level, cap)
    decreases cap - p.level
  {
    var price := Price(table, ur, p.level);
    if p.level < cap {
      if price != 0 && price <= p.exp {
        ReachesCapIff(table, ur, cap, Progress(p.level + 1, p.exp - price));
        assert Halts(table, ur, p.level, cap) <==> Halts(table, ur, p.level + 1, cap);
      } else if price == 0 {
        assert Price(table, ur, p.level) == 0;
      }
    }
  }

  /**
   Below cap 100 splitting a gain is harmless exactly when one part is empty, a level on
   the way stops the climb, or the first part does not pay for all levels up to the cap.
   */
  lemma GainSplitBelow100(table: LevelTable, s: Ship, a: u32, b: u32)
    requires s.maxLevel < 100 && s.level < s.maxLevel && Roomy(s, a + b)
    ensures GainTwice(table, s, a, b) == Gain(table, s, Add(a, b)) <==>
            || a == 0 || b == 0
            || Halts(table, s.ur, s.level, s.maxLevel)
            || s.exp + a < PriceOf(table, s.ur, s.level, s.maxLevel)
  {
    if a != 0 && b != 0 {
      hide Halts;
      var start := Progress(s.level, s.exp + a);
      ReachesCapIff(table, s.ur, s.maxLevel, start);
      GainClimbs(table, s, a);
      if Gain(table, s, a).Failed? {
        GainClimbs(table, s, a + b);
        ClimbSplit(table, s.ur, s.maxLevel, start, b);
      } else if Gain(table, s, a).ship.level < s.maxLevel {
        SplitBelowCap(table, s, a, b);
      } else {
        SplitAtCap(table, s, a, b);
      }
    }
  }

  ghost function Sum(gains: seq<u32>): nat
    decreases |gains|
  {
    if gains == [] then 0 else gains[0] + Sum(gains[1..])
  }

  ghost function GainAll(table: LevelTable, s: Ship, gains: seq<u32>): Outcome
    decreases |gains|
  {
    if gains == [] then Grown(s)
    else match Gain(table, s, gains[0])
         case Failed => Failed
         case Grown(t) => GainAll(table, t, gains[1..])
  }

  lemma GainKeeps(table: LevelTable, s: Ship, gain: u32)
    requires Gain(table, s, gain).Grown? && Roomy(s, gain)
    ensures var t := Gain(table, s, gain).ship;
            t.maxLevel == s.maxLevel && t.ur == s.ur && t.exp + t.surplus <= s.exp + s.surplus + gain
  {
    if s.level < s.maxLevel && gain != 0 {
      ClimbConserves(table, s.ur, s.maxLevel, Progress(s.level, s.exp + gain));
    }
  }

  /** Any run of gains amounts to one gain of their sum. */
  lemma {:induction false} GainAllIsOneGain(table: LevelTable, s: Ship, gains: seq<u32>)
    requires s.maxLevel >= 100 && Roomy(s, Sum(gains))
    decreases |gains|
    ensures GainAll(table, s, gains) == Gain(table, s, Sum(gains))
  {
    if gains != [] {
      var a, rest := gains[0], gains[1..];
      if Gain(table, s, a).Grown? {
        GainKeeps(table, s, a);
        GainAllIsOneGain(table, Gain(table, s, a).ship, rest);
      }
      GainSplit(table, s, a, Sum(rest));
    }
  }

  /** Levels passed, experience and bank together grow by the gain, up to the bank's cap. */
  lemma GainConserves(table: LevelTable, s: Ship, gain: u32)
    requires s.maxLevel >= 100 && Roomy(s, gain) && Gain(table, s, gain).Grown?
    ensures var t := Gain(table, s, gain).ship;
            && s.level <= t.level
            && (t.surplus < SURPLUS_CAP ==>
                  PriceOf(table, s.ur, s.level, t.level) + t.exp + t.surplus == s.exp + s.surplus + gain)
  {
    if s.level < s.maxLevel && gain != 0 {
      ClimbConserves(table, s.ur, s.maxLevel, Progress(s.level, s.exp + gain));
    }
  }

  // ---------- Raising the cap late ----------

  /** A climb that moved spent something. */
  lemma ClimbSpends(table: LevelTable, ur: bool, cap: u32, p: Progress)
    ensures var q := Climb(table, ur, cap, p); q.level > p.level ==> q.exp < p.exp
  {
    ClimbConserves(table, ur, cap, p);
    var price := Price(table, ur, p.level);
    if p.level < cap && price != 0 && price <= p.exp {
      ClimbConserves(table, ur, cap, Progress(p.level + 1, p.exp - price));
    }
  }

  /**
   Two ships at the same level, one holding `held` points and one only the bank's
   worth of them, end differently after the same climb.
   */
  lemma ShortBankShows(table: LevelTable, s: Ship, nextMax: u32, held: nat)
    requires 100 <= s.level < nextMax && SURPLUS_CAP < held < WORD
    ensures var full := Climb(table, s.ur, nextMax, Progress(s.level, held));
            var short := Climb(table, s.ur, nextMax, Progress(s.level, SURPLUS_CAP));
            && full.exp < WORD && short.exp < WORD
            && Settle(s.(surplus := 0, maxLevel := nextMax), full) !=
               Settle(s.(surplus := 0, maxLevel := nextMax), short)
  {
    var all, bank := Progress(s.level, held), Progress(s.level, SURPLUS_CAP);
    ClimbConserves(table, s.ur, nextMax, all);
    ClimbConserves(table, s.ur, nextMax, bank);
    ClimbSpends(table, s.ur, nextMax, bank);
  }

  /**
   A ship that fills up at its old cap and is raised afterwards ends where it would
   have ended under the new cap all along, exactly when what was left over at the old
   cap fitted into the bank.
   */
  lemma LateRaise(table: LevelTable, s: Ship, gain: u32, nextMax: u32)
    requires 100 <= s.maxLevel < nextMax && s.level < s.maxLevel && s.surplus == 0
    requires s.exp + gain < WORD
    requires Gain(table, s, gain).Grown? && Gain(table, s, gain).ship.level == s.maxLevel
    requires Gain(table, s.(maxLevel := nextMax), gain).Grown?
    ensures Convert(table, Gain(table, s, gain).ship, nextMax) == Gain(table, s.(maxLevel := nextMax), gain) <==>
            s.exp + gain <= PriceOf(table, s.ur, s.level, s.maxLevel) + SURPLUS_CAP
  {
    var start := Progress(s.level, s.exp + gain);
    GainClimbs(table, s, gain);
    GainClimbs(table, s.(maxLevel := nextMax), gain);
    var at := Climb(table, s.ur, s.maxLevel, start);
    assert at.level == s.maxLevel && at.exp + PriceOf(table, s.ur, s.level, s.maxLevel) == start.exp by {
      ClimbConserves(table, s.ur, s.maxLevel, start);
    }
    assert Climb(table, s.ur, nextMax, at) == Climb(table, s.ur, nextMax, start)
        && !Stuck(table, s.ur, nextMax, at) by {
      ClimbThrough(table, s.ur, s.maxLevel, nextMax, start);
    }
    RaiseFull(table, s, at, nextMax);
  }

  /** Raising the cap of a ship that filled up with `at.exp` points left over. */
  lemma RaiseFull(table: LevelTable, s: Ship, at: Progress, nextMax: u32)
    requires 100 <= s.maxLevel < nextMax && s.surplus == 0 && at.level == s.maxLevel && at.exp < WORD
    requires !Stuck(table, s.ur, nextMax, at)
    ensures Climb(table, s.ur, nextMax, at).exp < WORD
    ensures Convert(table, Settle(s, at), nextMax) ==
            Grown(Settle(s.(maxLevel := nextMax), Climb(table, s.ur, nextMax, at))) <==>
            at.exp <= SURPLUS_CAP
  {
    ClimbConserves(table, s.ur, nextMax, at);
    var banked: u32 := if at.exp > SURPLUS_CAP then SURPLUS_CAP else at.exp;
    var t := Settle(s, at);
    assert t.exp == 0 && t.surplus == banked;
    assert Add(t.exp, t.surplus) == banked;
    if at.exp > SURPLUS_CAP {
      ShortBankShows(table, s.(level := s.maxLevel), nextMax, at.exp);
      BankStuck(table, s.ur, nextMax, s.maxLevel, SURPLUS_CAP, at.exp);
    }
  }

  /** A climb on less experience looks up no more rows. */
  lemma BankStuck(table: LevelTable, ur: bool, cap: u32, level: u32, less: nat, more: nat)
    requires less <= more && !Stuck(table, ur, cap, Progress(level, more))
    ensures !Stuck(table, ur, cap, Progress(level, less))
  {
    ClimbSplit(table, ur, cap, Progress(level, less), more - less);
  }

  /** The same for a ship that earned its experience in any number of parts. */
  lemma LateRaiseAfterRun(table: LevelTable, s: Ship, gains: seq<u32>, nextMax: u32)
    requires 100 <= s.maxLevel < nextMax && s.level < s.maxLevel && s.surplus == 0
    requires s.exp + Sum(gains) < WORD
    requires GainAll(table, s, gains).Grown? && GainAll(table, s, gains).ship.level == s.maxLevel
    requires GainAll(table, s.(maxLevel := nextMax), gains).Grown?
    ensures Convert(table, GainAll(table, s, gains).ship, nextMax) ==
            GainAll(table, s.(maxLevel := nextMax), gains) <==>
            s.exp + Sum(gains) <= PriceOf(table, s.ur, s.level, s.maxLevel) + SURPLUS_CAP
  {
    GainAllIsOneGain(table, s, gains);
    GainAllIsOneGain(table, s.(maxLevel := nextMax), gains);
    LateRaise(table, s, Sum(gains), nextMax);
  }

  // ---------- The battle handler's own copy of the loop ----------

  datatype FleetShip = FleetShip(growth: Ship, energy: u32, intimacy: u32)

  /** What a battle brings each ship, by ship id. */
  datatype Updates = Updates(gains: map<u32, u32>, energies: map<u32, u32>, intimacies: map<u32, u32>)

  datatype Visit = Visit(ships: map<u32, FleetShip>, ok: bool)

  ghost predicate Fails(table: LevelTable, u: Updates, id: u32, s: FleetShip) {
    id in u.gains && Gain(table, s.growth, u.gains[id]).Failed?
  }

  /** A ship once its gain has been visited; a failing one stays as it is. */
  ghost function AfterBattle(table: LevelTable, u: Updates, id: u32, s: FleetShip): FleetShip {
    if id !in u.gains || Fails(table, u, id, s) then s
    else FleetShip(Gain(table, s.growth, u.gains[id]).ship,
                   if id in u.energies then u.energies[id] else s.energy,
                   if id in u.intimacies then u.intimacies[id] else s.intimacy)
  }

  /** The ships as they are once those in `done` have been visited. */
  ghost function Applied(table: LevelTable, u: Updates, ships: map<u32, FleetShip>, done: set<u32>)
    : map<u32, FleetShip>
  {
    map id | id in ships :: if id in done then AfterBattle(table, u, id, ships[id]) else ships[id]
  }

  ghost function VisitNext(table: LevelTable, u: Updates, v: Visit, id: u32): Visit {
    if !v.ok || id !in v.ships then v
    else if Fails(table, u, id, v.ships[id]) then v.(ok := false)
    else v.(ships := v.ships[id := AfterBattle(table, u, id, v.ships[id])])
  }

  /** The gains visited in the given order, up to the first failure. */
  ghost function VisitAll(table: LevelTable, u: Updates, ships: map<u32, FleetShip>, order: seq<u32>): Visit
    decreases |order|
  {
    if |order| == 0 then Visit(ships, true)
    else VisitNext(table, u, VisitAll(table, u, ships, order[..|order| - 1]), order[|order| - 1])
  }

  /** An order in which Go may visit the gains. */
  ghost predicate Visits(order: seq<u32>, u: Updates) {
    Distinct(order) && forall id: u32 :: id in order <==> id in u.gains
  }

  /** How many gains are visited before the first failure. */
  ghost predicate StopsAt(table: LevelTable, u: Updates, ships: map<u32, FleetShip>, order: seq<u32>, n: nat) {
    && n <= |order|
    && (forall i :: 0 <= i < n && order[i] in ships ==> !Fails(table, u, order[i], ships[order[i]]))
    && (n < |order| ==> order[n] in ships && Fails(table, u, order[n], ships[order[n]]))
  }

  lemma AppliedNext(table: LevelTable, u: Updates, ships: map<u32, FleetShip>, done: set<u32>, id: u32)
    requires id !in done
    requires id in ships ==> !Fails(table, u, id, ships[id])
    ensures VisitNext(table, u, Visit(Applied(table, u, ships, done), true), id) ==
            Visit(Applied(table, u, ships, done + {id}), true)
  {
    hide Fails, AfterBattle;
    if id in ships {
      assert Applied(table, u, ships, done + {id}) ==
             Applied(table, u, ships, done)[id := AfterBattle(table, u, id, ships[id])];
    } else {
      assert Applied(table, u, ships, done + {id}) == Applied(table, u, ships, done);
    }
  }

  lemma AppliedStops(table: LevelTable, u: Updates, ships: map<u32, FleetShip>, done: set<u32>, id: u32)
    requires id !in done && id in ships && Fails(table, u, id, ships[id])
    ensures var v := Visit(Applied(table, u, ships, done), true);
            VisitNext(table, u, v, id) == v.(ok := false)
  {
    hide Fails, AfterBattle;
  }

  /** Exactly the ships visited before the first failure are updated. */
  lemma {:induction false} VisitAllIs(
      table: LevelTable, u: Updates, ships: map<u32, FleetShip>, order: seq<u32>, n: nat)
    requires Distinct(order) && StopsAt(table, u, ships, order, n)
    ensures VisitAll(table, u, ships, order) ==
            Visit(Applied(table, u, ships, Elements(order[..n])), n == |order|)
    decreases |order|
  {
    hide Fails, Applied, VisitNext;
    if |order| == 0 {
      NothingApplied(table, u, ships);
      assert Elements(order[..n]) == {};
    } else {
      var init, last := order[..|order| - 1], order[|order| - 1];
      var done := Elements(init);
      assert init[..|init|] == init;
      if n < |init| {
        VisitAllIs(table, u, ships, init, n);
        assert init[..n] == order[..n];
        StoppedStays(table, u, VisitAll(table, u, ships, init), last);
      } else {
        VisitAllIs(table, u, ships, init, |init|);
        if n == |init| {
          AppliedStops(table, u, ships, done, last);
        } else {
          assert order[..n] == init + [last];
          assert Elements(order[..n]) == done + {last};
          AppliedNext(table, u, ships, done, last);
        }
      }
    }
  }

  lemma NothingApplied(table: LevelTable, u: Updates, ships: map<u32, FleetShip>)
    ensures Applied(table, u, ships, {}) == ships
  {
  }

  lemma StoppedStays(table: LevelTable, u: Updates, v: Visit, id: u32)
    requires !v.ok
    ensures VisitNext(table, u, v, id) == v
  {
  }

  lemma {:induction false} FirstFailure(table: LevelTable, u: Updates, ships: map<u32, FleetShip>, order: seq<u32>)
    returns (n: nat)
    ensures StopsAt(table, u, ships, order, n)
    decreases |order|
  {
    hide Fails;
    n := 0;
    if |order| > 0 {
      var init, last := order[..|order| - 1], order[|order| - 1];
      n := FirstFailure(table, u, ships, init);
      if n == |init| && !(last in ships && Fails(table, u, last, ships[last])) { n := n + 1; }
    }
  }

  /** No gain of the ships fails. */
  ghost predicate NoneFails(table: LevelTable, u: Updates, ships: map<u32, FleetShip>) {
    forall id :: id in ships ==> !Fails(table, u, id, ships[id])
  }

  /** No gain that succeeds changes its ship. */
  ghost predicate NoneChanges(table: LevelTable, u: Updates, ships: map<u32, FleetShip>) {
    forall id :: id in ships ==> AfterBattle(table, u, id, ships[id]) == ships[id]
  }

  /**
   The visit succeeds in every order exactly when no gain fails, and all orders leave the
   same fleet exactly when no gain fails or no gain that succeeds changes its ship.
   */
  lemma FleetOrderFreeIff(table: LevelTable, u: Updates, ships: map<u32, FleetShip>)
    ensures forall o :: Visits(o, u) ==> (VisitAll(table, u, ships, o).ok <==> NoneFails(table, u, ships))
    ensures (forall o, p :: Visits(o, u) && Visits(p, u) ==>
                              VisitAll(table, u, ships, o).ships == VisitAll(table, u, ships, p).ships) <==>
            NoneFails(table, u, ships) || NoneChanges(table, u, ships)
  {
    hide AfterBattle, VisitAll;
    forall o | Visits(o, u)
      ensures VisitAll(table, u, ships, o).ok <==> NoneFails(table, u, ships)
      ensures NoneFails(table, u, ships) || NoneChanges(table, u, ships) ==>
                VisitAll(table, u, ships, o).ships == Applied(table, u, ships, u.gains.Keys)
    {
      VisitedWhole(table, u, ships, o);
    }
    if !NoneFails(table, u, ships) && !NoneChanges(table, u, ships) {
      var f: u32 :| f in ships && Fails(table, u, f, ships[f]);
      var c: u32 :| c in ships && AfterBattle(table, u, c, ships[c]) != ships[c];
      TwoFleets(table, u, ships, f, c);
    }
  }

  lemma VisitedWhole(table: LevelTable, u: Updates, ships: map<u32, FleetShip>, o: seq<u32>)
    requires Visits(o, u)
    ensures VisitAll(table, u, ships, o).ok <==> NoneFails(table, u, ships)
    ensures NoneFails(table, u, ships) || NoneChanges(table, u, ships) ==>
              VisitAll(table, u, ships, o).ships == Applied(table, u, ships, u.gains.Keys)
  {
    hide AfterBattle;
    var n := FirstFailure(table, u, ships, o);
    VisitAllIs(table, u, ships, o, n);
    var done := Elements(o[..n]);
    if n == |o| {
      assert done == u.gains.Keys by { assert o[..n] == o; }
    }
    if NoneChanges(table, u, ships) {
      assert Applied(table, u, ships, done) == ships == Applied(table, u, ships, u.gains.Keys);
    }
  }

  /** A failing ship and a changing one give two orders that differ. */
  lemma TwoFleets(table: LevelTable, u: Updates, ships: map<u32, FleetShip>, f: u32, c: u32)
    requires f in ships && Fails(table, u, f, ships[f])
    requires c in ships && AfterBattle(table, u, c, ships[c]) != ships[c]
    ensures exists o, p :: Visits(o, u) && Visits(p, u) &&
                           VisitAll(table, u, ships, o).ships != VisitAll(table, u, ships, p).ships
  {
    assert f != c && !Fails(table, u, c, ships[c]) && c in u.gains && f in u.gains;
    hide AfterBattle, VisitAll, Fails, Visits;
    var rest := SomeOrder(u.gains.Keys - {f, c});
    var o, p := [f, c] + rest, [c, f] + rest;
    PairFirst(u, rest, f, c);
    PairFirst(u, rest, c, f);
    VisitAllIs(table, u, ships, o, 0);
    VisitAllIs(table, u, ships, p, 1);
    assert Elements(o[..0]) == {} && Elements(p[..1]) == {c};
    assert Applied(table, u, ships, {c})[c] != ships[c] == Applied(table, u, ships, {})[c];
  }

  lemma PairFirst(u: Updates, rest: seq<u32>, x: u32, y: u32)
    requires x != y && x in u.gains && y in u.gains
    requires Distinct(rest) && forall id: u32 :: id in rest <==> id in u.gains.Keys - {x, y}
    ensures Visits([x, y] + rest, u)
  {
    DistinctAppend([x, y], rest);
    assert forall id: u32 :: id in [x, y] + rest <==> id == x || id == y || id in rest;
  }

  lemma {:induction false} FailedVisitStops(
      table: LevelTable, u: Updates, ships: map<u32, FleetShip>, order: seq<u32>, rest: seq<u32>)
    requires !VisitAll(table, u, ships, order).ok
    ensures VisitAll(table, u, ships, order + rest) == VisitAll(table, u, ships, order)
    decreases |rest|
  {
    if |rest| == 0 {
      assert order + rest == order;
    } else {
      assert (order + rest)[..|order + rest| - 1] == order + rest[..|rest| - 1];
      FailedVisitStops(table, u, ships, order, rest[..|rest| - 1]);
    }
  }

  class Fleet {
    var ships: map<u32, FleetShip>

    /**
     `applyBattleShipUpdates`: the gains are visited in some order, and `order` is that
     one. Energy and intimacy of a ship without a gain entry are not written.
     */
    method ApplyBattleUpdates(table: LevelTable, u: Updates) returns (ok: bool, ghost order: seq<u32>)
      modifies this
      ensures Visits(order, u) && Visit(ships, ok) == VisitAll(table, u, old(ships), order)
      ensures ok <==> NoneFails(table, u, old(ships))
      ensures ok ==> ships == Applied(table, u, old(ships), u.gains.Keys)
    {
      hide VisitAll, Visits, AfterBattle;
      ghost var before := ships;
      var todo := u.gains.Keys;
      order := [];
      NothingVisited(table, u, ships);
      while todo != {}
        invariant todo <= u.gains.Keys && Distinct(order)
        invariant forall id: u32 :: id in order <==> id in u.gains && id !in todo
        invariant VisitAll(table, u, before, order) == Visit(ships, true)
      {
        var id: u32 :| id in todo;
        todo := todo - {id};
        VisitOneMore(table, u, before, order, id);
        order := order + [id];
        if id in ships {
          var owned := ships[id];
          var grown, growth := GrowInBattle(table, owned.growth, u.gains[id]);
          if !grown {
            ghost var rest := SomeOrder(todo);
            FailedVisitStops(table, u, before, order, rest);
            DistinctAppend(order, rest);
            order := order + rest;
            IsVisit(order, u);
            VisitedWhole(table, u, before, order);
            return false, order;
          }
          owned := owned.(growth := growth);
          if id in u.energies { owned := owned.(energy := u.energies[id]); }
          if id in u.intimacies { owned := owned.(intimacy := u.intimacies[id]); }
          WrittenBack(table, u, id, ships[id], owned);
          ships := ships[id := owned];
        }
      }
      IsVisit(order, u);
      VisitedWhole(table, u, before, order);
      return true, order;
    }
  }

  lemma NothingVisited(table: LevelTable, u: Updates, ships: map<u32, FleetShip>)
    ensures VisitAll(table, u, ships, []) == Visit(ships, true)
  {
  }

  lemma VisitOneMore(table: LevelTable, u: Updates, ships: map<u32, FleetShip>, order: seq<u32>, id: u32)
    ensures VisitAll(table, u, ships, order + [id]) == VisitNext(table, u, VisitAll(table, u, ships, order), id)
  {
    assert (order + [id])[..|order|] == order;
  }

  lemma IsVisit(order: seq<u32>, u: Updates)
    requires Distinct(order) && forall id: u32 :: id in order <==> id in u.gains
    ensures Visits(order, u)
  {
  }

  lemma WrittenBack(table: LevelTable, u: Updates, id: u32, s: FleetShip, owned: FleetShip)
    requires id in u.gains && Gain(table, s.growth, u.gains[id]) == Grown(owned.growth)
    requires owned.energy == (if id in u.energies then u.energies[id] else s.energy)
    requires owned.intimacy == if id in u.intimacies then u.intimacies[id] else s.intimacy
    ensures owned == AfterBattle(table, u, id, s)
  {
  }

  /** The inlined levelling of the battle handler, which shares no code with `ApplyExpGain`. */
  method GrowInBattle(table: LevelTable, owned: Ship, gain: u32) returns (ok: bool, grown: Ship)
    ensures ok <==> Gain(table, owned, gain).Grown?
    ensures ok ==> grown == Gain(table, owned, gain).ship
  {
    ok, grown := true, owned;
    if gain > 0 {
      if owned.level >= owned.maxLevel {
        if owned.maxLevel >= 100 {
          grown := grown.(surplus := AddSurplus(owned.surplus, gain));
        }
      } else {
        var newExp: u32, level: u32 := Add(owned.exp, gain), owned.level;
        ghost var start := Progress(level, newExp);
        while level < owned.maxLevel
          invariant level <= owned.maxLevel
          invariant Climb(table, owned.ur, owned.maxLevel, start) ==
                    Climb(table, owned.ur, owned.maxLevel, Progress(level, newExp))
          invariant Stuck(table, owned.ur, owned.maxLevel, start) <==>
                    Stuck(table, owned.ur, owned.maxLevel, Progress(level, newExp))
          decreases owned.maxLevel - level
        {
          if level != 0 && level in table && table[level].Broken? { return false, owned; }
          if level == 0 || level !in table { break; }
          var required := if owned.ur then table[level].expUr else table[level].exp;
          if required == 0 || newExp < required { break; }
          newExp, level := newExp - required, level + 1;
        }
        grown := grown.(exp := newExp, level := level);
        if grown.level >= grown.maxLevel && grown.maxLevel >= 100 && grown.exp > 0 {
          grown := grown.(surplus := AddSurplus(grown.surplus, grown.exp), exp := 0);
        }
      }
    }
  }
}
