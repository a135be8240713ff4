/** The commander's own levels: experience from battles up to level 200. */
module CommanderExp {
  import opened Word32

  const MAX_LEVEL: nat := 200

  /** A row of the commander level table; `Broken` is a row that cannot be decoded. */
  datatype LevelRow = Broken | Row(exp: u32)

  type LevelTable = map<nat, LevelRow>

  datatype Progress = Progress(level: nat, exp: int)

  /** `Failed` keeps the levels climbed before the row that could not be read. */
  datatype Outcome = Failed(at: Progress) | Reached(at: Progress)

  ghost predicate Unreadable(table: LevelTable, level: nat) {
    level != 0 && level in table && table[level].Broken?
  }

  /** What leaving a level costs; 0 where there is no row or a free one. */
  function Price(table: LevelTable, level: nat): u32 {
    if level == 0 || level !in table || table[level].Broken? then 0 else table[level].exp
  }

  /** Climbing with `gain` points: a level left drops what the bar held above its price. */
  ghost function Climb(table: LevelTable, p: Progress, gain: nat): Outcome
    decreases MAX_LEVEL - p.level
  {
    if gain == 0 || p.level >= MAX_LEVEL then Reached(p)
    else if Unreadable(table, p.level) then Failed(p)
    else
      var price := Price(table, p.level);
      if price == 0 then Reached(Progress(p.level, p.exp + gain))
      else if p.exp >= price then Climb(table, Progress(p.level + 1, 0), gain)
      else if gain < price - p.exp then Reached(Progress(p.level, p.exp + gain))
      else Climb(table, Progress(p.level + 1, 0), gain - (price - p.exp))
  }

  /** At the last level the bar is empty. */
  function Topped(p: Progress): Progress {
    if p.level >= MAX_LEVEL then Progress(MAX_LEVEL, 0) else p
  }

  ghost function Gain(table: LevelTable, p: Progress, gain: nat): Outcome {
    if gain == 0 || p.level >= MAX_LEVEL then Reached(p)
    else match Climb(table, p, gain)
         case Failed(at) => Failed(at)
         case Reached(at) => Reached(Topped(at))
  }

  class Commander {
    var level: nat
    var exp: int

    function View(): Progress
      reads this
    {
      Progress(level, exp)
    }

    /** `applyCommanderExpGain`. */
    method ApplyExpGain(table: LevelTable, gain: u32) returns (ok: bool)
      modifies this
      ensures (if ok then Reached(View()) else Failed(View())) == Gain(table, old(View()), gain)
    {
      if gain == 0 { return true; }
      if level >= MAX_LEVEL { return true; }
      var remaining: u32 := gain;
      while remaining > 0 && level < MAX_LEVEL
        invariant Climb(table, old(View()), gain) == Climb(table, View(), remaining)
        decreases MAX_LEVEL - level, remaining
      {
        if level != 0 && level in table && table[level].Broken? { return false; }
        var price := Price(table, level);
        if price == 0 {
          exp := exp + remaining;
          return true;
        }
        var needed := price - exp;
        if needed <= 0 {
          level, exp := level + 1, 0;
          continue;
        }
        if remaining < needed {
          exp := exp + remaining;
          remaining := 0;
          break;
        }
        remaining := remaining - needed;
        level, exp := level + 1, 0;
      }
      if level >= MAX_LEVEL { level, exp := MAX_LEVEL, 0; }
      return true;
    }
  }

  lemma {:induction false} ClimbInTwo(table: LevelTable, p: Progress, a: nat, b: nat)
    ensures match Climb(table, p, a)
            case Failed(at) => Climb(table, p, a + b) == Failed(at)
            case Reached(mid) => Climb(table, p, a + b) == Climb(table, mid, b)
    decreases MAX_LEVEL - p.level
  {
    if a == 0 || p.level >= MAX_LEVEL {
      assert Climb(table, p, a) == Reached(p);
    } else if Unreadable(table, p.level) {
      assert Climb(table, p, a + b) == Failed(p);
    } else {
      var price, next := Price(table, p.level), Progress(p.level + 1, 0);
      if price == 0 {
        assert Climb(table, p, a) == Reached(Progress(p.level, p.exp + a));
        assert Climb(table, p, a + b) == Reached(Progress(p.level, p.exp + a + b));
      } else if p.exp >= price {
        ClimbInTwo(table, next, a, b);
      } else if a < price - p.exp {
        assert Climb(table, p, a) == Reached(Progress(p.level, p.exp + a));
        assert b > 0 ==> a + b - (price - p.exp) == b - (price - (p.exp + a));
      } else {
        ClimbInTwo(table, next, a - (price - p.exp), b);
        assert a + b - (price - p.exp) == a - (price - p.exp) + b;
      }
    }
  }

  /** Two battles' experience is one gain of the sum, on any table and from any bar. */
  lemma GainInTwo(table: LevelTable, p: Progress, a: nat, b: nat)
    ensures match Gain(table, p, a)
            case Failed(at) => Gain(table, p, a + b) == Failed(at)
            case Reached(mid) => Gain(table, p, a + b) == Gain(table, mid, b)
  {
    ClimbInTwo(table, p, a, b);
  }

  /** The prices of the levels from `lo` up to, and not including, `hi`. */
  ghost function PriceOf(table: LevelTable, lo: nat, hi: nat): nat
    requires lo <= hi
    decreases hi - lo
  {
    if lo == hi then 0 else Price(table, lo) + PriceOf(table, lo + 1, hi)
  }

  /** Below the last level, from a bar within its price, no point is lost. */
  lemma {:induction false} ClimbConserves(table: LevelTable, p: Progress, gain: nat)
    requires Price(table, p.level) != 0 ==> p.exp <= Price(table, p.level)
    ensures var t := Climb(table, p, gain).at;
            && p.level <= t.level
            && (Climb(table, p, gain).Reached? && t.level < MAX_LEVEL ==>
                  PriceOf(table, p.level, t.level) + t.exp == p.exp + gain)
    decreases MAX_LEVEL - p.level
  {
    if gain != 0 && p.level < MAX_LEVEL && !Unreadable(table, p.level) {
      var price, next := Price(table, p.level), Progress(p.level + 1, 0);
      if price == 0 {
      } else if p.exp >= price {
        ClimbConserves(table, next, gain);
      } else if gain >= price - p.exp {
        ClimbConserves(table, next, gain - (price - p.exp));
      }
    }
  }
}
