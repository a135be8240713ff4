/** Strengthening a built blueprint: experience climbs a ladder of per-level requirements. */
module BlueprintExp {
  import opened Options
  import opened Word32

  /** What a strengthening level asks for. */
  datatype Strength = Strength(needLv: u32, needExp: u32)

  datatype Config = Config(strengthenEffect: seq<u32>, fateStrengthen: seq<u32>) {
    function Total(): nat {
      |strengthenEffect| + |fateStrengthen|
    }
  }

  type Strengths = map<u32, Strength>

  datatype State = State(level: u32, exp: u32)

  /** The id of the strengthening step at `level`: the ordinary steps, then the fate steps. */
  function StrengthIdForLevel(cfg: Config, level: u32): (id: Option<u32>)
    ensures id.Some? <==> level < cfg.Total()
    ensures id.Some? ==> id.value == (cfg.strengthenEffect + cfg.fateStrengthen)[level]
  {
    if level < |cfg.strengthenEffect| then Some(cfg.strengthenEffect[level])
    else if level - |cfg.strengthenEffect| < |cfg.fateStrengthen| then
      Some(cfg.fateStrengthen[level - |cfg.strengthenEffect|])
    else None
  }

  /** A level the ship may work on: its step is known and the ship's level suffices. */
  ghost predicate Open(cfg: Config, strengths: Strengths, shipLevel: u32, level: u32)
    requires level < cfg.Total()
  {
    var id := StrengthIdForLevel(cfg, level).value;
    id in strengths && strengths[id].needLv <= shipLevel
  }

  ghost function Need(cfg: Config, strengths: Strengths, shipLevel: u32, level: u32): u32
    requires level < cfg.Total() && Open(cfg, strengths, shipLevel, level)
  {
    strengths[StrengthIdForLevel(cfg, level).value].needExp
  }

  /** Pouring `gain` points in; absent when a level on the way is not open. */
  ghost function Pour(cfg: Config, strengths: Strengths, shipLevel: u32, s: State, gain: nat): Option<State>
    requires cfg.Total() < WORD
    decreases cfg.Total() - s.level
  {
    if gain == 0 || s.level >= cfg.Total() then Some(s)
    else if !Open(cfg, strengths, shipLevel, s.level) then None
    else
      var need := Need(cfg, strengths, shipLevel, s.level);
      if s.exp >= need then Pour(cfg, strengths, shipLevel, State(s.level + 1, 0), gain)
      else if gain >= need - s.exp then Pour(cfg, strengths, shipLevel, State(s.level + 1, 0), gain - (need - s.exp))
      else Some(State(s.level, s.exp + gain))
  }

  /** A finished blueprint keeps no experience. */
  function Settled(cfg: Config, s: State): State {
    if s.level >= cfg.Total() then State(s.level, 0) else s
  }

  ghost function Gain(cfg: Config, strengths: Strengths, shipLevel: u32, s: State, gain: u32): Option<State>
    requires cfg.Total() < WORD
  {
    if gain == 0 || s.level >= cfg.Total() then None
    else match Pour(cfg, strengths, shipLevel, s, gain)
         case None => None
         case Some(t) => Some(Settled(cfg, t))
  }

  /** The part of a blueprint's row that strengthening writes. */
  class Blueprint {
    var level: u32
    var exp: u32

    constructor (level: u32, exp: u32)
      ensures View() == State(level, exp)
    {
      this.level, this.exp := level, exp;
    }

    function View(): State
      reads this
    {
      State(level, exp)
    }

    /** `applyBlueprintExpGain`: all or nothing. */
    method ApplyExpGain(cfg: Config, strengths: Strengths, shipLevel: u32, gain: u32) returns (ok: bool)
      requires cfg.Total() < WORD
      modifies this
      ensures ok <==> Gain(cfg, strengths, shipLevel, old(View()), gain).Some?
      ensures View() == if ok then Gain(cfg, strengths, shipLevel, old(View()), gain).value else old(View())
    {
      if gain == 0 { return false; }
      var totalLevels: u32 := cfg.Total();
      if level >= totalLevels { return false; }
      var remaining: u32, lv: u32, xp: u32 := gain, level, exp;
      while remaining > 0 && lv < totalLevels
        invariant lv <= totalLevels
        invariant Pour(cfg, strengths, shipLevel, old(View()), gain) ==
                  Pour(cfg, strengths, shipLevel, State(lv, xp), remaining)
        decreases totalLevels - lv, remaining
      {
        var strengthId := StrengthIdForLevel(cfg, lv);
        if strengthId.None? || strengthId.value !in strengths { return false; }
        var strength := strengths[strengthId.value];
        if shipLevel < strength.needLv { return false; }
        if strength.needExp == 0 {
          lv, xp := lv + 1, 0;
          continue;
        }
        if xp >= strength.needExp {
          lv, xp := lv + 1, 0;
          continue;
        }
        var need := strength.needExp - xp;
        if remaining >= need {
          remaining := remaining - need;
          lv, xp := lv + 1, 0;
          continue;
        }
        xp := xp + remaining;
        remaining := 0;
      }
      level := lv;
      exp := if lv >= totalLevels then 0 else xp;
      return true;
    }
  }

  /** Points poured in twice go where the sum goes, unless the first pour already filled everything. */
  lemma {:induction false} PourInTwo(cfg: Config, strengths: Strengths, shipLevel: u32, s: State, a: nat, b: nat)
    requires cfg.Total() < WORD && a > 0
    ensures match Pour(cfg, strengths, shipLevel, s, a)
            case None => Pour(cfg, strengths, shipLevel, s, a + b).None?
            case Some(mid) => Pour(cfg, strengths, shipLevel, s, a + b) == Pour(cfg, strengths, shipLevel, mid, b)
    decreases cfg.Total() - s.level
  {
    if s.level >= cfg.Total() {
      assert Pour(cfg, strengths, shipLevel, s, a) == Some(s);
    } else if !Open(cfg, strengths, shipLevel, s.level) {
      assert Pour(cfg, strengths, shipLevel, s, a + b) == None;
    } else {
      var need := Need(cfg, strengths, shipLevel, s.level);
      var next := State(s.level + 1, 0);
      if s.exp >= need {
        PourInTwo(cfg, strengths, shipLevel, next, a, b);
      } else if a > need - s.exp {
        PourInTwo(cfg, strengths, shipLevel, next, a - (need - s.exp), b);
        assert a + b - (need - s.exp) == a - (need - s.exp) + b;
      } else if a == need - s.exp {
        assert Pour(cfg, strengths, shipLevel, s, a) == Some(next);
        assert a + b - (need - s.exp) == b;
      } else {
        var mid := State(s.level, s.exp + a);
        assert Pour(cfg, strengths, shipLevel, s, a) == Some(mid);
        assert b > 0 ==> a + b - (need - s.exp) == b - (need - mid.exp);
      }
    }
  }

  /** The requirements of the open levels from `lo` up to `hi`. */
  ghost function NeedOf(cfg: Config, strengths: Strengths, shipLevel: u32, lo: u32, hi: u32): nat
    requires lo <= hi <= cfg.Total() < WORD
    decreases hi - lo
  {
    if lo == hi then 0
    else (if Open(cfg, strengths, shipLevel, lo) then Need(cfg, strengths, shipLevel, lo) else 0) +
         NeedOf(cfg, strengths, shipLevel, lo + 1, hi)
  }

  /** Every level from `lo` up to the end is open. */
  ghost predicate AllOpen(cfg: Config, strengths: Strengths, shipLevel: u32, lo: u32)
    requires cfg.Total() < WORD
  {
    forall l: u32 :: lo <= l < cfg.Total() ==> Open(cfg, strengths, shipLevel, l)
  }

  /** What the bar counts for: points above the current requirement are dropped. */
  ghost function Bar(cfg: Config, strengths: Strengths, shipLevel: u32, s: State): u32
    requires s.level < cfg.Total() && Open(cfg, strengths, shipLevel, s.level)
  {
    var need := Need(cfg, strengths, shipLevel, s.level);
    if s.exp < need then s.exp else need
  }

  /**
   The gain finishes the blueprint: every level left is open, and bar and gain exceed what
   they require, or just meet it when the last level requires something.
   */
  ghost predicate Finishes(cfg: Config, strengths: Strengths, shipLevel: u32, s: State, gain: nat)
    requires cfg.Total() < WORD
  {
    s.level < cfg.Total() && AllOpen(cfg, strengths, shipLevel, s.level) &&
    var have := Bar(cfg, strengths, shipLevel, s) + gain;
    var left := NeedOf(cfg, strengths, shipLevel, s.level, cfg.Total());
    have > left || (have == left && Need(cfg, strengths, shipLevel, cfg.Total() - 1) > 0)
  }

  lemma {:induction false} NeedOfLast(cfg: Config, strengths: Strengths, shipLevel: u32, lo: u32)
    requires lo < cfg.Total() < WORD && AllOpen(cfg, strengths, shipLevel, lo)
    ensures Need(cfg, strengths, shipLevel, cfg.Total() - 1) <= NeedOf(cfg, strengths, shipLevel, lo, cfg.Total())
    decreases cfg.Total() - lo
  {
    if lo + 1 < cfg.Total() { NeedOfLast(cfg, strengths, shipLevel, lo + 1); }
  }

  /** Pouring reaches the end exactly when the gain finishes the blueprint. */
  lemma {:induction false} PourFinishesIff(cfg: Config, strengths: Strengths, shipLevel: u32, s: State, gain: nat)
    requires s.level < cfg.Total() < WORD && gain > 0
    ensures (var t := Pour(cfg, strengths, shipLevel, s, gain); t.Some? && t.value.level >= cfg.Total()) <==>
            Finishes(cfg, strengths, shipLevel, s, gain)
    decreases cfg.Total() - s.level
  {
    var total := cfg.Total();
    var next: u32 := s.level + 1;
    if !Open(cfg, strengths, shipLevel, s.level) {
      assert !AllOpen(cfg, strengths, shipLevel, s.level);
    } else {
      assert AllOpen(cfg, strengths, shipLevel, s.level) <==> AllOpen(cfg, strengths, shipLevel, next);
      var need := Need(cfg, strengths, shipLevel, s.level);
      assert NeedOf(cfg, strengths, shipLevel, s.level, total) == need + NeedOf(cfg, strengths, shipLevel, next, total);
      var rest: int := if s.exp >= need then gain else gain - (need - s.exp);
      if next < total && AllOpen(cfg, strengths, shipLevel, next) { NeedOfLast(cfg, strengths, shipLevel, next); }
      if rest <= 0 {
        assert Pour(cfg, strengths, shipLevel, s, gain) ==
               Some(if rest < 0 then State(s.level, s.exp + gain) else State(next, 0));
      } else {
        assert Pour(cfg, strengths, shipLevel, s, gain) == Pour(cfg, strengths, shipLevel, State(next, 0), rest);
        if next < total {
          PourFinishesIff(cfg, strengths, shipLevel, State(next, 0), rest);
          assert Open(cfg, strengths, shipLevel, next) ==> Bar(cfg, strengths, shipLevel, State(next, 0)) == 0;
        }
      }
    }
  }

  ghost function GainTwice(cfg: Config, strengths: Strengths, shipLevel: u32, s: State, a: u32, b: u32): Option<State>
    requires cfg.Total() < WORD
  {
    match Gain(cfg, strengths, shipLevel, s, a)
    case None => None
    case Some(mid) => Gain(cfg, strengths, shipLevel, mid, b)
  }

  /**
   A gain may be split into two requests: the outcome is the same exactly when the first
   part does not finish the blueprint. If it does, the second request is refused although
   the undivided gain is accepted, with the same effect.
   */
  lemma GainInTwo(cfg: Config, strengths: Strengths, shipLevel: u32, s: State, a: u32, b: u32)
    requires cfg.Total() < WORD && a > 0 && b > 0 && a + b < WORD
    ensures GainTwice(cfg, strengths, shipLevel, s, a, b) == Gain(cfg, strengths, shipLevel, s, a + b) <==>
            !Finishes(cfg, strengths, shipLevel, s, a)
    ensures Finishes(cfg, strengths, shipLevel, s, a) ==>
              && GainTwice(cfg, strengths, shipLevel, s, a, b) == None
              && Gain(cfg, strengths, shipLevel, s, a + b) == Gain(cfg, strengths, shipLevel, s, a)
              && Gain(cfg, strengths, shipLevel, s, a).Some?
  {
    hide Finishes;
    if s.level < cfg.Total() {
      PourInTwo(cfg, strengths, shipLevel, s, a, b);
      PourFinishesIff(cfg, strengths, shipLevel, s, a);
    } else {
      DoneNeverFinishes(cfg, strengths, shipLevel, s, a);
    }
  }

  lemma DoneNeverFinishes(cfg: Config, strengths: Strengths, shipLevel: u32, s: State, gain: nat)
    requires s.level >= cfg.Total() && cfg.Total() < WORD
    ensures !Finishes(cfg, strengths, shipLevel, s, gain)
  {
  }

  /** Starting below the current requirement, every point is either on the bar or was needed by a level passed. */
  lemma {:induction false} PourConserves(cfg: Config, strengths: Strengths, shipLevel: u32, s: State, gain: nat)
    requires cfg.Total() < WORD && s.level <= cfg.Total()
    requires s.level < cfg.Total() && Open(cfg, strengths, shipLevel, s.level) ==>
               s.exp <= Need(cfg, strengths, shipLevel, s.level)
    requires Pour(cfg, strengths, shipLevel, s, gain).Some?
    ensures var t := Pour(cfg, strengths, shipLevel, s, gain).value;
            && s.level <= t.level <= cfg.Total()
            && (t.level < cfg.Total() ==>
                  NeedOf(cfg, strengths, shipLevel, s.level, t.level) + t.exp == s.exp + gain)
    decreases cfg.Total() - s.level
  {
    if gain != 0 && s.level < cfg.Total() {
      var need := Need(cfg, strengths, shipLevel, s.level);
      if s.exp >= need {
        PourConserves(cfg, strengths, shipLevel, State(s.level + 1, 0), gain);
      } else if gain >= need - s.exp {
        PourConserves(cfg, strengths, shipLevel, State(s.level + 1, 0), gain - (need - s.exp));
      }
    }
  }
}
