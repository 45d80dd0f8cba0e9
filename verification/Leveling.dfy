/** Level-ups: thresholds, gains, and independence from when the check is made. */
module Leveling {
  import opened Wrappers
  import opened GameStates

  const MAX_LEVEL: int := 10

  /** Integer division that truncates toward zero, as in Go. */
  function TruncDiv(a: int, b: nat): int
    requires b > 0
  {
    if a >= 0 then a / b else -((-a) / b)
  }

  function StatModifier(stat: int): int { TruncDiv(stat - 10, 2) }

  /** Half the excess over ten, rounded down as documented, unless the stat is odd and below ten. */
  lemma StatModifierRoundsDown(stat: int)
    ensures StatModifier(stat) == (stat - 10) / 2 <==> 10 <= stat || stat % 2 == 0
    ensures StatModifier(stat) == (stat - 10) / 2 + if stat < 10 && stat % 2 == 1 then 1 else 0
  {
  }

  lemma StatModifierOfNine()
    ensures StatModifier(9) == 0 && (9 - 10) / 2 == -1
  {
  }

  /** Cumulative experience for each level, index 0 unused; None for an unknown class. */
  function Thresholds(class_: string): (r: Option<seq<int>>)
    ensures r.Some? ==> |r.value| == 11
  {
    if class_ == "fighter" then Some([0, 0, 20, 50, 100, 200, 400, 800, 1600, 3200, 6400])
    else if class_ == "mage" then Some([0, 0, 30, 75, 150, 300, 600, 1200, 2400, 4800, 9600])
    else if class_ == "priest" then Some([0, 0, 25, 60, 120, 250, 500, 1000, 2000, 4000, 8000])
    else if class_ == "thief" then Some([0, 0, 22, 55, 110, 220, 440, 880, 1760, 3520, 7040])
    else None
  }

  function HPPerLevel(class_: string): int {
    if class_ == "fighter" then 8 else if class_ == "mage" then 4
    else if class_ == "priest" || class_ == "thief" then 6 else 0
  }

  function MPPerLevel(class_: string): int {
    if class_ == "mage" then 4 else if class_ == "priest" then 3 else 0
  }

  /** One level's worth of +1 on the two primary stats of the class. */
  function GainStats(class_: string, s: Stats): Stats {
    if class_ == "fighter" then s.(str := s.str + 1, con := s.con + 1)
    else if class_ == "mage" then s.(intel := s.intel + 1, wis := s.wis + 1)
    else if class_ == "priest" then s.(wis := s.wis + 1, cha := s.cha + 1)
    else if class_ == "thief" then s.(dex := s.dex + 1, cha := s.cha + 1)
    else s
  }

  function PrimaryStats(class_: string): seq<string> {
    if class_ == "fighter" then ["STR", "CON"] else if class_ == "mage" then ["INT", "WIS"]
    else if class_ == "priest" then ["WIS", "CHA"] else if class_ == "thief" then ["DEX", "CHA"] else []
  }

  function StatNamed(s: Stats, name: string): int {
    if name == "STR" then s.str else if name == "INT" then s.intel else if name == "DEX" then s.dex
    else if name == "CON" then s.con else if name == "WIS" then s.wis else if name == "CHA" then s.cha else 0
  }

  function AddStat(s: Stats, name: string): Stats {
    if name == "STR" then s.(str := s.str + 1) else if name == "INT" then s.(intel := s.intel + 1)
    else if name == "DEX" then s.(dex := s.dex + 1) else if name == "CON" then s.(con := s.con + 1)
    else if name == "WIS" then s.(wis := s.wis + 1) else if name == "CHA" then s.(cha := s.cha + 1) else s
  }

  function Times(gain: map<string, int>, name: string): int { if name in gain then gain[name] else 0 }

  /** `gain` lists by how much each stat grew, and nothing that did not grow. */
  ghost predicate Grew(before: Stats, after: Stats, gain: map<string, int>) {
    && (forall name :: StatNamed(after, name) == StatNamed(before, name) + Times(gain, name))
    && (forall name :: name in gain ==> gain[name] > 0)
  }

  lemma GrewByOne(before: Stats, after: Stats, gain: map<string, int>, name: string)
    requires Grew(before, after, gain) && name in {"STR", "INT", "DEX", "CON", "WIS", "CHA"}
    ensures Grew(before, AddStat(after, name), gain[name := Times(gain, name) + 1])
  {
    forall n ensures StatNamed(AddStat(after, name), n) == StatNamed(after, n) + if n == name then 1 else 0 {
    }
  }

  /** +1 on each primary stat, counted in `gain`. */
  method GainPrimaries(class_: string, stats: Stats, gain: map<string, int>, ghost before: Stats)
      returns (stats': Stats, gain': map<string, int>)
    requires Grew(before, stats, gain)
    ensures stats' == GainStats(class_, stats) && Grew(before, stats', gain')
  {
    hide Grew;
    stats', gain' := stats, gain;
    var primary := PrimaryStats(class_);
    for i := 0 to |primary|
      invariant Grew(before, stats', gain')
      invariant stats' == if i == 0 then stats else if i == 1 then AddStat(stats, primary[0]) else GainStats(class_, stats)
    {
      GrewByOne(before, stats', gain', primary[i]);
      stats' := AddStat(stats', primary[i]);
      gain' := gain'[primary[i] := Times(gain', primary[i]) + 1];
    }
  }

  /** The HP one level brings; the Constitution modifier is the one after the stat gain. */
  function HPGain(class_: string, before: Stats): int {
    AtLeastOne(HPPerLevel(class_) + StatModifier(GainStats(class_, before).con))
  }

  function LevelOnce(h: Character): Character {
    var hp := HPGain(h.class_, h.stats);
    var mp := MPPerLevel(h.class_);
    h.(level := h.level + 1, stats := GainStats(h.class_, h.stats),
       maxHP := h.maxHP + hp, hp := h.hp + hp, maxMP := h.maxMP + mp, mp := h.mp + mp)
  }

  predicate CanLevel(h: Character)
    requires -1 <= h.level
  {
    && h.level < MAX_LEVEL
    && Thresholds(h.class_).Some?
    && h.xp >= Thresholds(h.class_).value[h.level + 1]
  }

  function Leveled(h: Character): (l: Character)
    requires -1 <= h.level
    ensures h.level <= l.level
    decreases MAX_LEVEL - h.level
  {
    if CanLevel(h) then Leveled(LevelOnce(h)) else h
  }

  lemma {:induction false} LeveledUnfolds(h: Character)
    requires -1 <= h.level
    ensures Leveled(h) == if CanLevel(h) then Leveled(LevelOnce(h)) else h
  {
  }

  datatype LevelUpResult = LevelUpResult(leveled: bool, newLevel: int, hpGain: int, mpGain: int, statGain: map<string, int>)

  method CheckLevelUp(state: GameState) returns (r: LevelUpResult)
    // A lower level indexes the thresholds out of range.
    requires -1 <= state.hero.level
    modifies state`hero
    ensures state.hero == Leveled(old(state.hero))
    ensures r.leveled <==> state.hero.level > old(state.hero.level)
    ensures r.hpGain == state.hero.maxHP - old(state.hero.maxHP)
    ensures r.mpGain == state.hero.maxMP - old(state.hero.maxMP)
    ensures r.leveled ==> r.newLevel == state.hero.level
    ensures Grew(old(state.hero.stats), state.hero.stats, r.statGain)
  {
    hide Leveled, Grew, GainStats;
    r := LevelUpResult(false, 0, 0, 0, map[]);
    GrewNothing(state.hero.stats);
    LeveledUnfolds(state.hero);
    if Thresholds(state.hero.class_).None? {
      return;
    }
    var thresholds := Thresholds(state.hero.class_).value;
    while state.hero.level < MAX_LEVEL
      invariant old(state.hero.level) <= state.hero.level
      invariant state.hero.class_ == old(state.hero.class_)
      invariant Leveled(state.hero) == Leveled(old(state.hero))
      invariant r.leveled <==> state.hero.level > old(state.hero.level)
      invariant r.hpGain == state.hero.maxHP - old(state.hero.maxHP)
      invariant r.mpGain == state.hero.maxMP - old(state.hero.maxMP)
      invariant r.leveled ==> r.newLevel == state.hero.level
      invariant Grew(old(state.hero.stats), state.hero.stats, r.statGain)
      decreases MAX_LEVEL - state.hero.level
    {
      var h := state.hero;
      LeveledUnfolds(h);
      var nextLevel := h.level + 1;
      if nextLevel >= |thresholds| {
        break;
      }
      if h.xp < thresholds[nextLevel] {
        break;
      }
      var stats, gain := GainPrimaries(h.class_, h.stats, r.statGain, old(state.hero.stats));
      var hp := HPPerLevel(h.class_) + StatModifier(stats.con);
      if hp < 1 {
        hp := 1;
      }
      h := h.(level := nextLevel, stats := stats, maxHP := h.maxHP + hp, hp := h.hp + hp);
      r := r.(leveled := true, newLevel := nextLevel, hpGain := r.hpGain + hp, statGain := gain);
      var mp := MPPerLevel(h.class_);
      if mp > 0 {
        h := h.(maxMP := h.maxMP + mp, mp := h.mp + mp);
        r := r.(mpGain := r.mpGain + mp);
      }
      assert h == LevelOnce(state.hero);
      state.hero := h;
    }
    LeveledUnfolds(state.hero);
  }

  lemma GrewNothing(s: Stats)
    ensures Grew(s, s, map[])
  {
  }

  // ---------- What levelling up achieves ----------

  lemma ThresholdsRise(class_: string, i: nat, j: nat)
    requires Thresholds(class_).Some? && i <= j <= 10
    ensures Thresholds(class_).value[i] <= Thresholds(class_).value[j]
    ensures 1 <= i < j ==> Thresholds(class_).value[i] < Thresholds(class_).value[j]
  {
  }

  /** The level ends at the greatest one up to ten whose threshold is met, or stays if it was
      higher; a second check changes nothing. */
  lemma {:induction false} LeveledIsGreatest(h: Character)
    requires 1 <= h.level && Thresholds(h.class_).Some?
    ensures var t, l := Thresholds(h.class_).value, Leveled(h).level;
            && (h.level <= MAX_LEVEL ==> l <= MAX_LEVEL)
            && (forall k :: h.level < k <= MAX_LEVEL ==> (k <= l <==> t[k] <= h.xp))
    ensures Leveled(Leveled(h)) == Leveled(h)
    decreases MAX_LEVEL - h.level
  {
    hide Thresholds, LevelOnce;
    if CanLevel(h) {
      LevelOnceSteps(h);
      LeveledIsGreatest(LevelOnce(h));
    } else if h.level < MAX_LEVEL {
      forall k | h.level < k <= MAX_LEVEL ensures Thresholds(h.class_).value[h.level + 1] <= Thresholds(h.class_).value[k] {
        ThresholdsRise(h.class_, h.level + 1, k);
      }
    }
  }

  lemma LevelOnceSteps(h: Character)
    ensures LevelOnce(h).level == h.level + 1 && LevelOnce(h).class_ == h.class_ && LevelOnce(h).xp == h.xp
  {
  }

  /** The experience shown as needed for the next level; 0 when there is none. */
  function NextLevelXP(class_: string, level: int): int {
    if level <= 0 || Thresholds(class_).None? || level + 1 >= |Thresholds(class_).value| then 0
    else Thresholds(class_).value[level + 1]
  }

  /** The figure shown is honest: a levelled hero is still short of it, and gaining exactly the
      difference brings the next level. */
  lemma NextLevelXPIsHonest(h: Character)
    requires 1 <= h.level
    ensures var l := Leveled(h);
            if l.level < MAX_LEVEL && Thresholds(h.class_).Some?
            then && l.xp < NextLevelXP(l.class_, l.level)
                 && Leveled(l.(xp := NextLevelXP(l.class_, l.level))).level == l.level + 1
            else NextLevelXP(l.class_, l.level) == 0
  {
    hide Thresholds, Leveled;
    var l := Leveled(h);
    LeveledKeepsXP(h);
    LeveledIsDone(h);
    if l.level < MAX_LEVEL && Thresholds(h.class_).Some? {
      var t := Thresholds(h.class_).value;
      var richer := l.(xp := t[l.level + 1]);
      LeveledIsGreatest(richer);
      assert l.level + 1 <= Leveled(richer).level <= MAX_LEVEL;
      if l.level + 2 <= MAX_LEVEL {
        ThresholdsRise(h.class_, l.level + 1, l.level + 2);
        assert Leveled(richer).level < l.level + 2;
      }
    }
  }

  lemma {:induction false} LeveledIsDone(h: Character)
    requires -1 <= h.level
    ensures !CanLevel(Leveled(h))
    decreases MAX_LEVEL - h.level
  {
    if CanLevel(h) {
      LeveledIsDone(LevelOnce(h));
    }
  }

  /** What a level-up decides and current HP and MP have no part in. */
  function Growth(h: Character): (string, int, Stats, int, int) {
    (h.class_, h.level, h.stats, h.maxHP, h.maxMP)
  }

  /** Levelling ignores current HP, current MP and everything carried. */
  lemma {:induction false} GrowthOnly(g: Character, h: Character)
    requires -1 <= g.level && Growth(g) == Growth(h) && g.xp == h.xp
    ensures Growth(Leveled(g)) == Growth(Leveled(h))
    decreases MAX_LEVEL - g.level
  {
    if CanLevel(g) {
      GrowthOnly(LevelOnce(g), LevelOnce(h));
    }
  }

  lemma {:induction false} LeveledKeepsXP(h: Character)
    requires -1 <= h.level
    ensures Leveled(h).xp == h.xp && Leveled(h).class_ == h.class_
    decreases MAX_LEVEL - h.level
  {
    if CanLevel(h) {
      LeveledKeepsXP(LevelOnce(h));
    }
  }

  /** Checking earlier, at less experience, does not change where the hero ends up. */
  lemma {:induction false} EarlyCheckIsHarmless(h: Character, xp: int)
    requires -1 <= h.level && h.xp <= xp
    ensures Growth(Leveled(Leveled(h).(xp := xp))) == Growth(Leveled(h.(xp := xp)))
    decreases MAX_LEVEL - h.level
  {
    if CanLevel(h) {
      EarlyCheckIsHarmless(LevelOnce(h), xp);
      assert CanLevel(h.(xp := xp));
      assert LevelOnce(h).(xp := xp) == LevelOnce(h.(xp := xp));
    }
  }

  /** What happens to the hero between two checks: experience is gained, and HP and MP
      change in fights and by spells. */
  datatype Gain = Gain(xp: nat, hp: int, mp: int)

  function Gained(h: Character, g: Gain): Character {
    h.(xp := h.xp + g.xp, hp := g.hp, mp := g.mp)
  }

  function CheckedAfterEach(h: Character, gains: seq<Gain>): Character
    requires -1 <= h.level
    ensures -1 <= CheckedAfterEach(h, gains).level
  {
    if gains == [] then h
    else
      var before := CheckedAfterEach(h, gains[..|gains| - 1]);
      Leveled(Gained(before, gains[|gains| - 1]))
  }

  function TotalXP(gains: seq<Gain>): nat {
    if gains == [] then 0 else TotalXP(gains[..|gains| - 1]) + gains[|gains| - 1].xp
  }

  /** Level, stats and maxima depend only on the experience gained in total, however often
      and whenever the check was made. */
  lemma {:induction false} PathIndependence(h: Character, gains: seq<Gain>)
    requires -1 <= h.level && gains != []
    ensures CheckedAfterEach(h, gains).xp == h.xp + TotalXP(gains)
    ensures Growth(CheckedAfterEach(h, gains)) == Growth(Leveled(h.(xp := h.xp + TotalXP(gains))))
  {
    hide Leveled, LevelOnce, CanLevel;
    var n := |gains| - 1;
    var g := gains[n];
    var total := h.xp + TotalXP(gains);
    var before := CheckedAfterEach(h, gains[..n]);
    LeveledKeepsXP(Gained(before, g));
    if n == 0 {
      GrowthOnly(Gained(before, g), h.(xp := total));
    } else {
      PathIndependence(h, gains[..n]);
      var once := Leveled(h.(xp := h.xp + TotalXP(gains[..n])));
      LeveledKeepsXP(h.(xp := h.xp + TotalXP(gains[..n])));
      GrowthOnly(Gained(before, g), once.(xp := total));
      EarlyCheckIsHarmless(h.(xp := h.xp + TotalXP(gains[..n])), total);
      assert h.(xp := h.xp + TotalXP(gains[..n])).(xp := total) == h.(xp := total);
    }
  }

  predicate WithinMaxima(h: Character) { h.hp <= h.maxHP && h.mp <= h.maxMP }

  /** A level-up never lifts HP or MP over its maximum, nor lowers either. */
  lemma {:induction false} LeveledWithinMaxima(h: Character)
    requires -1 <= h.level
    ensures WithinMaxima(h) ==> WithinMaxima(Leveled(h))
    ensures Leveled(h).hp - h.hp == Leveled(h).maxHP - h.maxHP >= Leveled(h).level - h.level
    ensures Leveled(h).mp - h.mp == Leveled(h).maxMP - h.maxMP >= 0
    decreases MAX_LEVEL - h.level
  {
    if CanLevel(h) {
      LeveledWithinMaxima(LevelOnce(h));
    }
  }

  // ---------- New characters ----------

  const BASE_STAT: int := 10
  const POINT_POOL: int := 8

  const CLASSES: set<string> := {"fighter", "mage", "priest", "thief"}

  function StatSeq(s: Stats): seq<int> { [s.str, s.dex, s.con, s.intel, s.wis, s.cha] }

  /** No stat is below the base, and exactly the pool is spent above it. */
  predicate PointBuy(s: Stats) {
    && BASE_STAT <= s.str && BASE_STAT <= s.dex && BASE_STAT <= s.con
    && BASE_STAT <= s.intel && BASE_STAT <= s.wis && BASE_STAT <= s.cha
    && s.str + s.dex + s.con + s.intel + s.wis + s.cha == 6 * BASE_STAT + POINT_POOL
  }

  method ValidateStats(s: Stats) returns (ok: bool)
    ensures ok <==> PointBuy(s)
  {
    var stats := StatSeq(s);
    SumOfSix(stats);
    var total := 0;
    for i := 0 to |stats|
      invariant forall j :: 0 <= j < i ==> BASE_STAT <= stats[j]
      invariant total == SumOf(stats, i) - i * BASE_STAT
    {
      if stats[i] < BASE_STAT {
        assert stats[i] in {s.str, s.dex, s.con, s.intel, s.wis, s.cha};
        return false;
      }
      total := total + (stats[i] - BASE_STAT);
    }
    return total == POINT_POOL;
  }

  function SumOf(s: seq<int>, n: nat): int
    requires n <= |s|
  {
    if n == 0 then 0 else SumOf(s, n - 1) + s[n - 1]
  }

  lemma SumOfSix(s: seq<int>)
    requires |s| == 6
    ensures SumOf(s, 6) == s[0] + s[1] + s[2] + s[3] + s[4] + s[5]
  {
    assert SumOf(s, 1) == s[0];
    assert SumOf(s, 2) == s[0] + s[1];
    assert SumOf(s, 3) == s[0] + s[1] + s[2];
    assert SumOf(s, 4) == s[0] + s[1] + s[2] + s[3];
    assert SumOf(s, 5) == s[0] + s[1] + s[2] + s[3] + s[4];
  }

  const DEFAULT_STATS: Stats := Stats(str := 14, dex := 12, con := 12, intel := 10, wis := 10, cha := 10)

  /** None means the default allocation. */
  method NewCharacter(name: string, class_: string, stats: Option<Stats>) returns (r: Option<Character>)
    ensures r.Some? <==> class_ in CLASSES && (stats.Some? ==> PointBuy(stats.value))
    ensures r.Some? ==>
      && r.value.name == name && r.value.class_ == class_ && r.value.level == 1 && r.value.xp == 0
      && r.value.stats == (if stats.Some? then stats.value else DEFAULT_STATS) && PointBuy(r.value.stats)
      && r.value.hp == r.value.maxHP == 20 + (r.value.stats.con - 10) / 2 && 20 <= r.value.hp <= 24
      && r.value.mp == r.value.maxMP == (if class_ == "mage" || class_ == "priest" then 10 else 0)
      && r.value.inventory == [] && r.value.equipped == Equipment("", "", "", "")
  {
    if class_ !in CLASSES {
      return None;
    }
    var s := DEFAULT_STATS;
    if stats.Some? {
      s := stats.value;
    }
    var ok := ValidateStats(s);
    if !ok {
      return None;
    }
    var hp := AtLeastOne(20 + StatModifier(s.con));
    var mp := if class_ == "mage" || class_ == "priest" then 10 else 0;
    return Some(Character(name, class_, 1, hp, mp, hp, mp, 0, s, [], Equipment("", "", "", "")));
  }
}
