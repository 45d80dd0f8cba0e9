/** What rising levels brings to each class, in closed form. */
module LevelGains {
  import opened GameStates
  import opened Leveling

  /** How much one level adds to a stat of a class: the two stats it lives by rise by one. */
  predicate StatsRise(class_: string, before: Stats, after: Stats, k: int) {
    if class_ == "fighter" then after == before.(str := before.str + k, con := before.con + k)
    else if class_ == "mage" then after == before.(intel := before.intel + k, wis := before.wis + k)
    else if class_ == "priest" then after == before.(wis := before.wis + k, cha := before.cha + k)
    else if class_ == "thief" then after == before.(dex := before.dex + k, cha := before.cha + k)
    else after == before
  }

  /** Half of what a stat has over ten, toward zero. */
  function Bonus(stat: int): int { if stat >= 10 then (stat - 10) / 2 else -((10 - stat) / 2) }

  /** The hit points of one level for a hero whose Constitution then is `con`; at least one. */
  function LevelHP(base: nat, con: int): int {
    if base + Bonus(con) < 1 then 1 else base + Bonus(con)
  }

  /** The hit points of `k` levels of a fighter, whose Constitution rises with each. */
  function FighterHP(con: int, k: nat): int {
    if k == 0 then 0 else FighterHP(con, k - 1) + LevelHP(8, con + k)
  }

  lemma {:induction false} FighterHPShifts(con: int, k: nat)
    ensures FighterHP(con, k + 1) == LevelHP(8, con + 1) + FighterHP(con + 1, k)
  {
    hide LevelHP;
    if k > 0 {
      FighterHPShifts(con, k - 1);
    }
  }

  function HPOfLevels(class_: string, con: int, k: nat): int {
    if class_ == "fighter" then FighterHP(con, k)
    else if class_ == "mage" then k * LevelHP(4, con)
    else if class_ == "priest" || class_ == "thief" then k * LevelHP(6, con)
    else 0
  }

  function MPOfLevels(class_: string, k: nat): int {
    if class_ == "mage" then 4 * k else if class_ == "priest" then 3 * k else 0
  }

  /** `l` is `h` after `k` levels: the two stats of the class risen by k each, MaxMP by 4, 3 or no
      points a level, MaxHP by the base 8, 4 or 6 with the Constitution bonus of each level, and HP
      and MP by as much. */
  predicate Risen(h: Character, l: Character, k: nat) {
    && l.level == h.level + k
    && StatsRise(h.class_, h.stats, l.stats, k)
    && l.maxHP == h.maxHP + HPOfLevels(h.class_, h.stats.con, k)
    && l.maxMP == h.maxMP + MPOfLevels(h.class_, k)
    && l.hp - h.hp == l.maxHP - h.maxHP && l.mp - h.mp == l.maxMP - h.maxMP
    && l == h.(level := l.level, stats := l.stats, maxHP := l.maxHP, hp := l.hp, maxMP := l.maxMP, mp := l.mp)
  }

  lemma OneLevel(h: Character)
    requires Thresholds(h.class_).Some?
    ensures Risen(h, LevelOnce(h), 1) && h.class_ in CLASSES
  {
    assert FighterHP(h.stats.con, 1) == FighterHP(h.stats.con, 0) + LevelHP(8, h.stats.con + 1);
  }

  lemma NoLevel(h: Character)
    ensures Risen(h, h, 0)
  {
  }

  lemma RisenMore(h: Character, g: Character, l: Character, k: nat)
    requires Risen(h, g, 1) && Risen(g, l, k) && h.class_ in CLASSES
    ensures Risen(h, l, k + 1)
  {
    hide LevelHP, FighterHP, HPOfLevels;
    HPOfMore(h.class_, h.stats.con, k);
  }

  lemma HPOfMore(class_: string, con: int, k: nat)
    requires class_ in CLASSES
    ensures HPOfLevels(class_, con, k + 1)
         == HPOfLevels(class_, con, 1) + HPOfLevels(class_, if class_ == "fighter" then con + 1 else con, k)
  {
    hide LevelHP;
    FighterHPShifts(con, k);
    FighterHPShifts(con, 0);
    assert (k + 1) * LevelHP(4, con) == LevelHP(4, con) + k * LevelHP(4, con);
    assert (k + 1) * LevelHP(6, con) == LevelHP(6, con) + k * LevelHP(6, con);
  }

  /** A level check lifts the hero by some number of levels with exactly these gains; a hero of an
      unknown class stays what he is. */
  lemma {:induction false} GainsOfLevels(h: Character)
    requires -1 <= h.level
    ensures h.level <= Leveled(h).level && Risen(h, Leveled(h), Leveled(h).level - h.level)
    ensures h.class_ !in CLASSES ==> Leveled(h) == h
    decreases MAX_LEVEL - h.level
  {
    hide Risen, LevelOnce;
    if CanLevel(h) {
      OneLevel(h);
      LevelOnceSteps(h);
      var g := LevelOnce(h);
      GainsOfLevels(g);
      RisenMore(h, g, Leveled(g), Leveled(g).level - g.level);
    } else {
      NoLevel(h);
    }
  }

  /** What the check reports of the stats: the two of the class, k each, if there was a rise. */
  function StatsReported(class_: string, k: nat): map<string, int> {
    if k == 0 then map[]
    else if class_ == "fighter" then map["STR" := k, "CON" := k]
    else if class_ == "mage" then map["INT" := k, "WIS" := k]
    else if class_ == "priest" then map["WIS" := k, "CHA" := k]
    else if class_ == "thief" then map["DEX" := k, "CHA" := k]
    else map[]
  }

  /** A report that lists what grew, as CheckLevelUp's does, is exactly that one. */
  lemma StatsAreReported(h: Character, gain: map<string, int>)
    requires -1 <= h.level && Grew(h.stats, Leveled(h).stats, gain)
    ensures h.level <= Leveled(h).level && gain == StatsReported(h.class_, Leveled(h).level - h.level)
  {
    hide Leveled, Grew, HPOfLevels, MPOfLevels;
    GainsOfLevels(h);
    var k: nat := Leveled(h).level - h.level;
    if h.class_ !in CLASSES {
      SameLevelNothing(h, gain);
    } else {
      GrewTells(h.class_, h.stats, Leveled(h).stats, k, gain);
    }
  }

  lemma SameLevelNothing(h: Character, gain: map<string, int>)
    requires Grew(h.stats, h.stats, gain)
    ensures gain == map[]
  {
    forall name ensures name !in gain {
      assert StatNamed(h.stats, name) == StatNamed(h.stats, name) + Times(gain, name);
    }
  }

  lemma GrewTells(class_: string, before: Stats, after: Stats, k: nat, gain: map<string, int>)
    requires class_ in CLASSES && StatsRise(class_, before, after, k) && Grew(before, after, gain)
    ensures gain == StatsReported(class_, k)
  {
    var told := StatsReported(class_, k);
    forall name ensures Times(gain, name) == Times(told, name) && (name in gain <==> Times(gain, name) > 0) {
      assert StatNamed(after, name) == StatNamed(before, name) + Times(gain, name);
      StatNames(class_, before, after, k, name);
    }
    assert forall name :: name in told <==> Times(told, name) > 0;
    assert gain.Keys == told.Keys;
  }

  lemma StatNames(class_: string, before: Stats, after: Stats, k: nat, name: string)
    requires class_ in CLASSES && StatsRise(class_, before, after, k)
    ensures StatNamed(after, name) == StatNamed(before, name) + Times(StatsReported(class_, k), name)
  {
  }

  /** Fighters pay least and mages most, and from level six on each level costs twice the one before. */
  lemma LevelCosts(class_: string, l: nat)
    requires class_ in CLASSES && 2 <= l <= MAX_LEVEL
    ensures Thresholds(class_).Some? && |Thresholds(class_).value| == 11
    ensures var cost := Thresholds(class_).value;
            && (5 < l ==> cost[l] == 2 * cost[l - 1])
            && Thresholds("fighter").value[l] <= cost[l] <= Thresholds("mage").value[l]
            && Thresholds("thief").value[l] <= Thresholds("priest").value[l]
            && cost[2..6] == (if class_ == "fighter" then [20, 50, 100, 200] else if class_ == "mage" then [30, 75, 150, 300]
                              else if class_ == "priest" then [25, 60, 120, 250] else [22, 55, 110, 220])
  {
  }
}
