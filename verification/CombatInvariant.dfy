/** What holds of every fight: a duplicate-free turn order over the hero and the enemies, a
    pointer that rests on somebody who can act, living opposition, and hit points in range. */
module CombatInvariant {
  import opened Wrappers
  import opened Decimals
  import opened Scenarios
  import opened GameStates
  import opened Combat
  import opened Spells

  /** The turn order is a duplicate-free permutation of "hero" and the enemy ids. */
  ghost predicate Roster(c: CombatState) {
    && (forall i, j :: 0 <= i < j < |c.enemies| ==> c.enemies[i].id != c.enemies[j].id)
    && (forall i :: 0 <= i < |c.enemies| ==> c.enemies[i].id != HERO)
    && multiset(c.turnOrder) == multiset([HERO] + EnemyIds(c.enemies))
  }

  ghost predicate Healthy(es: seq<Enemy>) {
    forall i :: 0 <= i < |es| ==> 0 <= es[i].hp <= es[i].maxHP
  }

  /** The pointer is in range and rests on the hero, unguarded, or on a living enemy. */
  ghost predicate Pointed(c: CombatState) {
    && 0 <= c.currentTurn < |c.turnOrder|
    && Acts(c, c.turnOrder[c.currentTurn])
    && (HeroTurn(c) ==> !c.heroDefending)
  }

  ghost predicate CombatOK(c: CombatState) {
    c.active && Roster(c) && Healthy(c.enemies) && Pointed(c) && !AllDead(c.enemies)
  }

  ghost predicate WorldOK(w: World) {
    if w.combat.active then CombatOK(w.combat) else w.combat == NO_COMBAT
  }

  lemma PointedRange(c: CombatState)
    requires Pointed(c)
    ensures 0 <= c.currentTurn < |c.turnOrder| && Acts(c, c.turnOrder[c.currentTurn])
  {
  }

  lemma RosterOrder(c: CombatState)
    requires Roster(c)
    ensures |c.turnOrder| == |c.enemies| + 1 && HERO in c.turnOrder
    ensures forall i :: 0 <= i < |c.turnOrder| ==> c.turnOrder[i] == HERO || FindEnemy(c.enemies, c.turnOrder[i]) >= 0
    ensures forall i :: 0 <= i < |c.enemies| ==> c.enemies[i].id in c.turnOrder
  {
    var all := [HERO] + EnemyIds(c.enemies);
    assert |multiset(c.turnOrder)| == |multiset(all)|;
    assert HERO in multiset(all);
    forall i | 0 <= i < |c.turnOrder| ensures c.turnOrder[i] == HERO || FindEnemy(c.enemies, c.turnOrder[i]) >= 0 {
      assert c.turnOrder[i] in multiset(c.turnOrder);
      assert c.turnOrder[i] in all;
      if c.turnOrder[i] != HERO {
        var j :| 0 <= j < |c.enemies| && EnemyIds(c.enemies)[j] == c.turnOrder[i];
      }
    }
    forall i | 0 <= i < |c.enemies| ensures c.enemies[i].id in c.turnOrder {
      assert all[i + 1] == c.enemies[i].id && c.enemies[i].id in multiset(all);
    }
  }

  /** A multiset of distinct things gives a sequence without repetition. */
  lemma NoRepeats(s: seq<string>, i: nat, j: nat)
    requires i < j < |s| && s[i] == s[j]
    ensures multiset(s)[s[i]] >= 2
  {
    assert s == s[..i] + [s[i]] + s[i + 1..j] + [s[j]] + s[j + 1..];
  }

  lemma {:induction false} IdCount(es: seq<Enemy>, id: string)
    requires forall i, j :: 0 <= i < j < |es| ==> es[i].id != es[j].id
    ensures multiset(EnemyIds(es))[id] <= 1
    ensures id in EnemyIds(es) <==> FindEnemy(es, id) >= 0
  {
    if es != [] {
      var m := |es| - 1;
      IdCount(es[..m], id);
      assert EnemyIds(es) == EnemyIds(es[..m]) + [es[m].id];
    }
    var ids := EnemyIds(es);
    if id in ids {
      var k :| 0 <= k < |es| && ids[k] == id;
      assert es[k].id == id;
    }
    if FindEnemy(es, id) >= 0 {
      assert ids[FindEnemy(es, id)] == id;
    }
  }

  lemma RosterCount(c: CombatState, id: string)
    requires Roster(c)
    ensures multiset(c.turnOrder)[id] <= 1
  {
    IdCount(c.enemies, id);
    assert multiset([HERO] + EnemyIds(c.enemies)) == multiset{HERO} + multiset(EnemyIds(c.enemies));
    assert HERO !in EnemyIds(c.enemies);
  }

  lemma TurnOrderDistinct(c: CombatState)
    requires Roster(c)
    ensures forall i, j :: 0 <= i < j < |c.turnOrder| ==> c.turnOrder[i] != c.turnOrder[j]
  {
    forall i, j | 0 <= i < j < |c.turnOrder| ensures c.turnOrder[i] != c.turnOrder[j] {
      RosterCount(c, c.turnOrder[i]);
      if c.turnOrder[i] == c.turnOrder[j] {
        NoRepeats(c.turnOrder, i, j);
      }
    }
  }

  /** The hero is somewhere on the way round, so the pointer always finds somebody. */
  lemma SomebodyActs(c: CombatState)
    requires HERO in c.turnOrder && 0 <= c.currentTurn < |c.turnOrder|
    ensures Acts(c, c.turnOrder[Place(c, Steps(c, 1))])
  {
    hide Living;
    var n := |c.turnOrder|;
    if Steps(c, 1) == n {
      var h :| 0 <= h < n && c.turnOrder[h] == HERO;
      var k := if c.currentTurn <= h then h - c.currentTurn else h + n - c.currentTurn;
      assert Place(c, k) == h;
      assert k == 0;
    }
  }

  lemma AdvancedPointed(c: CombatState)
    requires Roster(c) && 0 <= c.currentTurn < |c.turnOrder|
    ensures var c' := Advanced(c);
            && c' == c.(currentTurn := c'.currentTurn, round := c'.round, heroDefending := c'.heroDefending)
            && Pointed(c') && Roster(c')
  {
    hide Roster, Living, Steps;
    RosterOrder(c);
    RosterSame(c, Advanced(c));
    SomebodyActs(c);
  }

  // ---------- The hero's and the enemies' actions ----------

  lemma LivingUpdate(es: seq<Enemy>, i: nat, e: Enemy)
    requires i < |es| && e.id == es[i].id
    ensures EnemyIds(es[i := e]) == EnemyIds(es)
    ensures forall id :: FindEnemy(es[i := e], id) == FindEnemy(es, id)
  {
    forall id ensures FindEnemy(es[i := e], id) == FindEnemy(es, id) {
      var a, b := FindEnemy(es[i := e], id), FindEnemy(es, id);
      assert a >= 0 ==> es[a].id == id;
      assert b >= 0 ==> es[i := e][b].id == id;
    }
  }

  lemma RosterUpdate(c: CombatState, i: nat, e: Enemy)
    requires Roster(c) && i < |c.enemies| && e.id == c.enemies[i].id
    ensures Roster(c.(enemies := c.enemies[i := e]))
  {
    LivingUpdate(c.enemies, i, e);
  }

  lemma StruckOK(spec: Spec, w: World, i: nat, damage: int)
    requires CombatOK(w.combat) && i < |w.combat.enemies| && 1 <= damage
    ensures WorldOK(Struck(spec, w, i, damage))
  {
    hide Roster;
    var e := Hurt(w.combat.enemies[i], damage);
    var c := w.combat.(enemies := w.combat.enemies[i := e]);
    RosterUpdate(w.combat, i, e);
    RosterSame(c, c.(heroDefending := false));
    if !AllDead(c.enemies) {
      AdvancedPointed(c.(heroDefending := false));
    }
  }

  lemma RosterSame(c: CombatState, d: CombatState)
    requires Roster(c) && d.enemies == c.enemies && d.turnOrder == c.turnOrder
    ensures Roster(d)
  {
  }

  lemma SpentTurnOK(w: World, guard: bool)
    requires CombatOK(w.combat)
    ensures CombatOK(Advanced(w.combat.(heroDefending := guard)))
  {
    RosterSame(w.combat, w.combat.(heroDefending := guard));
    AdvancedPointed(w.combat.(heroDefending := guard));
  }

  lemma AttackedOK(spec: Spec, w: World, target: string, roll: int)
    requires WorldOK(w)
    ensures WorldOK(Attacked(spec, w, target, roll).0)
  {
    if Barred(w).None? {
      var i := FindEnemy(w.combat.enemies, target);
      if i >= 0 {
        StruckOK(spec, w, i, AtLeastOne(roll));
      }
    }
  }

  lemma DefendedOK(w: World)
    requires WorldOK(w)
    ensures WorldOK(Defended(w).0)
  {
    if Barred(w).None? {
      SpentTurnOK(w, true);
    }
  }

  lemma FledOK(w: World, roll: int)
    requires WorldOK(w)
    ensures WorldOK(Fled(w, roll).0)
  {
    if Barred(w).None? {
      SpentTurnOK(w, false);
    }
  }

  lemma CastOK(spec: Spec, w: World, spellID: string, target: string, roll: Option<int>)
    requires WorldOK(w)
    ensures WorldOK(Cast(spec, w, spellID, target, roll).0)
  {
    hide CombatOK, Struck, Advanced;
    if CastBarred(spec, w, spellID, roll).None? {
      var power := AtLeastOne(roll.value);
      var t := Aim(w, target);
      if w.combat.active {
        SpentTurnOK(w, false);
        if DamageBarred(w, t).None? {
          StruckOK(spec, w, FindEnemy(w.combat.enemies, t), power);
        }
      }
    }
  }

  lemma EnemyActedOK(spec: Spec, w: World, roll: int)
    requires WorldOK(w)
    ensures WorldOK(EnemyActed(spec, w, roll).0)
  {
    hide Roster, Advanced, Mitigated;
    var c := w.combat;
    if c.active && !HeroTurn(c) {
      var i := FindEnemy(c.enemies, c.turnOrder[c.currentTurn]);
      AdvancedSound(c);
      if i >= 0 {
        RosterUpdate(c, i, c.enemies[i].(hp := 0));
        AdvancedSound(c.(enemies := c.enemies[i := c.enemies[i].(hp := 0)]));
      }
    }
  }

  /** Advancing keeps a fight sound as long as an enemy lives. */
  lemma AdvancedSound(c: CombatState)
    requires c.active && Roster(c) && Healthy(c.enemies) && 0 <= c.currentTurn < |c.turnOrder|
    ensures Advanced(c).enemies == c.enemies
    ensures CombatOK(Advanced(c)) <==> !AllDead(c.enemies)
  {
    hide Roster, Advanced;
    AdvancedPointed(c);
  }

  // ---------- Starting a fight ----------

  /** The scenario's enemies start alive; scenario validation does not demand it. */
  predicate TemplatesAlive(spec: Spec) {
    forall id :: id in spec.enemies ==> spec.enemies[id].hp > 0
  }

  lemma {:induction false} InstancesShape(spec: Spec, templates: seq<string>)
    requires TemplatesKnown(spec, templates)
    ensures |Instances(spec, templates)| == |templates|
    ensures forall i :: 0 <= i < |templates| ==>
      var e := Instances(spec, templates)[i];
      e.id == EnemyId(templates[i], i) && e.hp == e.maxHP == spec.enemies[templates[i]].hp
  {
    if templates != [] {
      InstancesShape(spec, templates[..|templates| - 1]);
    }
  }

  lemma EnemyIdsFresh(a: string, i: nat, b: string, j: nat)
    ensures EnemyId(a, i) == EnemyId(b, j) ==> i == j
    ensures EnemyId(a, i) != HERO
  {
    if EnemyId(a, i) == EnemyId(b, j) {
      NumberedInjective(a, i, b, j);
    }
    assert EnemyId(a, i)[|a|] == '_';
    assert HERO[0] != '_' && HERO[1] != '_' && HERO[2] != '_' && HERO[3] != '_';
  }

  lemma OrderSnoc(s: seq<InitEntry>, e: InitEntry)
    ensures OrderOf(s + [e]) == OrderOf(s) + [e.id]
  {
  }

  lemma {:induction false} InsertPermutes(sorted: seq<InitEntry>, e: InitEntry)
    ensures multiset(OrderOf(Insert(sorted, e))) == multiset(OrderOf(sorted)) + multiset{e.id}
  {
    hide OrderOf;
    if sorted == [] || !Before(e, sorted[|sorted| - 1]) {
      OrderSnoc(sorted, e);
    } else {
      var init, last := sorted[..|sorted| - 1], sorted[|sorted| - 1];
      InsertPermutes(init, e);
      assert sorted == init + [last];
      OrderSnoc(init, last);
      OrderSnoc(Insert(init, e), last);
    }
  }

  lemma {:induction false} SortedPermutes(entries: seq<InitEntry>)
    ensures multiset(OrderOf(Sorted(entries))) == multiset(OrderOf(entries))
  {
    hide OrderOf, Insert;
    if entries != [] {
      var init, last := entries[..|entries| - 1], entries[|entries| - 1];
      SortedPermutes(init);
      InsertPermutes(Sorted(init), last);
      assert entries == init + [last];
      OrderSnoc(init, last);
    }
  }

  lemma OpeningRoster(spec: Spec, w: World, templates: seq<string>, rolls: nat -> int)
    requires TemplatesKnown(spec, templates)
    ensures Roster(Opening(w, Instances(spec, templates), rolls))
  {
    var es := Instances(spec, templates);
    var entries := Entries(w.hero.stats.dex, es, rolls);
    InstancesShape(spec, templates);
    forall i, j | 0 <= i < j < |es| ensures es[i].id != es[j].id {
      EnemyIdsFresh(templates[i], i, templates[j], j);
    }
    forall i | 0 <= i < |es| ensures es[i].id != HERO {
      EnemyIdsFresh(templates[i], i, templates[i], i);
    }
    SortedPermutes(entries);
    assert OrderOf(entries) == [HERO] + EnemyIds(es);
  }

  /** StartCombat establishes the invariant. */
  lemma CombatStartedOK(spec: Spec, w: World, rolls: nat -> int)
    requires WorldOK(w) && TemplatesAlive(spec)
    ensures WorldOK(CombatStarted(spec, w, rolls).0)
    ensures CombatStarted(spec, w, rolls).1.Ok? ==> CombatStarted(spec, w, rolls).0.combat.active
  {
    if CombatStarted(spec, w, rolls).1.Ok? {
      hide Roster, OrderOf, Pointed;
      var templates := spec.rooms[w.currentRoom].enemies;
      var es := Instances(spec, templates);
      var c := Opening(w, es, rolls);
      InstancesShape(spec, templates);
      OpeningRoster(spec, w, templates, rolls);
      assert es[0].hp > 0;
      AllAlivePointed(c);
    }
  }

  /** Where everybody lives the first in the order can act. */
  lemma AllAlivePointed(c: CombatState)
    requires Roster(c) && c.currentTurn == 0 && !c.heroDefending
    requires forall i :: 0 <= i < |c.enemies| ==> c.enemies[i].hp > 0
    ensures Pointed(c)
  {
    hide Roster;
    RosterOrder(c);
    assert Acts(c, c.turnOrder[0]);
  }

  /** Initiative: higher rolls act first; on equal rolls the hero, who has index 0, precedes
      every enemy, and enemies keep the order of the room's list. */
  predicate Precedes(a: InitEntry, b: InitEntry) {
    a.roll > b.roll || (a.roll == b.roll && a.index < b.index)
  }

  ghost predicate InitiativeOrder(s: seq<InitEntry>) {
    forall i, j :: 0 <= i < j < |s| ==> Precedes(s[i], s[j])
  }

  lemma InitiativeSnoc(s: seq<InitEntry>, e: InitEntry)
    requires InitiativeOrder(s) && forall x :: x in s ==> Precedes(x, e)
    ensures InitiativeOrder(s + [e])
  {
    forall i, j | 0 <= i < j < |s + [e]| ensures Precedes((s + [e])[i], (s + [e])[j]) {
      if j == |s| {
        assert s[i] in s;
      }
    }
  }

  lemma {:induction false} InsertKeepsOrder(sorted: seq<InitEntry>, e: InitEntry)
    requires InitiativeOrder(sorted) && e.id != HERO
    requires forall x :: x in sorted ==> x.index < e.index
    ensures InitiativeOrder(Insert(sorted, e))
    ensures forall x :: x in Insert(sorted, e) <==> x in sorted || x == e
  {
    if sorted == [] {
    } else {
      var init, last := sorted[..|sorted| - 1], sorted[|sorted| - 1];
      assert sorted == init + [last];
      assert forall x :: x in init ==> x in sorted && Precedes(x, last);
      assert last in sorted;
      if Before(e, last) {
        InsertKeepsOrder(init, e);
        InitiativeSnoc(Insert(init, e), last);
      } else {
        InitiativeSnoc(sorted, e);
      }
    }
  }

  /** What the stable sort of the initiative rolls amounts to. */
  lemma {:induction false} SortedByInitiative(entries: seq<InitEntry>)
    requires forall i :: 0 <= i < |entries| ==> entries[i].index == i && (entries[i].id == HERO <==> i == 0)
    ensures InitiativeOrder(Sorted(entries))
    ensures forall x :: x in Sorted(entries) <==> x in entries
  {
    hide Insert;
    if entries != [] {
      var m := |entries| - 1;
      var init, last := entries[..m], entries[m];
      assert entries == init + [last];
      SortedByInitiative(init);
      if m == 0 {
        InsertFirst(last);
      } else {
        InsertKeepsOrder(Sorted(init), last);
      }
    }
  }

  lemma InsertFirst(e: InitEntry)
    ensures Insert([], e) == [e]
  {
  }

  /** The opening order of a fight is the initiative order of its rolls. */
  lemma OpeningOrder(spec: Spec, w: World, templates: seq<string>, rolls: nat -> int)
    requires TemplatesKnown(spec, templates)
    ensures var s := Sorted(Entries(w.hero.stats.dex, Instances(spec, templates), rolls));
            InitiativeOrder(s) && Opening(w, Instances(spec, templates), rolls).turnOrder == OrderOf(s)
  {
    var es := Instances(spec, templates);
    var entries := Entries(w.hero.stats.dex, es, rolls);
    InstancesShape(spec, templates);
    forall i | 0 <= i < |entries| ensures entries[i].index == i && (entries[i].id == HERO <==> i == 0) {
      if i > 0 {
        EnemyIdsFresh(templates[i - 1], i - 1, "", 0);
      }
    }
    SortedByInitiative(entries);
  }
}
