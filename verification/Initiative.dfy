/** Who fights and who acts first, told by the dice and the templates. */
module Initiative {
  import opened Decimals
  import opened Scenarios
  import opened GameStates
  import opened Combat
  import opened CombatInvariant

  /** An enemy as its template describes it, in full health, numbered by its place. */
  predicate FromTemplate(spec: Spec, e: Enemy, t: string, i: nat) {
    && t in spec.enemies && e.id == Numbered(t, i) && e.templateID == t
    && e.hp == e.maxHP == spec.enemies[t].hp
    && e.name == spec.enemies[t].name && e.attack == spec.enemies[t].attack && e.ai == spec.enemies[t].ai
  }

  lemma {:induction false} InstancesAreTemplates(spec: Spec, templates: seq<string>)
    requires TemplatesKnown(spec, templates)
    ensures |Instances(spec, templates)| == |templates|
    ensures forall i :: 0 <= i < |templates| ==> FromTemplate(spec, Instances(spec, templates)[i], templates[i], i)
  {
    hide Numbered;
    if templates != [] {
      InstancesAreTemplates(spec, templates[..|templates| - 1]);
    }
  }

  /** The initiative of whoever is at place `k`: the hero, at 0, adds Dexterity to his roll, enemy k - 1
      adds ten to its own. */
  function Score(dex: int, rolls: nat -> int, k: nat): int {
    rolls(k) + if k == 0 then dex else 10
  }

  /** Who is meant by a place. */
  function WhoIs(es: seq<Enemy>, k: nat): string
    requires k <= |es|
  {
    if k == 0 then HERO else es[k - 1].id
  }

  /** Place `i` has the higher score, or as high a one and comes first. */
  predicate Ahead(dex: int, rolls: nat -> int, i: nat, j: nat) {
    Score(dex, rolls, i) > Score(dex, rolls, j) || (Score(dex, rolls, i) == Score(dex, rolls, j) && i < j)
  }

  /** The opening order lists the hero and the enemies, each once, whoever is ahead first. */
  lemma OpeningPlaces(spec: Spec, w: World, templates: seq<string>, rolls: nat -> int) returns (places: seq<nat>)
    requires TemplatesKnown(spec, templates)
    ensures var es := Instances(spec, templates);
            var order := Opening(w, es, rolls).turnOrder;
            && multiset(order) == multiset([HERO] + EnemyIds(es)) && |places| == |order|
            && (forall p :: 0 <= p < |order| ==> places[p] <= |es| && order[p] == WhoIs(es, places[p]))
            && (forall p, q :: 0 <= p < q < |order| ==> Ahead(w.hero.stats.dex, rolls, places[p], places[q]))
  {
    hide Instances, TemplatesKnown, Sorted, InitiativeOrder, Score;
    var es, dex := Instances(spec, templates), w.hero.stats.dex;
    var s := Sorted(Entries(dex, es, rolls));
    OpeningOrder(spec, w, templates, rolls);
    OpeningRoster(spec, w, templates, rolls);
    forall p | 0 <= p < |s|
      ensures s[p].index <= |es| && s[p].id == WhoIs(es, s[p].index) && s[p].roll == Score(dex, rolls, s[p].index)
    {
      SortedEntry(spec, templates, dex, rolls, p);
    }
    places := seq(|s|, p requires 0 <= p < |s| => s[p].index);
    forall p, q | 0 <= p < q < |s| ensures Ahead(dex, rolls, places[p], places[q]) {
      InOrder(s, p, q);
    }
  }

  lemma InOrder(s: seq<InitEntry>, p: nat, q: nat)
    requires InitiativeOrder(s) && p < q < |s|
    ensures s[p].roll > s[q].roll || (s[p].roll == s[q].roll && s[p].index < s[q].index)
  {
  }

  lemma SortedEntry(spec: Spec, templates: seq<string>, dex: int, rolls: nat -> int, p: nat)
    requires TemplatesKnown(spec, templates)
    requires p < |Sorted(Entries(dex, Instances(spec, templates), rolls))|
    ensures var es := Instances(spec, templates);
            var e := Sorted(Entries(dex, es, rolls))[p];
            e.index <= |es| && e.id == WhoIs(es, e.index) && e.roll == Score(dex, rolls, e.index)
  {
    hide Instances, TemplatesKnown, Sorted, InitiativeOrder;
    var es := Instances(spec, templates);
    var entries := Entries(dex, es, rolls);
    EntriesPlaced(spec, templates, dex, rolls);
    SortedByInitiative(entries);
    assert Sorted(entries)[p] in entries;
    var k :| 0 <= k < |entries| && entries[k] == Sorted(entries)[p];
  }

  lemma EntriesPlaced(spec: Spec, templates: seq<string>, dex: int, rolls: nat -> int)
    requires TemplatesKnown(spec, templates)
    ensures var entries := Entries(dex, Instances(spec, templates), rolls);
            forall i :: 0 <= i < |entries| ==> entries[i].index == i && (entries[i].id == HERO <==> i == 0)
  {
    InstancesShape(spec, templates);
    var entries := Entries(dex, Instances(spec, templates), rolls);
    forall i | 0 <= i < |entries| ensures entries[i].index == i && (entries[i].id == HERO <==> i == 0) {
      if i > 0 {
        EnemyIdsFresh(templates[i - 1], i - 1, "", 0);
      }
    }
  }

  /** A fight starts exactly where there is none yet and the room is known, not cleared, and lists
      enemies that are all known; it starts with these, in round one, the first in the order to act. */
  lemma FightStarts(spec: Spec, w: World, rolls: nat -> int)
    ensures var (w', r) := CombatStarted(spec, w, rolls);
            var room := w.currentRoom;
            && (r.Ok? <==>
                  && !w.combat.active && room in spec.rooms && spec.rooms[room].enemies != []
                  && (room in w.roomState ==> !w.roomState[room].cleared)
                  && forall i :: 0 <= i < |spec.rooms[room].enemies| ==> spec.rooms[room].enemies[i] in spec.enemies)
            && w'.hero == w.hero && w'.currentRoom == w.currentRoom && w'.visitedRooms == w.visitedRooms
            && (r.Err? ==> w'.combat == w.combat)
            && (r.Ok? ==>
                  && w'.combat.active && w'.combat.round == 1 && w'.combat.currentTurn == 0 && !w'.combat.heroDefending
                  && w'.combat.enemies == r.value && |r.value| == |spec.rooms[room].enemies|
                  && forall i :: 0 <= i < |r.value| ==> FromTemplate(spec, r.value[i], spec.rooms[room].enemies[i], i))
  {
    hide FromTemplate, Entries, Sorted, OrderOf;
    if CombatStarted(spec, w, rolls).1.Ok? {
      InstancesAreTemplates(spec, spec.rooms[w.currentRoom].enemies);
    }
  }

  // ---------- Turns and rounds ----------

  /** Turns counted through: rounds times their length, and the place in the round. */
  function Clock(c: CombatState): int { c.round * |c.turnOrder| + c.currentTurn }

  /** Who is `j` places on, around the end of the order. */
  function IdAfter(c: CombatState, j: nat): string
    requires 0 <= c.currentTurn < |c.turnOrder| && j <= |c.turnOrder|
  {
    var p := c.currentTurn + j;
    c.turnOrder[if p < |c.turnOrder| then p else p - |c.turnOrder|]
  }

  /** Each advance moves the clock on by as many places as it takes to find somebody who acts: at least
      one, at most a round, and nobody who could act is passed over. */
  lemma ClockAdvances(c: CombatState)
    requires WellIndexed(c) && c.turnOrder != []
    ensures var c', n := Advanced(c), |c.turnOrder|;
            && c'.turnOrder == c.turnOrder && c'.enemies == c.enemies
            && 1 <= Clock(c') - Clock(c) <= n
            && (forall j :: 0 < j < Clock(c') - Clock(c) ==> IdAfter(c, j) != HERO && !Living(c.enemies, IdAfter(c, j)))
            && (Clock(c') - Clock(c) < n ==> c'.turnOrder[c'.currentTurn] == HERO || Living(c.enemies, c'.turnOrder[c'.currentTurn]))
            && c'.heroDefending == (c.heroDefending && c'.turnOrder[c'.currentTurn] != HERO)
  {
    hide Living;
    var n, r := |c.turnOrder|, Steps(c, 1);
    RoundArithmetic(c.round, n);
    assert Clock(Advanced(c)) == Clock(c) + r;
    forall j: nat | 0 < j < r ensures !Acts(c, IdAfter(c, j)) {
      assert IdAfter(c, j) == c.turnOrder[Place(c, j)];
    }
  }

  lemma RoundArithmetic(round: int, n: int)
    ensures (round + 1) * n == round * n + n
  {
  }
}
