/** The combat rules: initiative, the cyclic turn pointer, the hero's actions and an enemy's turn.
    Each operation is a function on the world and a method that carries it out; dice results
    are parameters that the rules floor at 1. */
module Combat {
  import opened Wrappers
  import opened Decimals
  import opened Scenarios
  import opened GameStates

  // ---------- Finding enemies ----------

  function EnemyIds(es: seq<Enemy>): seq<string> {
    seq(|es|, i requires 0 <= i < |es| => es[i].id)
  }

  /** The index of the first enemy with this id, or -1. */
  function FindEnemy(es: seq<Enemy>, id: string): (r: int)
    ensures -1 <= r < |es|
    ensures r >= 0 ==> es[r].id == id && forall j :: 0 <= j < r ==> es[j].id != id
    ensures r < 0 ==> forall j :: 0 <= j < |es| ==> es[j].id != id
  {
    var r := PlaceOf(EnemyIds(es), id);
    assert forall j :: 0 <= j < |es| ==> EnemyIds(es)[j] == es[j].id;
    assert r >= 0 ==> forall j :: 0 <= j < r ==> EnemyIds(es)[..r][j] == es[j].id;
    r
  }

  predicate Living(es: seq<Enemy>, id: string) {
    var i := FindEnemy(es, id);
    i >= 0 && es[i].hp > 0
  }

  predicate AllDead(es: seq<Enemy>) {
    forall i :: 0 <= i < |es| ==> es[i].hp <= 0
  }

  /** The id of the first enemy still alive, or "". */
  function FirstAlive(es: seq<Enemy>): string {
    if es == [] then "" else if es[0].hp > 0 then es[0].id else FirstAlive(es[1..])
  }

  predicate IsFirstAlive(es: seq<Enemy>, i: int) {
    0 <= i < |es| && es[i].hp > 0 && AllDead(es[..i])
  }

  method FirstAliveEnemy(state: GameState) returns (id: string)
    ensures id == FirstAlive(state.combat.enemies)
    ensures !AllDead(state.combat.enemies) ==> exists i :: IsFirstAlive(state.combat.enemies, i) && state.combat.enemies[i].id == id
    ensures AllDead(state.combat.enemies) ==> id == ""
  {
    var es := state.combat.enemies;
    assert es[0..] == es;
    for i := 0 to |es|
      invariant AllDead(es[..i]) && FirstAlive(es) == FirstAlive(es[i..])
    {
      if es[i].hp > 0 {
        assert IsFirstAlive(es, i);
        return es[i].id;
      }
      assert es[i..][1..] == es[i + 1..];
    }
    assert es[|es|..] == [] && es[..|es|] == es;
    return "";
  }

  // ---------- The turn pointer ----------

  /** The pointer is in range whenever there is an order to point into. */
  predicate WellIndexed(c: CombatState) {
    c.turnOrder != [] ==> 0 <= c.currentTurn < |c.turnOrder|
  }

  predicate HeroTurn(c: CombatState) {
    0 <= c.currentTurn < |c.turnOrder| && c.turnOrder[c.currentTurn] == HERO
  }

  /** Whoever the pointer may rest on: the hero, or an enemy still alive. */
  predicate Acts(c: CombatState, id: string) { id == HERO || Living(c.enemies, id) }

  /** The place `k` steps after the current one, around the end of the order. */
  function Place(c: CombatState, k: nat): nat
    requires 0 <= c.currentTurn < |c.turnOrder| && k <= |c.turnOrder|
  {
    if c.currentTurn + k < |c.turnOrder| then c.currentTurn + k else c.currentTurn + k - |c.turnOrder|
  }

  /** The first step count from `k` on that lands on someone who acts, or a full round. */
  function Steps(c: CombatState, k: nat): (r: nat)
    requires 0 <= c.currentTurn < |c.turnOrder| && 1 <= k <= |c.turnOrder|
    ensures k <= r <= |c.turnOrder|
    ensures forall j :: k <= j < r ==> !Acts(c, c.turnOrder[Place(c, j)])
    ensures r < |c.turnOrder| ==> Acts(c, c.turnOrder[Place(c, r)])
    decreases |c.turnOrder| - k
  {
    if k == |c.turnOrder| || Acts(c, c.turnOrder[Place(c, k)]) then k else Steps(c, k + 1)
  }

  /** The pointer moved `k` steps on; passing the start of the order opens a new round. */
  function MovedOn(c: CombatState, k: nat): CombatState
    requires 0 <= c.currentTurn < |c.turnOrder| && k <= |c.turnOrder|
  {
    c.(currentTurn := Place(c, k),
       round := if c.currentTurn + k < |c.turnOrder| then c.round else c.round + 1)
  }

  /** The combat after advanceTurn; reaching the hero drops his guard. */
  function Advanced(c: CombatState): CombatState
    requires WellIndexed(c)
  {
    if c.turnOrder == [] then c
    else
      var c' := MovedOn(c, Steps(c, 1));
      if HeroTurn(c') then c'.(heroDefending := false) else c'
  }

  method AdvanceTurn(state: GameState)
    requires WellIndexed(state.combat)
    modifies state`combat
    ensures state.combat == Advanced(old(state.combat))
  {
    var c := state.combat;
    var n := |c.turnOrder|;
    if n == 0 {
      return;
    }
    var start := c.currentTurn;
    ghost var k := 0;
    while true
      invariant 0 <= k < n && state.combat == MovedOn(c, k)
      invariant Steps(c, 1) == Steps(c, k + 1)
      decreases n - k
    {
      NextPlace(c, k);
      state.combat := state.combat.(currentTurn := (state.combat.currentTurn + 1) % n);
      if state.combat.currentTurn == 0 {
        state.combat := state.combat.(round := state.combat.round + 1);
      }
      k := k + 1;
      assert state.combat == MovedOn(c, k);
      var id := state.combat.turnOrder[state.combat.currentTurn];
      if id == HERO {
        state.combat := state.combat.(heroDefending := false);
        return;
      }
      var i := FindEnemy(state.combat.enemies, id);
      if i >= 0 && state.combat.enemies[i].hp > 0 {
        return;
      }
      if state.combat.currentTurn == start {
        return;
      }
    }
  }

  lemma NextPlace(c: CombatState, k: nat)
    requires 0 <= c.currentTurn < |c.turnOrder| && k < |c.turnOrder|
    ensures (Place(c, k) + 1) % |c.turnOrder| == Place(c, k + 1)
    ensures Place(c, k + 1) == 0 <==> c.currentTurn + k + 1 == |c.turnOrder|
    ensures Place(c, k) == c.currentTurn <==> k == 0
  {
    var n := |c.turnOrder|;
    var next := Place(c, k) + 1;
    assert next % n == if next == n then 0 else next;
  }

  // ---------- Starting a fight ----------

  datatype InitEntry = InitEntry(id: string, roll: int, index: nat)

  /** Higher rolls first; the hero wins ties and enemies keep their order. */
  predicate Before(a: InitEntry, b: InitEntry) {
    a.roll > b.roll || (a.roll == b.roll && a.id == HERO)
  }

  /** Stable insertion into a sorted order. */
  function Insert(sorted: seq<InitEntry>, e: InitEntry): seq<InitEntry> {
    if sorted == [] || !Before(e, sorted[|sorted| - 1]) then sorted + [e]
    else Insert(sorted[..|sorted| - 1], e) + [sorted[|sorted| - 1]]
  }

  /** What a stable sort of the entries yields. */
  function Sorted(entries: seq<InitEntry>): seq<InitEntry> {
    if entries == [] then [] else Insert(Sorted(entries[..|entries| - 1]), entries[|entries| - 1])
  }

  function EnemyId(template: string, i: nat): string { Numbered(template, i) }

  /** The enemies of a room, numbered by their place in its list, up to the first unknown template. */
  function Instances(spec: Spec, templates: seq<string>): seq<Enemy> {
    if templates == [] then []
    else
      var i := |templates| - 1;
      var t := templates[i];
      var before := Instances(spec, templates[..i]);
      if t !in spec.enemies then before
      else before + [Enemy(EnemyId(t, i), t, spec.enemies[t].name, spec.enemies[t].hp, spec.enemies[t].hp,
                           spec.enemies[t].attack, spec.enemies[t].ai)]
  }

  predicate TemplatesKnown(spec: Spec, templates: seq<string>) {
    forall i :: 0 <= i < |templates| ==> templates[i] in spec.enemies
  }

  /** Initiative: the hero adds Dexterity, every enemy ten, to a roll of 1d20. */
  function Entries(dex: int, enemies: seq<Enemy>, rolls: nat -> int): seq<InitEntry> {
    [InitEntry(HERO, dex + rolls(0), 0)]
    + seq(|enemies|, i requires 0 <= i < |enemies| => InitEntry(enemies[i].id, 10 + rolls(i + 1), i + 1))
  }

  function OrderOf(entries: seq<InitEntry>): seq<string> {
    seq(|entries|, i requires 0 <= i < |entries| => entries[i].id)
  }

  function Opening(w: World, enemies: seq<Enemy>, rolls: nat -> int): CombatState {
    CombatState(true, enemies, OrderOf(Sorted(Entries(w.hero.stats.dex, enemies, rolls))), 0, 1, false)
  }

  function CombatStarted(spec: Spec, w: World, rolls: nat -> int): (World, Result<seq<Enemy>, EngineError>) {
    if w.combat.active then (w, Err(AlreadyInCombat))
    else if w.currentRoom !in spec.rooms then (w, Err(RoomNotFound(w.currentRoom)))
    else
      var templates := spec.rooms[w.currentRoom].enemies;
      var seen := Ensured(spec, w, w.currentRoom);
      if RoomStateOf(spec, w, w.currentRoom).cleared || templates == [] then (seen, Err(NoEnemies))
      else if !TemplatesKnown(spec, templates) then (seen, Err(TemplateNotFound(FirstUnknown(spec, templates))))
      else
        var enemies := Instances(spec, templates);
        (seen.(combat := Opening(w, enemies, rolls)), Ok(enemies))
  }

  function FirstUnknown(spec: Spec, templates: seq<string>): string {
    if templates == [] then "" else if templates[0] !in spec.enemies then templates[0] else FirstUnknown(spec, templates[1..])
  }

  lemma {:induction false} FirstUnknownFound(spec: Spec, templates: seq<string>, i: nat)
    requires i < |templates| && templates[i] !in spec.enemies && TemplatesKnown(spec, templates[..i])
    ensures FirstUnknown(spec, templates) == templates[i]
  {
    if i > 0 {
      assert templates[..i][0] == templates[0];
      assert templates[1..][..i - 1] == templates[..i][1..];
      FirstUnknownFound(spec, templates[1..], i - 1);
    }
  }

  method StartCombat(spec: Spec, state: GameState, rolls: nat -> int) returns (r: Result<seq<Enemy>, EngineError>)
    modifies state`combat, state`roomState
    ensures (state.Snap(), r) == CombatStarted(spec, old(state.Snap()), rolls)
  {
    if state.combat.active {
      return Err(AlreadyInCombat);
    }
    var roomID := state.currentRoom;
    if roomID !in spec.rooms {
      return Err(RoomNotFound(roomID));
    }
    hide Instances, Entries, Sorted, TemplatesKnown, FirstUnknown;
    var templates := spec.rooms[roomID].enemies;
    var rs := EnsureRoomState(spec, state, roomID);
    if rs.cleared {
      return Err(NoEnemies);
    }
    if |templates| == 0 {
      return Err(NoEnemies);
    }
    var made := Instantiate(spec, templates);
    if made.Err? {
      return Err(made.error);
    }
    var enemies := made.value;
    var order := RollInitiative(state.hero.stats.dex, enemies, rolls);
    state.combat := CombatState(true, enemies, order, 0, 1, false);
    return Ok(enemies);
  }

  method Instantiate(spec: Spec, templates: seq<string>) returns (r: Result<seq<Enemy>, EngineError>)
    ensures r == if TemplatesKnown(spec, templates) then Ok(Instances(spec, templates))
                 else Err(TemplateNotFound(FirstUnknown(spec, templates)))
  {
    var enemies: seq<Enemy> := [];
    for i := 0 to |templates|
      invariant TemplatesKnown(spec, templates[..i]) && enemies == Instances(spec, templates[..i])
    {
      var t := templates[i];
      if t !in spec.enemies {
        FirstUnknownFound(spec, templates, i);
        return Err(TemplateNotFound(t));
      }
      assert templates[..i + 1][..i] == templates[..i];
      enemies := enemies + [Enemy(EnemyId(t, i), t, spec.enemies[t].name, spec.enemies[t].hp, spec.enemies[t].hp,
                                  spec.enemies[t].attack, spec.enemies[t].ai)];
    }
    assert templates[..|templates|] == templates;
    return Ok(enemies);
  }

  method RollInitiative(dex: int, enemies: seq<Enemy>, rolls: nat -> int) returns (order: seq<string>)
    ensures order == OrderOf(Sorted(Entries(dex, enemies, rolls)))
  {
    var entries := [InitEntry(HERO, dex + rolls(0), 0)];
    ghost var all := Entries(dex, enemies, rolls);
    for i := 0 to |enemies|
      invariant entries == all[..i + 1]
    {
      entries := entries + [InitEntry(enemies[i].id, 10 + rolls(i + 1), i + 1)];
      assert all[..i + 2] == all[..i + 1] + [all[i + 1]];
    }
    assert all[..|enemies| + 1] == all;
    var sorted := Sorted(entries);
    order := [];
    for i := 0 to |sorted|
      invariant order == OrderOf(sorted)[..i]
    {
      order := order + [sorted[i].id];
    }
    assert order == OrderOf(sorted);
  }

  // ---------- Ending a fight ----------

  /** Combat over with the current room cleared. */
  function Victory(spec: Spec, w: World): World {
    w.(combat := NO_COMBAT,
       roomState := w.roomState[w.currentRoom := RoomStateOf(spec, w, w.currentRoom).(cleared := true)])
  }

  lemma VictoryForgets(spec: Spec, w: World, c: CombatState)
    ensures Victory(spec, w.(combat := c)) == Victory(spec, w)
  {}

  method EndCombat(spec: Spec, state: GameState)
    modifies state`combat, state`roomState
    ensures state.Snap() == Victory(spec, old(state.Snap()))
  {
    state.combat := NO_COMBAT;
    var rs := EnsureRoomState(spec, state, state.currentRoom);
    rs := rs.(cleared := true);
    state.roomState := state.roomState[state.currentRoom := rs];
  }

  // ---------- The hero's actions ----------

  datatype AttackResult = AttackResult(target: string, damage: int, targetHP: int, killed: bool, xpAwarded: int, combatOver: bool)

  /** Enemy `i` after taking `damage`; hit points stop at 0. */
  function Hurt(e: Enemy, damage: int): Enemy {
    e.(hp := if e.hp - damage < 0 then 0 else e.hp - damage)
  }

  /** The world after the hero deals `damage` to enemy `i`: experience for a kill, then either
      victory or the next turn. */
  function Struck(spec: Spec, w: World, i: nat, damage: int): World
    requires i < |w.combat.enemies| && WellIndexed(w.combat)
  {
    var e := Hurt(w.combat.enemies[i], damage);
    var c := w.combat.(enemies := w.combat.enemies[i := e]);
    var h := if e.hp <= 0 then w.hero.(xp := w.hero.xp + e.maxHP) else w.hero;
    if AllDead(c.enemies) then Victory(spec, w.(hero := h))
    else w.(hero := h, combat := Advanced(c.(heroDefending := false)))
  }

  /** Why the hero may not act now. */
  function Barred(w: World): Option<EngineError> {
    if !w.combat.active then Some(NotInCombat)
    else if w.hero.hp <= 0 then Some(HeroDead)
    else if !HeroTurn(w.combat) then Some(NotHeroTurn)
    else None
  }

  function Attacked(spec: Spec, w: World, target: string, roll: int): (World, Result<AttackResult, EngineError>)
    requires WellIndexed(w.combat)
  {
    if Barred(w).Some? then (w, Err(Barred(w).value))
    else
      var i := FindEnemy(w.combat.enemies, target);
      if i < 0 || w.combat.enemies[i].hp <= 0 then (w, Err(InvalidTarget(target)))
      else
        var damage := AtLeastOne(roll);
        var e := Hurt(w.combat.enemies[i], damage);
        (Struck(spec, w, i, damage),
         Ok(AttackResult(target, damage, e.hp, e.hp <= 0, if e.hp <= 0 then e.maxHP else 0,
                         AllDead(w.combat.enemies[i := e]))))
  }

  /** Strikes enemy `i`: shared by a weapon attack and a damage spell. */
  method Strike(spec: Spec, state: GameState, i: nat, damage: int) returns (e: Enemy, over: bool)
    requires i < |state.combat.enemies| && WellIndexed(state.combat)
    modifies state`hero, state`combat, state`roomState
    ensures state.Snap() == Struck(spec, old(state.Snap()), i, damage)
    ensures e == Hurt(old(state.combat.enemies[i]), damage)
    ensures over <==> AllDead(old(state.combat.enemies)[i := e])
  {
    hide Advanced, Victory;
    e := state.combat.enemies[i];
    e := e.(hp := e.hp - damage);
    if e.hp < 0 {
      e := e.(hp := 0);
    }
    state.combat := state.combat.(enemies := state.combat.enemies[i := e]);
    if e.hp <= 0 {
      state.hero := state.hero.(xp := state.hero.xp + e.maxHP);
    }
    over := AllEnemiesDead(state);
    if over {
      VictoryForgets(spec, state.Snap(), old(state.combat));
      EndCombat(spec, state);
    } else {
      state.combat := state.combat.(heroDefending := false);
      AdvanceTurn(state);
    }
  }

  method AllEnemiesDead(state: GameState) returns (dead: bool)
    ensures dead <==> AllDead(state.combat.enemies)
  {
    for i := 0 to |state.combat.enemies|
      invariant AllDead(state.combat.enemies[..i])
    {
      if state.combat.enemies[i].hp > 0 {
        return false;
      }
    }
    return true;
  }

  method CheckHeroMayAct(state: GameState) returns (err: Option<EngineError>)
    requires WellIndexed(state.combat)
    ensures err == Barred(state.Snap())
  {
    if !state.combat.active {
      return Some(NotInCombat);
    }
    if state.hero.hp <= 0 {
      return Some(HeroDead);
    }
    if |state.combat.turnOrder| == 0 || state.combat.turnOrder[state.combat.currentTurn] != HERO {
      return Some(NotHeroTurn);
    }
    return None;
  }

  method Attack(spec: Spec, state: GameState, target: string, roll: int) returns (r: Result<AttackResult, EngineError>)
    requires WellIndexed(state.combat)
    modifies state`hero, state`combat, state`roomState
    ensures (state.Snap(), r) == Attacked(spec, old(state.Snap()), target, roll)
  {
    var err := CheckHeroMayAct(state);
    if err.Some? {
      return Err(err.value);
    }
    var i := FindEnemy(state.combat.enemies, target);
    if i < 0 || state.combat.enemies[i].hp <= 0 {
      return Err(InvalidTarget(target));
    }
    var damage := AtLeastOne(roll);
    var e, over := Strike(spec, state, i, damage);
    return Ok(AttackResult(target, damage, e.hp, e.hp <= 0, if e.hp <= 0 then e.maxHP else 0, over));
  }

  function Defended(w: World): (World, Option<EngineError>)
    requires WellIndexed(w.combat)
  {
    if Barred(w).Some? then (w, Barred(w))
    else (w.(combat := Advanced(w.combat.(heroDefending := true))), None)
  }

  method Defend(state: GameState) returns (err: Option<EngineError>)
    requires WellIndexed(state.combat)
    modifies state`combat
    ensures (state.Snap(), err) == Defended(old(state.Snap()))
  {
    err := CheckHeroMayAct(state);
    if err.Some? {
      return;
    }
    state.combat := state.combat.(heroDefending := true);
    AdvanceTurn(state);
  }

  /** A roll of 1d20 at or below Dexterity escapes; anything else costs the turn. */
  function Fled(w: World, roll: int): (World, Result<bool, EngineError>)
    requires WellIndexed(w.combat)
  {
    if Barred(w).Some? then (w, Err(Barred(w).value))
    else if roll <= w.hero.stats.dex then (w.(combat := NO_COMBAT), Ok(true))
    else (w.(combat := Advanced(w.combat.(heroDefending := false))), Ok(false))
  }

  method Flee(state: GameState, roll: int) returns (r: Result<bool, EngineError>)
    requires WellIndexed(state.combat)
    modifies state`combat
    ensures (state.Snap(), r) == Fled(old(state.Snap()), roll)
  {
    var err := CheckHeroMayAct(state);
    if err.Some? {
      return Err(err.value);
    }
    if roll <= state.hero.stats.dex {
      state.combat := NO_COMBAT;
      return Ok(true);
    }
    state.combat := state.combat.(heroDefending := false);
    AdvanceTurn(state);
    return Ok(false);
  }

  // ---------- An enemy's turn ----------

  datatype EnemyAction = Skip | Run | Hit(damage: int, heroDead: bool)

  datatype EnemyTurnResult = EnemyTurnResult(enemyID: string, action: EnemyAction)

  /** The armour value of what the hero wears. */
  function ArmorDefense(spec: Spec, h: Character): int {
    if h.equipped.armor != "" && h.equipped.armor in spec.items && spec.items[h.equipped.armor].defense > 0
    then spec.items[h.equipped.armor].defense else 0
  }

  /** Guarding halves the damage first, then armour is subtracted; at least 1 gets through. */
  function Mitigated(spec: Spec, h: Character, roll: int, defending: bool): (d: int)
    ensures 1 <= d <= AtLeastOne(roll)
  {
    var raw := AtLeastOne(roll);
    AtLeastOne((if defending then raw / 2 else raw) - ArmorDefense(spec, h))
  }

  predicate RunsAway(e: Enemy) { e.ai == "cautious" && e.hp * 100 <= e.maxHP * 30 }

  /** The world after the enemy the pointer rests on has taken its turn. */
  function EnemyActed(spec: Spec, w: World, roll: int): (World, Result<EnemyTurnResult, EngineError>)
    requires WellIndexed(w.combat) && (w.combat.active ==> w.combat.turnOrder != [])
  {
    var c := w.combat;
    if !c.active then (w, Err(NotInCombat))
    else if HeroTurn(c) then (w, Err(NotHeroTurn))
    else
      var id := c.turnOrder[c.currentTurn];
      var i := FindEnemy(c.enemies, id);
      if i < 0 || c.enemies[i].hp <= 0 then (w.(combat := Advanced(c)), Ok(EnemyTurnResult(id, Skip)))
      else if RunsAway(c.enemies[i]) then
        var c' := Advanced(c.(enemies := c.enemies[i := c.enemies[i].(hp := 0)]));
        var w' := w.(combat := c');
        (if AllDead(c'.enemies) then Victory(spec, w') else w', Ok(EnemyTurnResult(id, Run)))
      else
        var damage := Mitigated(spec, w.hero, roll, c.heroDefending);
        var h := w.hero.(hp := w.hero.hp - damage);
        (w.(hero := h, combat := Advanced(c)), Ok(EnemyTurnResult(id, Hit(damage, h.hp <= 0))))
  }

  method ProcessEnemyTurn(spec: Spec, state: GameState, roll: int) returns (r: Result<EnemyTurnResult, EngineError>)
    requires WellIndexed(state.combat) && (state.combat.active ==> state.combat.turnOrder != [])
    modifies state`hero, state`combat, state`roomState
    ensures (state.Snap(), r) == EnemyActed(spec, old(state.Snap()), roll)
  {
    if !state.combat.active {
      return Err(NotInCombat);
    }
    if state.combat.turnOrder[state.combat.currentTurn] == HERO {
      return Err(NotHeroTurn);
    }
    var id := state.combat.turnOrder[state.combat.currentTurn];
    var i := FindEnemy(state.combat.enemies, id);
    if i < 0 || state.combat.enemies[i].hp <= 0 {
      AdvanceTurn(state);
      return Ok(EnemyTurnResult(id, Skip));
    }
    var e := state.combat.enemies[i];
    if e.ai == "cautious" {
      if e.hp * 100 <= e.maxHP * 30 {
        state.combat := state.combat.(enemies := state.combat.enemies[i := e.(hp := 0)]);
        AdvanceTurn(state);
        var dead := AllEnemiesDead(state);
        if dead {
          EndCombat(spec, state);
        }
        return Ok(EnemyTurnResult(id, Run));
      }
    }
    var damage := ApplyDefenses(spec, state, AtLeastOne(roll), state.combat.heroDefending);
    state.hero := state.hero.(hp := state.hero.hp - damage);
    AdvanceTurn(state);
    return Ok(EnemyTurnResult(id, Hit(damage, state.hero.hp <= 0)));
  }

  method ApplyDefenses(spec: Spec, state: GameState, raw: int, defending: bool) returns (damage: int)
    requires raw >= 1
    ensures damage == Mitigated(spec, state.hero, raw, defending)
  {
    damage := raw;
    if defending {
      damage := damage / 2;
    }
    if state.hero.equipped.armor != "" {
      if state.hero.equipped.armor in spec.items && spec.items[state.hero.equipped.armor].defense > 0 {
        damage := damage - spec.items[state.hero.equipped.armor].defense;
      }
    }
    if damage < 1 {
      damage := 1;
    }
  }
}
