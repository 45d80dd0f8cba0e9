# cryptd, verified

A Dafny model of the parts of cryptd, a text-adventure server, whose correctness is hardest to see
from the code: the scenario generator, the combat rules with the two programs that drive them, the
session and game protocol of the daemon, and a few self-contained algorithms. `dafny verify
dfyconfig.toml` checks everything.

## How it is laid out

**Scenario generator.** `Paths` has walks, shortest distances and the invariant that every
breadth-first search of the generator keeps. `Graph` is the six-slot graph with AddNode, AddEdge,
Degree, Distance, MaxDistance and Validate as methods of a class. `AssignDirections` is the search
that hands out opposite direction pairs; it is proved against `BfsTree`, the search tree of the raw
edges, which is shown to be a shortest-path spanning tree. `InsertHubs`, `HubTheorems`, `HubTrees`,
`HubDegrees` and `WideStar` are about the hub chains of wide directories, `GraphGeneration` puts
the two together, `Export` and `Scenario` export and validate, `EnemyTiers` places enemies, and
`Moving` with `ScenarioGeneration` carry the result through to the player's moves, `Compass` to
their directions on the map.

**Game rules.** `GameState` has the state as a class, `GameState`, and as a value, `World`. Every
operation is a method that updates the object in place and ensures that its snapshot is a function
of the old snapshot and of the dice; the theorems are about those functions. `Leveling`, `Combat`,
`Spells` and `Inventory` are the rules. `Initiative`, `HeroAccounts`, `EnemyHits`, `ItemMoves` and
`LevelGains` say what the operations mean without the functions that specify them; `CombatInvariant`,
`Conservation`, `EngineRuns`, `Vitals`, `Rounds` and `Encounter` prove what every run of them keeps.
`EnemyTurns` has the two enemy-turn drivers, `Dispatch` and `LoopDispatch` the daemon's and the
loop's dispatchers, `DispatchRuns` and `GameRuns` tell both by the engine's calls.

**Concurrency.** `GameProtocol` is the game goroutine with its clients, as steps that interleave:
capacity-one command channel, one reply channel per call, cancellation, panics and exits at any
point. `ConcurrentGames` instantiates it with the daemon's dispatcher. `Registry` has the
separately locked steps of game.new on the shared session and game maps.

**Algorithms.** `EditDistance` and `Autocorrect`; `Frames`, the length-prefixed codec with its
chunk-fed reader.

## How to read it

- Dice, randomness, generated ids, the clock, JSON and YAML codecs, the dice parser, scenario files
  and the visitors of the generator are parameters. Dice results are arbitrary integers that the rules floor
  at 1; `None` is dice text that does not parse. Generated game ids are assumed fresh and the JSON codec is
  assumed to round-trip.
- Iteration over a Go map is an arbitrary choice, so every result holds for every order.
- A direction is one of six or `Other(text)`. A string stands for its bytes. Weights are reals, Go's integers are
  unbounded, and integer division truncates toward zero where the sign matters.
- Hypotheses that the program itself does not enforce are named where they are used:
  `TemplatesAlive` (enemy templates have positive HP), `SpellsSound` (no spell has a
  negative cost), `ItemsSound` (no item has a negative weight), `FindsListedNodes` (the nodes the search
  reaches are listed; otherwise the source writes to a nil map) and a hero level of at least -1 (below that CheckLevelUp indexes out of range).
- A save is a copy of an earlier state between two commands of the same game; loading may also fail.

## Where the code and its comments differ

- `internal/scengen/tree.go:119-123` says that every hub has room for five children. A hub in the
  middle of a chain has five children and two links, seven in all, so from ten children on the
  generator fails. `HubDegrees.HubbedDegrees` gives the exact condition, `WideStar` the smallest case.
- `internal/engine/leveling.go:217-219` says "rounded down"; the division truncates toward zero, which
  differs exactly for odd stats below ten (`Leveling.StatModifierRoundsDown`): a stat of 9 gives 0.
- An item whose id is the empty string, which scenario validation lets pass, vanishes when it is put on
  (`Conservation.EquippedConserves`, `EngineRuns.NamelessItemIsLost`).
- `internal/scengen/enemy_visitor.go:86-88` clamps the tier index; `EnemyTiers.TierInRange` shows that
  the clamp never acts. Line 90 says that the deepest rooms get the highest tier; with more tiers than
  distances they do not (`EnemyTiers.TierBands`, and `EnemyTiers.DeepestIsNotHardest` for three distances
  and the five default tiers). The iteration caps of both enemy-turn drivers never act either.
- A failed game.new leaves the session bound to a game that is gone
  (`Registry.BindingsCanDangle`); `Registry.FoundUnlessCleanedUp` says exactly when that is so.

## Model

| member | source | states |
|---|---|---|
| `Graphs.OppositeInvolution` | internal/scengen/graph.go:23-41 | every recognised direction has another one as its opposite, whose opposite it is |
| `Graphs.OppositeLeadsBack` | internal/scengen/graph.go:23-41 | by the compass displacements of the six directions: a step and a second one lead back exactly if the second is in the opposite direction, north against south, east against west, up against down |
| `Graphs.Graph.AddNode` | internal/scengen/graph.go:77-83 | adds exactly the one node, or rejects a duplicate id and changes nothing; a built graph stays built |
| `Graphs.Graph.AddEdge` | internal/scengen/graph.go:86-116 | accepts exactly when the direction is one of the six and both slots are free, and stores an edge whose two directions cancel on the compass; otherwise names the slot that the first conflicting edge ends in, that of `from` before that of `to`; every (node, direction) slot stays the end of at most one edge |
| `Graphs.DegreeCountsSlots` | internal/scengen/graph.go:119-127 | in a slot-unique graph the degree is at most the number of occupied slots, and equal to it without self-loops |
| `Graphs.DegreeAtMostSix` | internal/scengen/graph.go:86-127 | pigeonhole: slot uniqueness alone bounds every degree by six |
| `Graphs.Graph.Degree` | internal/scengen/graph.go:119-127 | the number of incident edges, at most six in a slot-unique graph |
| `Graphs.Graph.AdjacencyMap` | internal/scengen/graph.go:240-247 | each list holds exactly the nodes an edge joins, in either direction, in the order of the edges |
| `Paths.DiscoveredDistance` | internal/scengen/graph.go:145-153 | whatever a breadth-first search meets for the first time is exactly one step further from the start than the node being expanded |
| `Paths.SearchDone` | internal/scengen/graph.go:142-156 | when the queue is empty exactly the reachable nodes have a depth, and it is their shortest distance |
| `Graphs.Graph.Distance` | internal/scengen/graph.go:131-157 | the length of a shortest walk from the start, and -1 exactly for nodes no walk reaches |
| `Graphs.Graph.MaxDistance` | internal/scengen/graph.go:161-184 | attained by a reachable node and exceeded by none |
| `Graphs.Graph.Visited` | internal/scengen/graph.go:215-229 | the reachability search visits exactly the nodes a walk from the start reaches |
| `Graphs.Graph.Validate` | internal/scengen/graph.go:192-237 | accepts exactly the valid graphs; each error is true of the graph and says that all earlier checks and edges are sound; a graph built through AddEdge can fail only for missing endpoints, a missing start or an unreachable node |
| `AssignDirections.BfsTreeSpans` | internal/scengen/generator.go:94-138 | the search tree crosses raw edges only, enters every reached non-start node exactly once, spans exactly what the raw edges reach, and keeps every distance |
| `AssignDirections.AssignDirections` | internal/scengen/generator.go:70-141 | succeeds exactly when ids are distinct, the start is listed and no node of the search tree has more than six incident edges; then the edges are that tree, slots are unique, the two directions of every edge cancel on the compass, and each edge leaves its parent in the first preferred direction still free; AddEdge never rejects |
| `AssignDirections.GreedyDetermines` | internal/scengen/generator.go:104-130 | the search tree and that greedy choice determine the edges, directions included |
| `AssignDirections.HorizontalFirst` | internal/scengen/generator.go:103-104 | an edge leaves north if that is free, else east, south, west, and up or down only where all four are taken |
| `AssignDirections.TakeSlots` | internal/scengen/generator.go:104-132 | takes the first pair of slots free at both ends, and finds one exactly when the parent has a free slot |
| `AssignDirections.Expand` | internal/scengen/generator.go:107-137 | one turn of the search: every unvisited neighbour becomes a tree edge, or the parent has too many |
| `GraphGeneration.AssignedIsValid` | internal/scengen/generator.go:50-66 | the assigned graph has the distances and reachability of the raw topology, sound edges and degrees of at most six |
| `GraphGeneration.GenerateGraph` | internal/scengen/generator.go:50-66 | succeeds exactly when the source does, ids are distinct, the start is listed, the search tree fits six slots and every node is reachable; the only validation error left is an unreachable node |
| `InsertHubs.ChildIndicesMeaning` | internal/scengen/tree.go:94-112 | the collected child indices are ascending and select exactly the edges leaving the parent, so sorting them changes nothing |
| `InsertHubs.SplitParent` | internal/scengen/tree.go:119-173 | the batches of one parent's children become its first four links and a chain of hubs with five children each |
| `InsertHubs.InsertHubs` | internal/scengen/tree.go:93-191 | every parent with more than five children is split and nobody else, whatever order the map of children is visited in |
| `HubTheorems.HubCount` | internal/scengen/tree.go:119-173 | a parent with n > 5 children gets exactly ceil((n - 4) / 5) hubs, numbered from 1, and the added nodes are exactly the hubs of wide parents, no two alike |
| `HubTheorems.HubsAreMarked` | internal/scengen/tree.go:139-155 | every added node is marked as a hub and named after its parent |
| `HubTheorems.HubbedIdsDistinct` | internal/scengen/tree.go:93-191 | the resulting ids are distinct exactly when no node already bears the id of a hub to be inserted |
| `HubTheorems.ContractionRestores` | internal/scengen/tree.go:93-191 | merging every hub into its parent gives back the original edges, types included |
| `HubTrees.HubbedMembers` | internal/scengen/tree.go:156-173 | every edge of the result is an original one with its parent end moved to one of the parent's hubs, or an open link between consecutive hubs of a wide parent |
| `HubTrees.HubbedTree` | internal/scengen/tree.go:93-191 | hub insertion maps a tree to a tree over the old nodes and the hubs |
| `HubDegrees.HubbedDegrees` | internal/scengen/tree.go:119-173 | every node of the result has at most six incident edges exactly when no parent has more than nine children |
| `HubDegrees.TooWideAFan` | internal/scengen/tree.go:119-123 | from ten children on the first hub has at least seven incident edges: the source comment's claim fails |
| `WideStar.TenChildrenOverflow` | internal/scengen/tree.go:119-123 | a concrete tree, one root with ten children, on which it fails |
| `GraphGeneration.TreeIsItsSearchTree` | internal/scengen/generator.go:94-138 | on a tree the search tree is the tree itself, edge for edge |
| `GraphGeneration.GenerateFromTree` | internal/scengen/generator.go:50-66 | a directory tree becomes a graph exactly when no directory has more than nine subdirectories and no hub id is taken; merging the hubs of the graph gives the tree back, and where all subdirectories are open so is every edge |
| `Export.ToScenario` | internal/scengen/generator.go:144-198 | one room per node with the node's exits, items, enemies and description, names defaulting to the id, content carried over |
| `Export.BuildConnectionMap` | internal/scengen/export.go:207-221 | the same exits as toScenario, with an entry exactly for nodes that have an edge |
| `Export.GroupByRegion` | internal/scengen/export.go:192-204 | every node is listed exactly once, under the region its metadata names or else under the default one, and no region is empty |
| `Export.ExitsAreEdgeEnds` | internal/scengen/generator.go:167-176 | no edge overwrites another: a room has an exit exactly where an edge ends, and it leads to that edge's other end |
| `Export.ExitsSymmetric` | internal/scengen/generator.go:167-176 | if A goes d to B then B goes opposite(d) to A with the same type |
| `Export.ExitsDetermineEdges` | internal/scengen/generator.go:167-176 | two slot-unique edge lists with the same exits have the same undirected edges |
| `Scenarios.CheckRoom` | internal/scenario/parser.go:90-104 | passes exactly the rooms that are named, lead to known rooms and hold known enemies |
| `Scenarios.Validate` | internal/scenario/parser.go:82-123 | returns no error exactly when room and dice checks hold, and otherwise an error that is true of the specification; a bad dice text is the attack of the named enemy or the damage of the named item, reported only when the rooms are sound and, for items, all attacks parse |
| `Export.ExportPassesRoomChecks` | internal/scenario/parser.go:82-104 | a valid graph with non-empty ids exports to a specification that passes the room checks exactly when its rooms hold registered enemies only |
| `Moving.Move` | internal/engine/engine.go:189-233 | follows open and stairway exits to known rooms only, reports why otherwise, and a failed move changes nothing |
| `Moving.MoveIsLink` | internal/engine/engine.go:189-233 | every move follows an open or stairway edge, and the opposite direction leads back |
| `Moving.WalkIsRoute` | internal/engine/engine.go:189-233 | every walk of open edges is a sequence of as many moves |
| `Moving.RouteIsWalk` | internal/engine/engine.go:189-233 | every sequence of moves follows a walk of open edges, and the reversed opposite moves undo it |
| `Moving.RoomsInReach` | internal/engine/engine.go:189-233 | the player can get exactly to the rooms that open edges join to the start, the fewest moves being the distance along them, and back from each the way he came; no hypothesis on edge types |
| `Moving.WalkedVisits` | internal/engine/engine.go:189-233 | the visited rooms are exactly those there were and those entered since, each listed once, the earlier first, and every room entered has its state |
| `Compass.BackCancels` | internal/scengen/graph.go:23-41 | a route of valid directions and its way back add up to no displacement |
| `Compass.RoomsHavePlaces` | internal/scengen/generator.go:94-138 | the generated map is consistent: all routes from a new game to the same room lead equally far east, north and up |
| `ScenarioGeneration.OpenDistance` | internal/scengen/generator.go:94-138 | where some edges of the search tree lead from the start, they lead as directly as all raw edges do |
| `ScenarioGeneration.EveryRoomHasAnOpenPath` | internal/scengen/generator.go:94-138 | every reachable node has a tree path of open edges and stairways exactly when all tree edges are such |
| `ScenarioGeneration.Generate` | internal/scengen/generator.go:17-46 | end to end, for every topology: when the pipeline succeeds, what its rooms are, and when the result passes the room checks; a new game can walk to a room exactly when its path in the search tree has only open and stairway edges, in no fewer and no more moves than its raw distance, and back; and every way to a room puts it at the same place on the map |
| `EnemyTiers.TierInRange` | internal/scengen/enemy_visitor.go:85-92 | the tier index is in range without the clamp, and stays in range after jitter |
| `EnemyTiers.TierMonotone` | internal/scengen/enemy_visitor.go:85-85 | tiers never fall with distance and start at the lowest |
| `EnemyTiers.TierBands` | internal/scengen/enemy_visitor.go:84-90 | the tiers share the distances out evenly, and the deepest room gets the hardest exactly if there are at least as many distances as tiers |
| `EnemyTiers.JitterOdds` | internal/scengen/enemy_visitor.go:117-128 | of ten rolls two make the enemy one tier easier and two one tier harder, where there is such a tier |
| `EnemyTiers.VisitRoom` | internal/scengen/enemy_visitor.go:65-98 | one room gets exactly the enemy its true distance calls for, other rooms nothing |
| `EnemyTiers.Register` | internal/scengen/enemy_visitor.go:55-62 | every tier is in the catalog under its id, of several with one id the last, everything else in it unchanged |
| `EnemyTiers.VisitRooms` | internal/scengen/enemy_visitor.go:69-98 | the loop over the rooms, in any order |
| `EnemyTiers.Visit` | internal/scengen/enemy_visitor.go:43-101 | every room gets what its distance calls for relative to the true maximum, hubs and the start nothing; known enemies stay known |
| `GameStates.NewGame` | internal/engine/engine.go:165-185 | a new game stands in the starting room, with no fight, every room uncleared and holding the items the scenario lists for it |
| `GameStates.EnsureRoomState` | internal/engine/engine.go:324-338 | an existing room state is returned, a missing one seeded from the scenario |
| `GameStates.Look` | internal/engine/engine.go:236-258 | seeds the current room's state only if the scenario has that room |
| `Leveling.CheckLevelUp` | internal/engine/leveling.go:167-215 | levels the hero until no threshold is met and reports exactly the gains, stat by stat |
| `LevelGains.GainsOfLevels` | internal/engine/leveling.go:115-142 | k levels raise the two stats of the class by k, MaxMP by 4k, 3k or nothing, and MaxHP by the base 8, 4 or 6 and the Constitution bonus of each level, for a fighter the rising one; an unknown class gains nothing |
| `LevelGains.StatsAreReported` | internal/engine/leveling.go:167-215 | the report lists exactly the two stats of the class at k each |
| `LevelGains.LevelCosts` | internal/engine/leveling.go:104-112 | what the levels cost each class: fighters least, mages most, each level from six on twice the one before |
| `Leveling.StatModifierRoundsDown` | internal/engine/leveling.go:217-222 | the modifier is half the excess over ten rounded down, as its comment says, exactly for even stats and stats of ten or more; otherwise it is one higher |
| `Leveling.LeveledIsGreatest` | internal/engine/leveling.go:167-215 | the level ends at the greatest one up to ten whose threshold is met, never lower than before; a second check changes nothing |
| `Leveling.EarlyCheckIsHarmless` | internal/engine/leveling.go:167-215 | checking early, at less experience, does not change level, stats or maxima reached later |
| `Leveling.PathIndependence` | internal/engine/leveling.go:167-215 | checking after every gain gives the level, stats, MaxHP and MaxMP of one check at the end, whatever happens to HP and MP in between |
| `Leveling.LeveledWithinMaxima` | internal/engine/leveling.go:188-211 | HP and MP rise by exactly what their maxima do, so they stay within them |
| `Leveling.NextLevelXPIsHonest` | internal/engine/leveling.go:149-162 | after a level check the hero is short of the figure shown, and reaching exactly that figure brings the next level; 0 is shown exactly when there is none |
| `Vitals.AppliedLives` | internal/engine/combat.go:160-324 | no engine call but the level check touches level, stats or maxima, lowers experience, or takes HP or MP out of bounds |
| `Vitals.GrowthIsEarned` | internal/engine/leveling.go:167-215 | over any run of engine calls HP and MP stay within bounds, experience never falls, and what a level check makes of the hero depends on nothing but the experience reached |
| `Leveling.ValidateStats` | internal/engine/leveling.go:73-98 | accepts exactly the allocations with no stat below ten and eight points spent |
| `Leveling.NewCharacter` | internal/engine/leveling.go:32-64 | succeeds exactly for the four classes and valid allocations, the given one or 14/12/12/10/10/10, at level 1 with full HP of 20 plus the Constitution modifier and MP for casters only |
| `Combat.FirstAliveEnemy` | internal/engine/combat.go:332-339 | the first living enemy's id, or the empty id when all are dead |
| `Combat.AdvanceTurn` | internal/engine/combat.go:418-446 | moves on to the next place, cyclically, that is the hero's or a living enemy's, counting rounds and dropping the guard on the hero's turn |
| `Initiative.ClockAdvances` | internal/engine/combat.go:418-446 | counting rounds and places together the turn moves on by one to a full round, passes over nobody who could act, and the guard drops exactly at the hero |
| `CombatInvariant.AdvancedPointed` | internal/engine/combat.go:418-446 | with the hero in the order the pointer always finds someone who can act |
| `Combat.StartCombat` | internal/engine/combat.go:79-157 | the checks in order, the enemies numbered from their templates and the order sorted by initiative |
| `Combat.Instantiate` | internal/engine/combat.go:101-116 | enemies numbered by place from known templates, or the first unknown one |
| `Combat.RollInitiative` | internal/engine/combat.go:118-144 | the stable sort of the initiative entries |
| `CombatInvariant.SortedByInitiative` | internal/engine/combat.go:133-139 | the sort is by roll, the hero first among equals, enemies with equal rolls in the room's order |
| `CombatInvariant.OpeningOrder` | internal/engine/combat.go:118-144 | the opening turn order is the initiative order of the rolls |
| `Initiative.OpeningPlaces` | internal/engine/combat.go:118-144 | the opening order lists the hero and all enemies once, sorted by roll plus Dexterity for him and plus ten for them, equal scores in the order hero, first enemy, second enemy |
| `Initiative.FightStarts` | internal/engine/combat.go:79-157 | a fight starts exactly in a known, uncleared room with enemies that are all known, each of them in full health as its template describes it |
| `CombatInvariant.CombatStartedOK` | internal/engine/combat.go:79-157 | StartCombat establishes the combat invariant when enemy templates have positive HP |
| `CombatInvariant.TurnOrderDistinct` | internal/engine/combat.go:133-151 | the turn order of a sound fight has no duplicates |
| `Combat.Attack` | internal/engine/combat.go:160-208 | the whole new state and result of an attack, refused to the dead, out of turn and on invalid targets |
| `HeroAccounts.AttackReports` | internal/engine/combat.go:160-208 | succeeds exactly on a living enemy in the living hero's turn; that enemy loses the floored roll or all it has, the others nothing; a kill pays its MaxHP, the last kill ends the fight and clears the room; what is reported is what happened |
| `CombatInvariant.AttackedOK` | internal/engine/combat.go:160-208 | Attack keeps the combat invariant |
| `Combat.Defend` | internal/engine/combat.go:211-227 | raises the guard and passes the turn |
| `CombatInvariant.DefendedOK` | internal/engine/combat.go:211-227 | Defend keeps the combat invariant |
| `Combat.Flee` | internal/engine/combat.go:230-254 | a roll at or below Dexterity ends the fight without clearing the room, any other costs the turn |
| `CombatInvariant.FledOK` | internal/engine/combat.go:230-254 | Flee keeps the combat invariant |
| `Combat.ProcessEnemyTurn` | internal/engine/combat.go:258-324 | skips the dead, lets the badly hurt cautious run, makes everyone else hit; the whole new state and result |
| `EnemyHits.EnemyTurnCosts` | internal/engine/combat.go:258-324 | a cautious enemy at three tenths of its hit points or less runs and costs nothing; any other takes exactly the reported damage off the hero's hit points, and reports his death exactly if none are left |
| `EnemyHits.PhaseCosts` | internal/daemon/game.go:854-883 | over all enemy turns the hero loses exactly the damage reported, at least a point for each enemy that did not run, each hit being what his armour and the guard raised beforehand leave of its roll |
| `EnemyHits.GuardHelps` | internal/engine/combat.go:389-404 | a guard never makes a hit worse, and halves whatever it lets through beyond one point |
| `EnemyHits.DefenceHalves` | internal/engine/combat.go:211-254 | after defending all hits of the answer are halved, after a failed escape none is |
| `EnemyHits.ChanceToEscape` | internal/engine/combat.go:243-253 | Dexterity outcomes of the die escape, and an escape changes neither hero nor rooms |
| `Combat.Mitigated` | internal/engine/combat.go:389-404 | defence and armour never let less than one point through, and never more than the roll |
| `Combat.ApplyDefenses` | internal/engine/combat.go:389-404 | halves for the guard first, then subtracts armour, floored at one |
| `CombatInvariant.EnemyActedOK` | internal/engine/combat.go:258-324 | an enemy's turn keeps the combat invariant |
| `Combat.EndCombat` | internal/engine/combat.go:449-454 | ends the fight and clears the current room |
| `Spells.ClassCanCast` | internal/engine/spells.go:185-192 | membership of the class in the spell's list |
| `Spells.CastDamage` | internal/engine/spells.go:108-151 | a damage spell strikes like an attack; a refused one changes nothing |
| `Spells.CastHeal` | internal/engine/spells.go:153-182 | heals up to the maximum and spends the turn in a fight; a refused one changes nothing |
| `Spells.CastSpell` | internal/engine/spells.go:50-106 | the checks in order, and MP paid only once the effect has taken place |
| `HeroAccounts.CastReports` | internal/engine/spells.go:50-182 | exactly when a spell is cast; it then costs exactly its MP and strikes like an attack or heals up to the maximum, and otherwise costs and changes nothing |
| `CombatInvariant.CastOK` | internal/engine/spells.go:50-182 | casting keeps the combat invariant |
| `EngineRuns.AppliedOK` | internal/engine/combat.go:79-459 | every engine call keeps the combat invariant, with any arguments and dice |
| `EngineRuns.Ran` | internal/engine/combat.go:79-459 | so does every run of them: in any active fight the order is a duplicate-free permutation of the hero and the enemies, the pointer is on someone who can act, some enemy lives, HP are within bounds and the hero is unguarded on his turn |
| `HeroAccounts.RanAccounts` | internal/engine/combat.go:160-324 | over any run the hero's hit points and MP change by exactly what the calls report: hits, healing, costs and growth |
| `Rounds.EveryTurnIsAnswered` | internal/engine/combat.go:418-446 | fair rounds: a fight still on after the hero's attack, defence, failed escape or spell is answered by every enemy living by then, each once, before he acts again |
| `Inventory.TotalCarryWeight` | internal/engine/engine.go:288-299 | inventory plus defined equipped items |
| `Inventory.RemoveItem` | internal/engine/engine.go:358-365 | removes the first occurrence only, and says whether there was one |
| `Inventory.PickUp` | internal/engine/engine.go:368-403 | the checks in order; success moves one item from the room to the backpack, failure moves nothing |
| `ItemMoves.TakingMoves` | internal/engine/engine.go:368-403 | succeeds exactly for a defined item that lies here and keeps the weight within fifty; it comes last in the backpack and one fewer lies here |
| `Inventory.Drop` | internal/engine/engine.go:406-432 | moves one item from the backpack to the room |
| `ItemMoves.DroppingMoves` | internal/engine/engine.go:406-432 | succeeds exactly for a carried item, whose first occurrence then lies here last |
| `Inventory.Equip` | internal/engine/engine.go:473-505 | moves an item from the backpack to its empty slot |
| `ItemMoves.WearingFits` | internal/engine/engine.go:435-505 | succeeds exactly for a weapon, armour, ring or amulet when none of its kind is worn; it is then worn as that and nothing else changes its place |
| `Inventory.Unequip` | internal/engine/engine.go:508-530 | moves a defined item from its slot to the backpack |
| `ItemMoves.WearingIsUndone` | internal/engine/engine.go:508-530 | taking off what was put on gives back the item as defined and leaves the slots as they were |
| `Inventory.UseItem` | internal/engine/engine.go:551-606 | a healing consumable heals up to the maximum and is used up; a failed use changes nothing |
| `HeroAccounts.PotionReports` | internal/engine/engine.go:551-606 | exactly when a potion is used, what it heals, and that it alone is gone |
| `Conservation.PickedUpConserves` | internal/engine/engine.go:368-403 | picking up neither creates nor loses an item |
| `Conservation.PickedUpPack` | internal/engine/engine.go:379-388 | and keeps the backpack within fifty |
| `Conservation.DroppedConserves` | internal/engine/engine.go:406-432 | neither does dropping |
| `Conservation.EquippedConserves` | internal/engine/engine.go:473-505 | equipping keeps all items exactly if the id is not empty or the call fails; a nameless item that is put on vanishes |
| `Conservation.UnequippedConserves` | internal/engine/engine.go:508-530 | neither does unequipping, which also keeps pack and weight sound |
| `Conservation.ConsumedConserves` | internal/engine/engine.go:551-606 | using an item loses exactly that one, failing to use it none |
| `EngineRuns.RanItems` | internal/engine/engine.go:165-606 | over any run, whatever the scenario: the initial items of rooms, pack and body together are the final ones, those used up and the nameless ones that were put on; without nameless items nothing is lost, and the backpack stays sound |
| `EngineRuns.EveryRun` | internal/engine/engine.go:165-606 | from a new game with empty hands: the scenario's items are all accounted for, conserved up to those used exactly if none was lost; carried ones match their definitions, weigh at most fifty, and fights are sound |
| `EngineRuns.NamelessItemIsLost` | internal/engine/engine.go:473-505 | a game in which it happens: a scenario that passes validation, whose nameless ring is picked up, put on, and then nowhere |
| `EnemyTurns.EnemyActedCloser` | internal/engine/combat.go:258-324 | every enemy turn brings the pointer strictly closer, cyclically, to the hero |
| `EnemyTurns.DaemonEnemyTurns` | internal/daemon/game.go:854-883 | computes the uncapped enemy phase: its iteration cap never cuts it short |
| `EnemyTurns.EnemyPhaseSettles` | internal/daemon/game.go:854-883 | the phase ends with the fight over or the hero to act, and only hurts him |
| `EnemyTurns.ActedInTurnOrder` | internal/daemon/game.go:854-883 | exactly the living enemies before the hero act, in turn order |
| `EnemyTurns.UpcomingDistinct` | internal/daemon/game.go:854-883 | each of them once |
| `EnemyTurns.LoopEnemyTurns` | internal/game/loop.go:540-616 | computes the uncapped phase that stops at the hero's death and levels him when the last enemy flees |
| `EnemyTurns.LoopPhaseSettles` | internal/game/loop.go:540-616 | it ends with the fight over, the hero to act, or the hero dead |
| `EnemyTurns.DriversAgree` | internal/game/loop.go:540-616 | if the hero survives, both drivers let the same enemies act and leave the same state up to that level-up |
| `EnemyTurns.DeathIsCommon` | internal/daemon/game.go:854-883 | if the loop sees the hero die he is dead after the daemon's driver too, which only goes on for longer |
| `Dispatch.Examine` | internal/engine/engine.go:609-643 | finds the item in the pack, on the body or in the room, in that order, or says why not; only the last seeds the room state |
| `Dispatch.DaemonDispatch` | internal/daemon/game.go:247-284 | one tool call computes the specified step, and leaves a boundary state |
| `Dispatch.DaemonMove` | internal/daemon/game.go:347-391 | an empty direction is refused; otherwise move, then a fight if enemies wait, then their turns |
| `Dispatch.DaemonAttack` | internal/daemon/game.go:540-583 | attack, then level-up after a victory or the enemies' turns |
| `Dispatch.DaemonDefendOrFlee` | internal/daemon/game.go:585-627 | defend or flee, then the enemies' turns if it is not the hero's |
| `Dispatch.DaemonCastSpell` | internal/daemon/game.go:634-673 | cast, then the enemies' turns or a level-up after a victory |
| `Dispatch.DaemonStepRests` | internal/daemon/game.go:347-673 | every tool call, successful or not, leaves a state in which an active fight waits for the hero |
| `Dispatch.DaemonRun` | internal/daemon/game.go:247-284 | so does every run of tool calls, saves and loads included |
| `DispatchRuns.DaemonStepDoes` | internal/daemon/game.go:247-673 | every tool call but a load is exactly these engine calls: the hero's, then a level check if his blow ended the fight, or else the enemies' turns; nothing if a name it needs is empty |
| `GameRuns.VictoryIsChecked` | internal/daemon/game.go:575-577 | whoever ends a fight by his attack or spell has no level left to rise afterwards, through either dispatcher |
| `GameRuns.LastBlow` | internal/daemon/game.go:540-583 | the same told from outside: striking the one living enemy for all it has left pays its MaxHP, ends the fight and brings the levels that are due |
| `GameRuns.FightsForbid` | internal/daemon/game.go:347-350 | during a fight moving, taking, dropping, equipping, unequipping and examining do nothing, potions and saves work |
| `GameRuns.DaemonRunIsEngineRun` | internal/daemon/game.go:247-284 | a game played without loading is a run of engine calls |
| `GameRuns.DaemonGameAccounts` | internal/daemon/game.go:247-284 | so its items are all accounted for, and hit points and MP are those reported |
| `GameRuns.SavedIsLoaded` | internal/daemon/game.go:813-851 | whatever is done after saving, loading the slot restores the world as it was, unless it was saved to again |
| `Dispatch.NewGameRests` | internal/daemon/game.go:297-339 | a new game is such a state |
| `LoopDispatch.LoopTurn` | internal/game/loop.go:109-149 | one iteration of Run computes the specified step and says whether Run goes on |
| `LoopDispatch.LoopMove` | internal/game/loop.go:164-211 | a move in the loop, internal errors ending it |
| `LoopDispatch.LoopAttack` | internal/game/loop.go:361-448 | an attack in the loop, ending it when the hero is dead |
| `LoopDispatch.LoopDefend` | internal/game/loop.go:450-487 | a defence in the loop |
| `LoopDispatch.LoopFlee` | internal/game/loop.go:489-536 | an escape in the loop |
| `LoopDispatch.LoopCastSpell` | internal/game/loop.go:618-716 | a spell in the loop |
| `LoopDispatch.LoopStepRests` | internal/game/loop.go:109-149 | as long as Run does not return, every command leaves a boundary state |
| `LoopDispatch.LoopRun` | internal/game/loop.go:92-150 | so at every boundary of Run, from its opening look on, an active fight waits for the hero |
| `LoopDispatch.Run` | internal/game/loop.go:92-150 | Run over the events of its renderer computes that run |
| `DispatchRuns.LoopReplyDoes` | internal/game/loop.go:152-538 | the loop's dispatcher is the same engine calls with its own driver, up to its display look; it stops exactly when told to or when the hero is dead |
| `GameRuns.DispatchersAgree` | internal/game/loop.go:152-538 | for a command with no name left empty both dispatchers leave the same world and saves if the hero survives, but for the level check when the last enemy has run away |
| `GameRuns.LoopAborts` | internal/game/loop.go:152-359 | the loop breaks off with an error exactly on a flaw of the scenario or of its dice: a broken exit or roster, an undefined item, a potion or spell that makes no sense |
| `GameRuns.QuitEnds` | internal/game/loop.go:117-149 | quitting ends the loop after one more look; nothing sent later is dealt with |
| `Encounter.BlowBooked` | internal/engine/combat.go:177-205 | a blow strictly lowers the living enemies' HP and pays for a kill once, and only for a kill |
| `Encounter.EnemyTurnBooked` | internal/engine/combat.go:277-292 | a fleeing enemy is gone and pays nothing; a hit changes no account |
| `Encounter.ActionBooked` | internal/engine/combat.go:160-324 | every engine call but a move keeps the encounter's accounts: slain, runaways, experience and the room; or settles them when the fight ends |
| `Encounter.NeverRises` | internal/engine/combat.go:160-324 | no engine call gives any enemy hit points back, and their total falls exactly when a blow lands or an enemy runs away |
| `Encounter.FoughtNeverRises` | internal/engine/combat.go:160-324 | between any two points of a fight the total never rises, and each blow in between took at least one point off it |
| `Encounter.EncounterAccounts` | internal/engine/combat.go:160-208 | over a whole encounter: experience gained is the sum of MaxHP of the slain, each once; every blow takes a point off the enemies' total, so at most the sum of all MaxHP blows land; a victory accounts for every enemy and clears exactly the room the fight began in |
| `EditDistance.Levenshtein` | internal/interpreter/rules.go:62-92 | the row-by-row table computes the recursive edit distance |
| `EditDistance.NextRow` | internal/interpreter/rules.go:77-90 | each row follows from the one before |
| `EditDistance.DistanceZero` | internal/interpreter/rules.go:62-92 | the distance is zero only between equal strings |
| `EditDistance.DistanceSymmetric` | internal/interpreter/rules.go:62-92 | it is symmetric |
| `EditDistance.Triangle` | internal/interpreter/rules.go:62-92 | and obeys the triangle inequality |
| `EditDistance.DistanceIsLeastEdits` | internal/interpreter/rules.go:62-92 | it is the least number of one-byte insertions, deletions and replacements |
| `Autocorrect.CorrectAmong` | internal/interpreter/rules.go:42-59 | returns the first known verb one edit away, known and short verbs unchanged |
| `Autocorrect.Correct` | internal/interpreter/rules.go:30-59 | the same for the interpreter's own verbs |
| `Autocorrect.CorrectedProperties` | internal/interpreter/rules.go:42-59 | known verbs are fixed, corrections are known and one edit away, a longer verb is left alone only if none is, and correcting is idempotent |
| `Frames.HeaderRoundTrip` | internal/lux/protocol.go:84-105 | the big-endian header is read back |
| `Frames.HeadersSort` | internal/lux/protocol.go:84-96 | most significant byte first: headers sort bytewise as their lengths do |
| `Frames.EncodeFrame` | internal/lux/protocol.go:84-96 | header and payload, or the error that the payload cannot be made or is too large |
| `Frames.DecodeExtends` | internal/lux/protocol.go:101-118 | a complete frame decodes the same whatever follows it |
| `Frames.FrameReader.Feed` | internal/lux/protocol.go:130-132 | appends |
| `Frames.FrameReader.Drain` | internal/lux/protocol.go:135-149 | all complete messages up to the first error, the rest kept |
| `Frames.DrainSplits` | internal/lux/protocol.go:135-149 | draining early and going on is draining once |
| `Frames.ChunkingIrrelevant` | internal/lux/protocol.go:130-149 | however any stream is cut, feeding it chunk by chunk gives the messages and the error of one drain over the whole, and leaves what that leaves |
| `Frames.AnyChunkingDelivers` | internal/lux/protocol.go:84-149 | any chunking of the encoded messages yields exactly them, in order, no error, nothing left over |
| `Frames.BadPayloadIsSkipped` | internal/lux/protocol.go:113-148 | after an undecodable payload, in whatever chunks it comes, the messages before it are delivered, the error is reported, and going on delivers exactly the messages after it |
| `Frames.OversizeLosesTheRest` | internal/lux/protocol.go:106-108 | an oversized header, by contrast, loses all that has been fed behind it |
| `GameProtocol.StepKeeps` | internal/daemon/game.go:77-242 | the protocol invariant survives every step of every party: calling, enqueuing, receiving, giving up, taking, serving, replying, exiting, panicking |
| `GameProtocol.ReplyFits` | internal/daemon/game.go:90-154 | the reply channel of the command in hand is always empty, so the goroutine never blocks on a reply |
| `GameProtocol.EqualsSequentialRun` | internal/daemon/game.go:77-242 | for every interleaving the game is the one the served commands give one at a time in channel order, every delivered result is that run's, and no command is answered twice |
| `GameProtocol.ServedServes` | internal/daemon/game.go:94-158 | serving a command does exactly what the rules say of it: a new game replaces the old unless it fails, a tool, loop or inspection is played on the game there is, and without one nothing is |
| `GameProtocol.GameHistory` | internal/daemon/game.go:77-242 | for every interleaving there is a history of games, each made by the rules from the one before and the next served command with the reply that command got, and the game now is its last |
| `GameProtocol.ToolsFold` | internal/daemon/game.go:94-126 | from the last successful new_game on, tool calls fold dispatch over the new game, and each call gets its own result |
| `GameProtocol.RealTimeOrder` | internal/daemon/game.go:179-242 | a call that returned before another was made is served before it |
| `GameProtocol.GoroutineAdvances` | internal/daemon/game.go:88-162 | while a waiting call's reply is missing the goroutine can step, and at most five of its steps bring the reply |
| `GameProtocol.OthersDoNotDelay` | internal/daemon/game.go:88-242 | no step of any other party pushes that reply back |
| `GameProtocol.Game.PutCommand` | internal/daemon/game.go:183-183 | the arm of the first select that sends the command |
| `GameProtocol.Game.TakeReply` | internal/daemon/game.go:190-191 | the arm of the second select that receives the reply, which is the one written for this call |
| `GameProtocol.Game.GiveUp` | internal/daemon/game.go:184-196 | the remaining arms of both selects: the call returns, what it put into the channel stays there |
| `GameProtocol.Game.ServeCommand` | internal/daemon/game.go:94-158 | the goroutine's switch computes that step: a failed new_game keeps the old game, tools and loops need one |
| `GameProtocol.Game.RunUntilAnswered` | internal/daemon/game.go:88-162 | the goroutine's loop, left to itself, reaches the reply of any waiting call |
| `ConcurrentGames.ConcurrentKeeps` | internal/daemon/game.go:75-242 | an invariant of the one-at-a-time game is an invariant of the game many clients use |
| `ConcurrentGames.FightsWaitForTheHero` | internal/daemon/game.go:77-284 | whatever passthrough clients send and however their calls interleave, a fight that is on between two commands waits for the hero |
| `ConcurrentGames.GameIsDaemonRun` | internal/daemon/game.go:77-284 | a game that was started and then given tool calls is DaemonRun of a new game over exactly these calls in channel order, however the clients' calls interleaved |
| `Registry.StepKeepsAll` | internal/daemon/handler.go:285-340 | the registry invariant survives every locked step of every handler |
| `Registry.GamesArePrivate` | internal/daemon/handler.go:285-340 | sessions never share a game, and every command reached a game created for its session |
| `Registry.StepsAreLocal` | internal/daemon/play.go:32-79 | a handler changes no other session's binding and unregisters no other session's game |
| `Registry.FoundUnlessCleanedUp` | internal/daemon/daemon.go:283-294 | a command on a bound session finds its game exactly when no game.new of that session has cleaned up since the binding |
| `Registry.BindingsCanDangle` | internal/daemon/handler.go:294-326 | a concrete run that leaves a session bound to a game that is gone |
| `Registry.Server.InitSession` | internal/daemon/daemon.go:251-260 | joins the session of that id or makes it |
| `Registry.Server.CleanUpOldGame` | internal/daemon/handler.go:294-307 | unregisters the session's game, keeping the binding |
| `Registry.Server.CreateAndStartGame` | internal/daemon/daemon.go:263-273 | registers a fresh game |
| `Registry.Server.BindGame` | internal/daemon/handler.go:328-331 | binds the session to the new game |
| `Registry.Server.RemoveGame` | internal/daemon/daemon.go:276-280 | unregisters a game that could not be started |
| `Registry.Server.GameForSession` | internal/daemon/daemon.go:283-294 | finds the bound game if it is registered, and it was created for this session |
| `Registry.Server.NewGame` | internal/daemon/handler.go:285-340 | uninterrupted: success binds the session to a registered new game, failure leaves its old binding without a game |

## Left out

- Sockets, NDJSON scanning, HTTP inference, process handling, SQLite, YAML and JSON encoding: input, output and libraries.
- Interpreters and narrators backed by a language model, templates and prompts: text only. Errors of a narrator or renderer, which make Loop.Run return early, are left out with them.
- The terminal interface, lobby, character wizard and renderers, and the line wrapper in cmd/crypt/tui/styles.go: not part of this model.
- The rules interpreter's grammar beyond autocorrect: a long case analysis without state.
- Adventure log, timestamps, gold, conditions and display fields of the state, and the result payloads and error codes of the daemon: they feed nothing back into the rules.
- Parties of more than one: the engine only ever uses the first member.
- Sharing of slice memory between states: inventories and item lists are values.
- Dice notation parsing, random distributions and spawn rates: only the floor of 1 on results is used.
- The directory walk of TreeSource and its id sanitising: the topology is a parameter that has to be a tree with distinct ids.
- WriteYAMLDir: file output.
- Save slot names, save file formats and saves left behind by other games.
- Closing the command channel (Stop) while other connections still send: the code gives no guarantee to prove.
- The mode flag of a session, which any connection that joins it may change, and the listing of sessions.
- Response-id matching in the RPC renderer: pipelined input can pair the wrong id, so there is no clean guarantee.
- ConcurrentGames.FightsWaitForTheHero: excludes run_loop commands, because Loop.Run may return in the middle of a fight, on the hero's death.
- GameRuns.DaemonRunIsEngineRun: excludes loads, which bring back an earlier world; GameRuns.SavedIsLoaded says what a load does.
- GameProtocol.GoroutineAdvances: counts a whole run_loop as one step of the goroutine; that a player ever leaves the loop is not claimed.
- Encounter.EncounterAccounts: excludes moves, which both dispatchers block during a fight.
