/** The enemy visitor: deeper rooms get harder enemies. */
module EnemyTiers {
  import opened Paths
  import opened Graphs
  import opened Scenarios
  import opened Export

  datatype Tier = Tier(id: string, name: string, hp: int, attack: string, ai: string)

  const DEFAULT_TIERS: seq<Tier> := [
    Tier("rat", "Giant Rat", 3, "1d2", "cautious"),
    Tier("goblin", "Goblin", 6, "1d3", "aggressive"),
    Tier("skeleton", "Skeleton Warrior", 10, "1d4", "aggressive"),
    Tier("troll", "Cave Troll", 15, "1d6", "aggressive"),
    Tier("dragon", "Elder Dragon", 25, "1d8+2", "aggressive")]

  /** The tier before jitter; the clamp below it in the source never acts, see TierInRange. */
  function TierIndex(dist: nat, tiers: nat, maxDist: nat): nat {
    (dist * tiers) / (maxDist + 1)
  }

  /** Moves one tier down on rolls 0 and 1, one up on 8 and 9, never off either end. */
  function Jitter(tier: nat, tiers: nat, roll: int): nat {
    if roll < 2 && tier > 0 then tier - 1
    else if roll >= 8 && tier < tiers - 1 then tier + 1
    else tier
  }

  lemma DivBounds(a: nat, b: nat, q: nat)
    requires b > 0 && q == a / b
    ensures q * b <= a < (q + 1) * b
  {
  }

  lemma MulMonotone(a: nat, b: nat, c: nat)
    ensures a <= b ==> a * c <= b * c
  {
  }

  lemma TierInRange(dist: nat, tiers: nat, maxDist: nat, roll: int)
    requires 0 < tiers && dist <= maxDist
    ensures TierIndex(dist, tiers, maxDist) < tiers
    ensures Jitter(TierIndex(dist, tiers, maxDist), tiers, roll) < tiers
  {
    var q := TierIndex(dist, tiers, maxDist);
    DivBounds(dist * tiers, maxDist + 1, q);
    MulMonotone(tiers, q, maxDist + 1);
    MulMonotone(dist, maxDist, tiers);
  }

  lemma TierMonotone(near: nat, far: nat, tiers: nat, maxDist: nat)
    requires near <= far
    ensures TierIndex(near, tiers, maxDist) <= TierIndex(far, tiers, maxDist)
    ensures TierIndex(0, tiers, maxDist) == 0
  {
    var p, q := TierIndex(near, tiers, maxDist), TierIndex(far, tiers, maxDist);
    DivBounds(near * tiers, maxDist + 1, p);
    DivBounds(far * tiers, maxDist + 1, q);
    MulMonotone(near, far, tiers);
    MulMonotone(q + 1, p, maxDist + 1);
  }

  /** The tiers divide the distances from 0 to the greatest evenly: tier t begins where t shares out of
      `tiers` are used up. The hardest is reached exactly if there are as many distances as tiers. */
  lemma TierBands(dist: nat, tiers: nat, maxDist: nat, t: nat)
    requires 0 < tiers && dist <= maxDist
    ensures TierIndex(dist, tiers, maxDist) == t <==> t * (maxDist + 1) <= dist * tiers < (t + 1) * (maxDist + 1)
    ensures TierIndex(maxDist, tiers, maxDist) == tiers - 1 <==> tiers <= maxDist + 1
  {
    DivIs(dist * tiers, maxDist + 1, t);
    DivIs(maxDist * tiers, maxDist + 1, tiers - 1);
    Shares(maxDist, tiers);
  }

  lemma Shares(m: nat, n: nat)
    ensures (n - 1) * (m + 1) <= m * n <==> n <= m + 1
    ensures m * n < n * (m + 1) <==> 0 < n
  {
    assert (n - 1) * (m + 1) == m * n + n - (m + 1);
    assert n * (m + 1) == m * n + n;
  }

  lemma DivIs(a: nat, b: nat, q: nat)
    requires b > 0
    ensures a / b == q <==> q * b <= a < (q + 1) * b
  {
    DivBounds(a, b, a / b);
    if q * b <= a < (q + 1) * b {
      MulMonotone(a / b + 1, q, b);
      MulMonotone(q + 1, a / b, b);
    }
  }

  /** How many of the rolls below `n` take `tier` to `to`. */
  function JitterCount(tier: nat, tiers: nat, to: nat, n: nat): nat {
    if n == 0 then 0 else JitterCount(tier, tiers, to, n - 1) + if Jitter(tier, tiers, n - 1) == to then 1 else 0
  }

  /** Of ten rolls two make an enemy one tier easier and two one tier harder, unless there is no such
      tier; the others leave it. */
  lemma {:induction false} JitterOdds(tier: nat, tiers: nat, to: nat, n: nat)
    requires tier < tiers && n <= 10
    ensures var down := if tier == 0 then 0 else if n < 2 then n else 2;
            var up := if tier + 1 == tiers || n < 8 then 0 else n - 8;
            JitterCount(tier, tiers, to, n)
            == if to == tier then n - down - up else if to + 1 == tier then down else if to == tier + 1 then up else 0
  {
    if n > 0 {
      JitterOdds(tier, tiers, to, n - 1);
    }
  }

  /** The deepest room need not get the hardest tier: with more tiers than distances it does not. */
  lemma DeepestIsNotHardest()
    ensures TierIndex(2, |DEFAULT_TIERS|, 2) == 3 && |DEFAULT_TIERS| - 1 == 4
  {
  }

  predicate IsHubNode(n: Node) {
    "hub" in n.meta && n.meta["hub"] == "true"
  }

  function RoomOf(content: Content, id: string): RoomContent {
    if id in content.rooms then content.rooms[id] else RoomContent("", "", [], [])
  }

  /** The enemies that the visitor adds to room `id` at distance `dist` from the start. */
  function Spawned(tiers: seq<Tier>, n: Node, dist: int, maxDist: nat, spawns: bool, roll: int): seq<string>
    requires 0 < |tiers| && dist <= maxDist
  {
    if dist <= 0 || IsHubNode(n) || !spawns then []
    else
      TierInRange(dist, |tiers|, maxDist, roll);
      [tiers[Jitter(TierIndex(dist, |tiers|, maxDist), |tiers|, roll)].id]
  }

  /** `d` is the distance of `v`, or -1 when nothing leads there. */
  ghost predicate DistanceOr(ls: seq<Link>, s: string, v: string, d: int) {
    if d < 0 then d == -1 && !Reaches(ls, s, v) else DistanceIs(ls, s, v, d)
  }

  function Template(t: Tier): EnemyTemplate { EnemyTemplate(t.name, t.hp, t.attack, t.ai) }

  /** Room `id` got exactly the enemies its distance calls for. */
  ghost predicate Placed(ls: seq<Link>, s: string, tiers: seq<Tier>, n: Node, maxDist: nat, spawns: bool, roll: int,
                         before: RoomContent, after: RoomContent)
    requires 0 < |tiers|
  {
    forall d: int :: DistanceOr(ls, s, n.id, d) && d <= maxDist ==>
      after == before.(enemies := before.enemies + Spawned(tiers, n, d, maxDist, spawns, roll))
  }

  /** The body of the loop over the rooms. */
  method VisitRoom(g: Graph, n: Node, content: Content, tiers: seq<Tier>, maxDist: nat, spawns: bool, roll: int)
      returns (content': Content)
    requires 0 < |tiers| && forall d: nat :: DistanceIs(Links(g.Edges), g.Start, n.id, d) ==> d <= maxDist
    ensures Placed(Links(g.Edges), g.Start, tiers, n, maxDist, spawns, roll, RoomOf(content, n.id), RoomOf(content', n.id))
    ensures forall id :: id != n.id ==> RoomOf(content', id) == RoomOf(content, id)
    ensures content'.enemies == content.enemies
    ensures EnemiesKnown(g.Nodes.Keys, content) && (set t | t in tiers :: t.id) <= content.enemies.Keys ==> EnemiesKnown(g.Nodes.Keys, content')
  {
    hide DistanceIs, Reaches;
    content' := content;
    var dist := g.Distance(n.id);
    assert DistanceOr(Links(g.Edges), g.Start, n.id, dist);
    forall d: int | DistanceOr(Links(g.Edges), g.Start, n.id, d) ensures d == dist {
      OneDistance(Links(g.Edges), g.Start, n.id, d, dist);
    }
    if dist <= 0 {
      return;
    }
    if IsHubNode(n) {
      return;
    }
    if !spawns {
      return;
    }
    var tierIdx := TierIndex(dist, |tiers|, maxDist);
    TierInRange(dist, |tiers|, maxDist, roll);
    if tierIdx >= |tiers| {
      tierIdx := |tiers| - 1;
    }
    tierIdx := Jitter(tierIdx, |tiers|, roll);
    var rc := RoomOf(content, n.id);
    assert tiers[tierIdx] in tiers;
    content' := content.(rooms := content.rooms[n.id := rc.(enemies := rc.enemies + [tiers[tierIdx].id])]);
  }

  /** `spawns` and `rolls` are the random draws, one per room. */
  method Visit(g: Graph, content: Content, custom: seq<Tier>, spawns: string -> bool, rolls: string -> int)
      returns (content': Content, ghost maxDist: nat)
    requires g.Built()
    ensures exists v :: DistanceIs(Links(g.Edges), g.Start, v, maxDist)
    ensures forall v, d: nat :: DistanceIs(Links(g.Edges), g.Start, v, d) ==> d <= maxDist
    ensures var tiers := if custom == [] then DEFAULT_TIERS else custom;
      && Registered(tiers, content.enemies, content'.enemies)
      && forall id :: id in g.Nodes ==>
           Placed(Links(g.Edges), g.Start, tiers, g.Nodes[id], maxDist, spawns(id), rolls(id), RoomOf(content, id), RoomOf(content', id))
    ensures forall id :: id !in g.Nodes ==> RoomOf(content', id) == RoomOf(content, id)
    ensures EnemiesKnown(g.Nodes.Keys, content) ==> EnemiesKnown(g.Nodes.Keys, content')
  {
    hide DistanceIs, Reaches, Placed, Graph.Built, EnemiesKnown, Registered;
    var tiers := if custom == [] then DEFAULT_TIERS else custom;
    content' := Register(content, tiers);
    RegisteredKeys(tiers, content.enemies, content'.enemies);
    StillKnown(g.Nodes.Keys, content, content');
    var deepest := g.MaxDistance();
    maxDist := deepest;
    ghost var ls, s := Links(g.Edges), g.Start;
    if deepest == 0 {
      forall id | id in g.Nodes
        ensures Placed(ls, s, tiers, g.Nodes[id], 0, spawns(id), rolls(id), RoomOf(content, id), RoomOf(content', id))
      {
        NothingPlaced(ls, s, tiers, g.Nodes[id], spawns(id), rolls(id), RoomOf(content, id));
      }
      return;
    }
    ghost var catalog := content';
    assert forall id :: RoomOf(catalog, id) == RoomOf(content, id);
    content' := VisitRooms(g, content', tiers, deepest, spawns, rolls);
  }

  /** The loop over the rooms. */
  method VisitRooms(g: Graph, content: Content, tiers: seq<Tier>, maxDist: nat, spawns: string -> bool,
      rolls: string -> int)
      returns (content': Content)
    requires g.Built() && 0 < |tiers| && (set t | t in tiers :: t.id) <= content.enemies.Keys
    requires forall v, d: nat :: DistanceIs(Links(g.Edges), g.Start, v, d) ==> d <= maxDist
    ensures content'.enemies == content.enemies
    ensures forall id :: id in g.Nodes ==>
      Placed(Links(g.Edges), g.Start, tiers, g.Nodes[id], maxDist, spawns(id), rolls(id), RoomOf(content, id), RoomOf(content', id))
    ensures forall id :: id !in g.Nodes ==> RoomOf(content', id) == RoomOf(content, id)
    ensures EnemiesKnown(g.Nodes.Keys, content) ==> EnemiesKnown(g.Nodes.Keys, content')
  {
    hide DistanceIs, Reaches, Placed, Graph.Built, EnemiesKnown;
    content' := content;
    var ids := g.Nodes.Keys;
    while ids != {}
      invariant ids <= g.Nodes.Keys && content'.enemies == content.enemies
      invariant forall id :: id !in g.Nodes.Keys - ids ==> RoomOf(content', id) == RoomOf(content, id)
      invariant forall id :: id in g.Nodes.Keys - ids ==>
        Placed(Links(g.Edges), g.Start, tiers, g.Nodes[id], maxDist, spawns(id), rolls(id), RoomOf(content, id), RoomOf(content', id))
      invariant EnemiesKnown(g.Nodes.Keys, content) ==> EnemiesKnown(g.Nodes.Keys, content')
    {
      var id :| id in ids;
      ids := ids - {id};
      BuiltIds(g, id);
      content' := VisitRoom(g, g.Nodes[id], content', tiers, maxDist, spawns(id), rolls(id));
    }
  }

  lemma StillKnown(nodes: set<string>, before: Content, after: Content)
    requires before.rooms == after.rooms && before.enemies.Keys <= after.enemies.Keys
    ensures EnemiesKnown(nodes, before) ==> EnemiesKnown(nodes, after)
  {
  }

  lemma BuiltIds(g: Graph, id: string)
    requires g.Built() && id in g.Nodes
    ensures g.Nodes[id].id == id
  {
  }

  lemma NothingPlaced(ls: seq<Link>, s: string, tiers: seq<Tier>, n: Node, spawns: bool, roll: int, rc: RoomContent)
    requires 0 < |tiers|
    ensures Placed(ls, s, tiers, n, 0, spawns, roll, rc, rc)
  {
    assert rc.enemies + [] == rc.enemies;
  }

  lemma OneDistance(ls: seq<Link>, s: string, v: string, d: int, e: int)
    requires DistanceOr(ls, s, v, d) && DistanceOr(ls, s, v, e)
    ensures d == e
  {
    if 0 <= d && 0 <= e {
      DistanceUnique(ls, s, v, d, e);
    }
  }

  /** The place of the last tier with this id, or -1. */
  function LastTier(tiers: seq<Tier>, id: string): (i: int)
    ensures -1 <= i < |tiers|
    ensures 0 <= i ==> tiers[i].id == id
    ensures forall j :: i < j < |tiers| ==> tiers[j].id != id
  {
    if tiers == [] then -1
    else if tiers[|tiers| - 1].id == id then |tiers| - 1
    else LastTier(tiers[..|tiers| - 1], id)
  }

  /** Every tier is in the catalog under its id, over whatever was there and over earlier tiers of
      that id; nothing else changed. */
  ghost predicate Registered(tiers: seq<Tier>, before: map<string, EnemyTemplate>, after: map<string, EnemyTemplate>) {
    && (forall id :: id in after <==> id in before || 0 <= LastTier(tiers, id))
    && forall id :: id in after ==>
         var i := LastTier(tiers, id);
         if 0 <= i then after[id] == Template(tiers[i]) else id in before && after[id] == before[id]
  }

  lemma RegisteredKeys(tiers: seq<Tier>, before: map<string, EnemyTemplate>, after: map<string, EnemyTemplate>)
    requires Registered(tiers, before, after)
    ensures after.Keys == before.Keys + set t | t in tiers :: t.id
  {
    hide LastTier;
    forall id | 0 <= LastTier(tiers, id) ensures tiers[LastTier(tiers, id)] in tiers {
    }
  }

  lemma RegisteredNext(tiers: seq<Tier>, t: Tier, before: map<string, EnemyTemplate>, after: map<string, EnemyTemplate>)
    requires Registered(tiers, before, after)
    ensures Registered(tiers + [t], before, after[t.id := Template(t)])
  {
    hide LastTier;
    forall id ensures LastTier(tiers + [t], id) == if t.id == id then |tiers| else LastTier(tiers, id) {
      LastTierNext(tiers, t, id);
    }
  }

  lemma LastTierNext(tiers: seq<Tier>, t: Tier, id: string)
    ensures LastTier(tiers + [t], id) == if t.id == id then |tiers| else LastTier(tiers, id)
  {
    assert (tiers + [t])[..|tiers|] == tiers;
  }

  lemma RegisteredNone(before: map<string, EnemyTemplate>)
    ensures Registered([], before, before)
  {
  }

  method Register(content: Content, tiers: seq<Tier>) returns (content': Content)
    ensures content' == content.(enemies := content'.enemies)
    ensures Registered(tiers, content.enemies, content'.enemies)
  {
    hide Registered;
    content' := content;
    RegisteredNone(content.enemies);
    assert tiers[..0] == [];
    for i := 0 to |tiers|
      invariant content' == content.(enemies := content'.enemies)
      invariant Registered(tiers[..i], content.enemies, content'.enemies)
    {
      assert tiers[..i + 1] == tiers[..i] + [tiers[i]];
      RegisteredNext(tiers[..i], tiers[i], content.enemies, content'.enemies);
      content' := content'.(enemies := content'.enemies[tiers[i].id := Template(tiers[i])]);
    }
    assert tiers[..|tiers|] == tiers;
  }
}
