/** Undirected links between named nodes, walks over them, and the invariant shared by
    every breadth-first search of the scenario generator. */
module Paths {

  type Link = (string, string)

  predicate Linked(ls: seq<Link>, u: string, v: string) {
    (u, v) in ls || (v, u) in ls
  }

  /** `p` walks from `s` to `v` along the links; it has |p| - 1 steps. */
  ghost predicate IsWalk(ls: seq<Link>, p: seq<string>, s: string, v: string) {
    && 0 < |p| && p[0] == s && p[|p| - 1] == v
    && forall i :: 0 <= i < |p| - 1 ==> Linked(ls, p[i], p[i + 1])
  }

  ghost predicate Reaches(ls: seq<Link>, s: string, v: string) {
    exists p :: IsWalk(ls, p, s, v)
  }

  /** The shortest walk from `s` to `v` has exactly `d` steps. */
  ghost predicate DistanceIs(ls: seq<Link>, s: string, v: string, d: nat) {
    && (exists p :: IsWalk(ls, p, s, v) && |p| == d + 1)
    && forall p :: IsWalk(ls, p, s, v) ==> d + 1 <= |p|
  }

  function Nodes(ls: seq<Link>, s: string): set<string> {
    {s} + (set l | l in ls :: l.0) + (set l | l in ls :: l.1)
  }

  lemma DistanceUnique(ls: seq<Link>, s: string, v: string, d: nat, e: nat)
    requires DistanceIs(ls, s, v, d) && DistanceIs(ls, s, v, e)
    ensures d == e
  {
  }

  lemma StartDistance(ls: seq<Link>, s: string)
    ensures DistanceIs(ls, s, s, 0)
  {
    assert IsWalk(ls, [s], s, s);
  }

  lemma ExtendWalk(ls: seq<Link>, p: seq<string>, s: string, u: string, v: string)
    requires IsWalk(ls, p, s, u) && Linked(ls, u, v)
    ensures IsWalk(ls, p + [v], s, v)
  {
  }

  lemma LinkedSnoc(ls: seq<Link>, l: Link, u: string, v: string)
    ensures Linked(ls + [l], u, v) <==> Linked(ls, u, v) || l == (u, v) || l == (v, u)
  {
  }

  /** The state of a breadth-first search that is scanning the neighbours of `curr`:
      `pending` are those still to be looked at, `queue` the nodes found but not expanded.
      Every depth recorded so far is already the true distance. */
  ghost predicate Searching(ls: seq<Link>, s: string, depth: map<string, nat>, curr: string,
                            pending: seq<string>, queue: seq<string>)
  {
    && s in depth && curr in depth && depth.Keys <= Nodes(ls, s)
    && (forall v :: v in depth ==> DistanceIs(ls, s, v, depth[v]) && depth[v] <= depth[curr] + 1)
    && (forall i :: 0 <= i < |queue| ==> queue[i] in depth && depth[curr] <= depth[queue[i]])
    && (forall i, j :: 0 <= i < j < |queue| ==> depth[queue[i]] <= depth[queue[j]])
    && (forall v, w :: v in depth && Linked(ls, v, w) && v !in queue && !(v == curr && w in pending) ==>
          w in depth && depth[w] <= depth[v] + 1)
  }

  /** How many nodes the search has not found yet. */
  ghost function Unfound(ls: seq<Link>, s: string, depth: map<string, nat>): nat {
    |Nodes(ls, s) - depth.Keys|
  }

  lemma SearchStart(ls: seq<Link>, s: string)
    ensures Searching(ls, s, map[s := 0], s, [], [s])
  {
    StartDistance(ls, s);
  }

  lemma SearchPop(ls: seq<Link>, s: string, depth: map<string, nat>, curr: string,
                  queue: seq<string>, nbrs: seq<string>)
    requires Searching(ls, s, depth, curr, [], queue) && queue != []
    requires forall w :: Linked(ls, queue[0], w) ==> w in nbrs
    ensures queue[0] in depth && Searching(ls, s, depth, queue[0], nbrs[0..], queue[1..])
  {
    assert forall v :: v in queue ==> v == queue[0] || v in queue[1..];
    assert nbrs[0..] == nbrs;
  }

  lemma SearchSkip(ls: seq<Link>, s: string, depth: map<string, nat>, curr: string,
                   nbrs: seq<string>, k: nat, queue: seq<string>)
    requires k < |nbrs| && nbrs[k] in depth
    requires Searching(ls, s, depth, curr, nbrs[k..], queue)
    ensures Searching(ls, s, depth, curr, nbrs[k + 1..], queue)
  {
    assert nbrs[k..] == [nbrs[k]] + nbrs[k + 1..];
    assert curr in depth && Linked(ls, curr, nbrs[k]) ==> depth[nbrs[k]] <= depth[curr] + 1;
  }

  /** A walk leaves the expanded part of the search only through the frontier. */
  lemma {:induction false} Frontier(ls: seq<Link>, s: string, depth: map<string, nat>, curr: string,
                                    pending: seq<string>, queue: seq<string>,
                                    p: seq<string>, v: string, i: nat)
    requires Searching(ls, s, depth, curr, pending, queue)
    requires IsWalk(ls, p, s, v) && i < |p|
    ensures (p[i] in depth && depth[p[i]] <= i) || depth[curr] + 1 <= i
  {
    if i == 0 {
      StartDistance(ls, s);
      DistanceUnique(ls, s, s, depth[s], 0);
    } else {
      Frontier(ls, s, depth, curr, pending, queue, p, v, i - 1);
      assert Linked(ls, p[i - 1], p[i]);
    }
  }

  /** A node met for the first time is one step further from the start than `curr`. */
  lemma DiscoveredDistance(ls: seq<Link>, s: string, depth: map<string, nat>, curr: string,
                           pending: seq<string>, queue: seq<string>, w: string)
    requires w !in depth && Linked(ls, curr, w)
    requires Searching(ls, s, depth, curr, pending, queue)
    ensures DistanceIs(ls, s, w, depth[curr] + 1)
  {
    assert DistanceIs(ls, s, curr, depth[curr]);
    var p :| IsWalk(ls, p, s, curr) && |p| == depth[curr] + 1;
    ExtendWalk(ls, p, s, curr, w);
    forall q | IsWalk(ls, q, s, w) ensures depth[curr] + 2 <= |q| {
      Frontier(ls, s, depth, curr, pending, queue, q, w, |q| - 1);
    }
  }

  lemma SearchDiscover(ls: seq<Link>, s: string, depth: map<string, nat>, curr: string,
                       nbrs: seq<string>, k: nat, queue: seq<string>)
    requires k < |nbrs| && nbrs[k] !in depth && Linked(ls, curr, nbrs[k])
    requires Searching(ls, s, depth, curr, nbrs[k..], queue)
    ensures curr in depth && DistanceIs(ls, s, nbrs[k], depth[curr] + 1)
    ensures Searching(ls, s, depth[nbrs[k] := depth[curr] + 1], curr, nbrs[k + 1..], queue + [nbrs[k]])
    ensures Unfound(ls, s, depth[nbrs[k] := depth[curr] + 1]) < Unfound(ls, s, depth)
  {
    var w := nbrs[k];
    assert nbrs[k..] == [w] + nbrs[k + 1..];
    DiscoveredDistance(ls, s, depth, curr, nbrs[k..], queue, w);
    var depth' := depth[w := depth[curr] + 1];
    assert Nodes(ls, s) - depth'.Keys == (Nodes(ls, s) - depth.Keys) - {w};
  }

  /** When the queue runs dry, exactly the reachable nodes have a depth. */
  lemma SearchDone(ls: seq<Link>, s: string, depth: map<string, nat>, curr: string)
    requires Searching(ls, s, depth, curr, [], [])
    ensures forall v :: v in depth <==> Reaches(ls, s, v)
    ensures forall v, d: nat :: DistanceIs(ls, s, v, d) <==> v in depth && depth[v] == d
  {
    forall v | Reaches(ls, s, v) ensures v in depth {
      var p :| IsWalk(ls, p, s, v);
      ClosedUnderLinks(ls, s, depth, p, v, |p| - 1);
    }
    forall v, d: nat | DistanceIs(ls, s, v, d) ensures v in depth && depth[v] == d {
      assert Reaches(ls, s, v);
      DistanceUnique(ls, s, v, depth[v], d);
    }
  }

  lemma {:induction false} ClosedUnderLinks(ls: seq<Link>, s: string, found: map<string, nat>,
                                            p: seq<string>, v: string, i: nat)
    requires s in found
    requires forall u, w :: u in found && Linked(ls, u, w) ==> w in found
    requires IsWalk(ls, p, s, v) && i < |p|
    ensures p[i] in found
  {
    if i > 0 {
      ClosedUnderLinks(ls, s, found, p, v, i - 1);
      assert Linked(ls, p[i - 1], p[i]);
    }
  }

  // ---------- Reaching along undirected links ----------

  lemma ReachesSelf(ls: seq<Link>, s: string)
    ensures Reaches(ls, s, s)
  {
    assert IsWalk(ls, [s], s, s);
  }

  lemma ReachesStep(ls: seq<Link>, s: string, u: string, v: string)
    requires Reaches(ls, s, u) && Linked(ls, u, v)
    ensures Reaches(ls, s, v)
  {
    var p :| IsWalk(ls, p, s, u);
    ExtendWalk(ls, p, s, u, v);
  }

  lemma ReachesTransitive(ls: seq<Link>, s: string, u: string, v: string)
    requires Reaches(ls, s, u) && Reaches(ls, u, v)
    ensures Reaches(ls, s, v)
  {
    var p :| IsWalk(ls, p, s, u);
    var q :| IsWalk(ls, q, u, v);
    var r := p + q[1..];
    forall i | 0 <= i < |r| - 1 ensures Linked(ls, r[i], r[i + 1]) {
      if i >= |p| - 1 {
        assert r[i] == q[i - (|p| - 1)] && r[i + 1] == q[i + 1 - (|p| - 1)];
      }
    }
    assert IsWalk(ls, r, s, v);
  }

  lemma {:induction false} ReachesBack(ls: seq<Link>, p: seq<string>, s: string, v: string)
    requires IsWalk(ls, p, s, v)
    ensures Reaches(ls, v, s)
    decreases |p|
  {
    ReachesSelf(ls, v);
    if |p| > 1 {
      var u := p[|p| - 2];
      assert Linked(ls, u, v);
      assert IsWalk(ls, p[..|p| - 1], s, u);
      ReachesBack(ls, p[..|p| - 1], s, u);
      assert Linked(ls, v, u);
      ReachesStep(ls, v, v, u);
      ReachesTransitive(ls, v, u, s);
    }
  }

  lemma ReachesSymmetric(ls: seq<Link>, s: string, v: string)
    requires Reaches(ls, s, v)
    ensures Reaches(ls, v, s)
  {
    var p :| IsWalk(ls, p, s, v);
    ReachesBack(ls, p, s, v);
  }

  /** If `ms` bridges every link of `ls`, it reaches whatever `ls` does. */
  lemma {:induction false} ReachesBridged(ls: seq<Link>, ms: seq<Link>, p: seq<string>, s: string, v: string)
    requires forall u, w :: (u, w) in ls ==> Reaches(ms, u, w)
    requires IsWalk(ls, p, s, v)
    ensures Reaches(ms, s, v)
    decreases |p|
  {
    ReachesSelf(ms, s);
    if |p| > 1 {
      var u := p[|p| - 2];
      assert Linked(ls, u, v);
      assert IsWalk(ls, p[..|p| - 1], s, u);
      ReachesBridged(ls, ms, p[..|p| - 1], s, u);
      if (v, u) in ls {
        ReachesSymmetric(ms, v, u);
      }
      ReachesTransitive(ms, s, u, v);
    }
  }
}
