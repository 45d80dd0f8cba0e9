/** How many links each node of a hubbed tree has. */
module HubDegrees {
  import opened Paths
  import opened AssignDirections
  import opened EdgeLists
  import opened InsertHubs
  import opened HubTheorems
  import opened HubTrees

  /** The widest fan hub insertion copes with: four children, then one hub with five. */
  const MAX_FAN: nat := 9

  ghost predicate FansFit(es: seq<RawEdge>) {
    forall p :: |Children(es, p)| <= MAX_FAN
  }

  lemma AttachOut(hub: string, batch: seq<RawEdge>, v: string)
    ensures OutDegree(Attach(hub, batch), v) == if v == hub then |batch| else 0
  {
    if v == hub {
      KeepAll(Attach(hub, batch), FromIs(v));
    } else {
      KeepNone(Attach(hub, batch), FromIs(v));
    }
  }

  lemma LinkOut(e: RawEdge, v: string)
    ensures OutDegree([e], v) == if e.from == v then 1 else 0
  {
    assert [e][..0] == [];
    assert Keep([e], FromIs(v)) == if FromIs(v)(e) then [e] else [];
  }

  /** A parent with six to nine children: five links leave it and at most five leave its only hub. */
  lemma SplitOut(p: string, kids: seq<RawEdge>, v: string)
    requires MAX_CHILDREN < |kids| <= MAX_FAN && p != HubId(p, 1)
    ensures OutDegree(Split(p, kids), v) <= if v == p || v == HubId(p, 1) then 5 else 0
  {
    var first, rest := kids[..MAX_CHILDREN - 1], kids[MAX_CHILDREN - 1..];
    var link := RawEdge(p, HubId(p, 1), "open");
    assert rest[..|rest|] == rest && rest[|rest|..] == [];
    assert Chain(p, [], 1) == [];
    assert Chain(p, rest, 0) == [link] + Attach(HubId(p, 1), rest) + [];
    assert Chain(p, rest, 0) == [link] + Attach(HubId(p, 1), rest);
    AttachOut(p, first, v);
    AttachOut(HubId(p, 1), rest, v);
    LinkOut(link, v);
    KeepConcat([link], Attach(HubId(p, 1), rest), FromIs(v));
    KeepConcat(Attach(p, first), Chain(p, rest, 0), FromIs(v));
  }

  /** From ten children on the first hub has five of them and two links besides. */
  lemma CrowdedHub(p: string, kids: seq<RawEdge>)
    requires MAX_FAN < |kids|
    ensures 6 <= OutDegree(Split(p, kids), HubId(p, 1))
  {
    var hub := HubId(p, 1);
    var first, rest := kids[..MAX_CHILDREN - 1], kids[MAX_CHILDREN - 1..];
    var five, more := rest[..MAX_CHILDREN], rest[MAX_CHILDREN..];
    var link, next := RawEdge(p, hub, "open"), RawEdge(hub, HubId(p, 2), "open");
    assert Chain(p, rest, 0) == [link] + Attach(hub, five) + Chain(p, more, 1);
    var tail := Chain(p, more, 1)[1..];
    assert Chain(p, more, 1) == [next] + tail;
    AttachOut(hub, five, hub);
    LinkOut(next, hub);
    KeepConcat([next], tail, FromIs(hub));
    KeepConcat([link] + Attach(hub, five), Chain(p, more, 1), FromIs(hub));
    KeepConcat([link], Attach(hub, five), FromIs(hub));
    KeepConcat(Attach(p, first), Chain(p, rest, 0), FromIs(hub));
  }

  /** Split edges leave `v` only if it is a wide parent or the first hub of one. */
  ghost predicate SplitSource(order: seq<string>, v: string) {
    v in order || exists p :: p in order && v == HubId(p, 1)
  }

  lemma {:induction false} SplitAllOut(es: seq<RawEdge>, order: seq<string>, v: string)
    requires forall p :: p in order ==> Wide(Children(es, p))
    requires forall i, j :: 0 <= i < j < |order| ==> order[i] != order[j]
    requires Plain(es, es) && FansFit(es)
    ensures OutDegree(SplitAll(es, order), v) <= if SplitSource(order, v) then 5 else 0
  {
    hide Hub, HubId, Split, Plain;
    if order != [] {
      var m := |order| - 1;
      var p := order[m];
      assert p in order && Wide(Children(es, p));
      SplitAllOut(es, order[..m], v);
      FirstHubIsHub(es, p);
      WidePlain(es, p);
      SplitOut(p, Children(es, p), v);
      KeepConcat(SplitAll(es, order[..m]), Split(p, Children(es, p)), FromIs(v));
      if v == p || v == HubId(p, 1) {
        if SplitSource(order[..m], v) {
          OneSplitSource(es, order, v);
        }
      }
    }
  }

  lemma FirstHubIsHub(es: seq<RawEdge>, p: string)
    requires Wide(Children(es, p))
    ensures Hub(es, HubId(p, 1))
  {
    assert IsHub(es, HubId(p, 1), p, 1);
  }

  /** No node is a split source twice over. */
  lemma OneSplitSource(es: seq<RawEdge>, order: seq<string>, v: string)
    requires order != [] && forall p :: p in order ==> Wide(Children(es, p))
    requires forall i, j :: 0 <= i < j < |order| ==> order[i] != order[j]
    requires Plain(es, es)
    requires v == order[|order| - 1] || v == HubId(order[|order| - 1], 1)
    ensures !SplitSource(order[..|order| - 1], v)
  {
    var p, before := order[|order| - 1], order[..|order| - 1];
    assert p in order && forall q :: q in before ==> q in order && q != p;
    FirstHubIsHub(es, p);
    WidePlain(es, p);
    forall q | q in before ensures v != q && v != HubId(q, 1) {
      WidePlain(es, q);
      FirstHubIsHub(es, q);
      if v == HubId(q, 1) && v == HubId(p, 1) {
        HubIdInjective(q, 1, p, 1);
      }
    }
  }

  lemma {:induction false} KeptOut(es: seq<RawEdge>, s: set<string>, v: string)
    ensures Keep(Keep(es, FromOutside(s)), FromIs(v)) == if v in s then [] else Keep(es, FromIs(v))
  {
    if es != [] {
      var m := |es| - 1;
      KeptOut(es[..m], s, v);
      KeepConcat(Keep(es[..m], FromOutside(s)), if FromOutside(s)(es[m]) then [es[m]] else [], FromIs(v));
      assert [es[m]][..0] == [];
    }
  }

  lemma HubHasNoChildren(es: seq<RawEdge>, x: string)
    requires Plain(es, es) && Hub(es, x)
    ensures Children(es, x) == []
  {
    ChildrenPlain(es, x);
  }

  lemma HubbedOut(es: seq<RawEdge>, order: seq<string>, v: string)
    requires WideOrder(es, order) && Plain(es, es) && FansFit(es)
    ensures OutDegree(HubbedEdges(es, order), v) <= 5
  {
    hide Keep, Hub, Plain, HubId;
    var s := Members(order);
    KeepConcat(Keep(es, FromOutside(s)), SplitAll(es, order), FromIs(v));
    KeptOut(es, s, v);
    SplitAllOut(es, order, v);
    if v !in s && SplitSource(order, v) {
      var p :| p in order && v == HubId(p, 1);
      FirstHubIsHub(es, p);
      HubHasNoChildren(es, v);
      assert Keep(es, FromIs(v)) == Children(es, v);
    } else if v !in s {
      assert !Wide(Children(es, v));
      assert Keep(es, FromIs(v)) == Children(es, v);
    }
  }

  lemma {:induction false} StrangerDegree(t: seq<RawEdge>, v: string)
    requires v !in Ends(t)
    ensures RawDegree(t, v) == 0
  {
    if t != [] {
      assert t[|t| - 1] in t;
      StrangerDegree(t[..|t| - 1], v);
    }
  }

  /** Every node ends with at most six links exactly when no parent has more than nine children. */
  lemma HubbedDegrees(nodes: seq<RawNode>, es: seq<RawEdge>, order: seq<string>, root: string)
    requires IsTree(nodes, es, root) && WideOrder(es, order) && !HubClash(nodes, es)
    ensures FitsSixSlots(HubbedEdges(es, order)) <==> FansFit(es)
  {
    hide Hub, Keep, HubbedNodes, HubbedEdges, Plain, HubId, Reaches;
    var t := HubbedEdges(es, order);
    TreePlain(nodes, es, root);
    HubbedTree(nodes, es, order, root);
    if FansFit(es) {
      forall v ensures RawDegree(t, v) <= 6 {
        if v in Ends(t) {
          DegreeSplits(t, v);
          HubbedOut(es, order, v);
        } else {
          StrangerDegree(t, v);
        }
      }
    } else {
      var p :| MAX_FAN < |Children(es, p)|;
      TooWideAFan(nodes, es, order, root, p);
    }
  }

  lemma TooWideAFan(nodes: seq<RawNode>, es: seq<RawEdge>, order: seq<string>, root: string, p: string)
    requires IsTree(nodes, es, root) && WideOrder(es, order) && !HubClash(nodes, es)
    requires MAX_FAN < |Children(es, p)|
    ensures 7 <= RawDegree(HubbedEdges(es, order), HubId(p, 1))
  {
    hide Hub, Keep, HubbedNodes, Plain, HubId, Reaches;
    var t, hub := HubbedEdges(es, order), HubId(p, 1);
    TreePlain(nodes, es, root);
    HubbedTree(nodes, es, order, root);
    assert p in order;
    FirstHubIsHub(es, p);
    HubInDegree(es, order, hub);
    DegreeSplits(t, hub);
    CrowdedHub(p, Children(es, p));
    SplitInAll(es, order, p);
    KeepConcat(Keep(es, FromOutside(Members(order))), SplitAll(es, order), FromIs(hub));
  }
}
