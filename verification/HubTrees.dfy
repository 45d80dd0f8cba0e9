/** A topology that is a tree stays one when hubs are inserted, unless a hub id is taken. */
module HubTrees {
  import opened Paths
  import opened AssignDirections
  import opened EdgeLists
  import opened InsertHubs
  import opened HubTheorems

  /** Every node but the root has exactly one parent, and all hang together with the root. */
  ghost predicate IsTree(nodes: seq<RawNode>, es: seq<RawEdge>, root: string) {
    && DistinctIds(nodes) && root in Ids(nodes) && Ends(es) <= Ids(nodes)
    && (forall e :: e in es ==> e.from != e.to)
    && (forall v :: v in Ids(nodes) ==> InDegree(es, v) == if v == root then 0 else 1)
    && (forall v :: v in Ids(nodes) ==> Reaches(RawLinks(es), root, v))
  }

  lemma TreePlain(nodes: seq<RawNode>, es: seq<RawEdge>, root: string)
    requires IsTree(nodes, es, root) && !HubClash(nodes, es)
    ensures Plain(es, es)
  {
    forall v | v in Ends(es) ensures !Hub(es, v) {
      assert v in Ids(nodes);
      var n :| n in nodes && n.id == v;
    }
  }

  // ---------- The edges of a hubbed tree ----------

  ghost predicate HubLink(es: seq<RawEdge>, e: RawEdge, p: string, k: nat) {
    && Wide(Children(es, p)) && k < HubsFor(|Children(es, p)| - (MAX_CHILDREN - 1))
    && e == RawEdge(Anchor(p, k), HubId(p, k + 1), "open")
  }

  /** `e` is the original edge `o` with its parent end moved to one of the parent's hubs. */
  ghost predicate Carries(es: seq<RawEdge>, e: RawEdge, o: RawEdge) {
    o in es && o.to == e.to && o.kind == e.kind && Owner(es, e.from) == o.from
  }

  ghost predicate HubbedEdge(es: seq<RawEdge>, e: RawEdge) {
    (exists p, k: nat :: HubLink(es, e, p, k)) || (exists o :: Carries(es, e, o))
  }

  lemma AttachMembers(es: seq<RawEdge>, p: string, hub: string, batch: seq<RawEdge>, e: RawEdge)
    requires Owner(es, hub) == p && e in Attach(hub, batch)
    requires forall o :: o in batch ==> o in es && o.from == p
    ensures HubbedEdge(es, e)
  {
    var i :| 0 <= i < |batch| && e == RawEdge(hub, batch[i].to, batch[i].kind);
    assert batch[i] in batch && Carries(es, e, batch[i]);
  }

  lemma {:induction false} ChainMembers(es: seq<RawEdge>, p: string, kids: seq<RawEdge>, k: nat, e: RawEdge)
    requires Wide(Children(es, p)) && !Hub(es, p)
    requires k + HubsFor(|kids|) <= HubsFor(|Children(es, p)| - (MAX_CHILDREN - 1))
    requires forall o :: o in kids ==> o in es && o.from == p
    requires e in Chain(p, kids, k)
    ensures HubbedEdge(es, e)
    decreases |kids|
  {
    hide Owner, Hub, HubbedEdge;
    HubsForMeaning(|kids|);
    var n := Batch(|kids|);
    var hub := HubId(p, k + 1);
    ContractLink(es, p, k);
    if e == RawEdge(Anchor(p, k), hub, "open") {
      LinkIsHubbed(es, e, p, k);
    } else if e in Attach(hub, kids[..n]) {
      AttachMembers(es, p, hub, kids[..n], e);
    } else {
      ChainMembers(es, p, kids[n..], k + 1, e);
    }
  }

  lemma LinkIsHubbed(es: seq<RawEdge>, e: RawEdge, p: string, k: nat)
    requires HubLink(es, e, p, k)
    ensures HubbedEdge(es, e)
  {
  }

  lemma {:induction false} SplitAllMembers(es: seq<RawEdge>, order: seq<string>, e: RawEdge)
    requires forall p :: p in order ==> Wide(Children(es, p))
    requires Plain(es, es)
    requires e in SplitAll(es, order)
    ensures HubbedEdge(es, e)
  {
    hide Hub, Owner, HubbedEdge;
    var m := |order| - 1;
    var p := order[m];
    assert p in order && Wide(Children(es, p));
    var kids := Children(es, p);
    ChildrenPlain(es, p);
    if e in SplitAll(es, order[..m]) {
      SplitAllMembers(es, order[..m], e);
    } else if e in Attach(p, kids[..MAX_CHILDREN - 1]) {
      OwnerOfPlain(es, p);
      AttachMembers(es, p, p, kids[..MAX_CHILDREN - 1], e);
    } else {
      ChainMembers(es, p, kids[MAX_CHILDREN - 1..], 0, e);
    }
  }

  lemma OwnerOfPlain(es: seq<RawEdge>, x: string)
    requires !Hub(es, x)
    ensures Owner(es, x) == x
  {
  }

  lemma HubbedMembers(es: seq<RawEdge>, order: seq<string>, e: RawEdge)
    requires WideOrder(es, order) && Plain(es, es)
    requires e in HubbedEdges(es, order)
    ensures HubbedEdge(es, e)
  {
    if e in SplitAll(es, order) {
      SplitAllMembers(es, order, e);
    } else {
      KeepMembers(es, FromOutside(Members(order)));
      assert Carries(es, e, e);
    }
  }

  lemma HubLinkOwners(es: seq<RawEdge>, e: RawEdge, p: string, k: nat)
    requires HubLink(es, e, p, k) && !Hub(es, p)
    ensures Hub(es, e.to) && Owner(es, e.from) == p == Owner(es, e.to) && e.from != e.to
  {
    assert IsHub(es, HubId(p, k + 1), p, k + 1);
    OwnerOfHub(es, p, k + 1);
    if k > 0 {
      assert IsHub(es, HubId(p, k), p, k);
      OwnerOfHub(es, p, k);
      if HubId(p, k) == HubId(p, k + 1) {
        HubIdInjective(p, k, p, k + 1);
      }
    }
  }

  /** A hubbed edge is no loop, and either stays inside one owner's hubs or joins two owners. */
  lemma HubbedEdgeShape(es: seq<RawEdge>, e: RawEdge)
    requires HubbedEdge(es, e) && Plain(es, es)
    ensures e.from != e.to
    ensures if Hub(es, e.to) then Owner(es, e.from) == Owner(es, e.to) else Owner(es, e.from) != e.to
  {
    if p, k: nat :| HubLink(es, e, p, k) {
      WidePlain(es, p);
      HubLinkOwners(es, e, p, k);
    } else {
      var o :| Carries(es, e, o);
    }
  }

  lemma WidePlain(es: seq<RawEdge>, p: string)
    requires Wide(Children(es, p)) && Plain(es, es)
    ensures !Hub(es, p)
  {
    ChildrenPlain(es, p);
  }

  // ---------- One parent each ----------

  lemma {:induction false} InDegreeContracts(es: seq<RawEdge>, t: seq<RawEdge>, v: string)
    requires Plain(es, es) && !Hub(es, v)
    requires forall e :: e in t ==> HubbedEdge(es, e)
    ensures InDegree(t, v) == InDegree(Contract(es, t), v)
  {
    hide HubbedEdge, Plain, Hub;
    if t != [] {
      var m := |t| - 1;
      var e := t[m];
      InDegreeContracts(es, t[..m], v);
      HubbedEdgeShape(es, e);
      var c := RawEdge(Owner(es, e.from), Owner(es, e.to), e.kind);
      if c.from != c.to {
        OwnerOfPlain(es, e.to);
        KeepConcat(Contract(es, t[..m]), [c], ToIs(v));
        assert [c][..0] == [];
      } else {
        if !Hub(es, e.to) {
          OwnerOfPlain(es, e.to);
        }
        assert e.to != v;
        assert Contract(es, t) == Contract(es, t[..m]);
        assert Keep(t, ToIs(v)) == Keep(t[..m], ToIs(v));
      }
    }
  }

  lemma {:induction false} ChainHubIn(es: seq<RawEdge>, p: string, kids: seq<RawEdge>, k: nat, q: string, j: nat)
    requires forall o :: o in kids ==> o.to != HubId(q, j)
    ensures InDegree(Chain(p, kids, k), HubId(q, j)) == if p == q && k < j <= k + HubsFor(|kids|) then 1 else 0
    decreases |kids|
  {
    hide HubId, HubsFor, Keep;
    HubsForMeaning(|kids|);
    KeepNone([], ToIs(HubId(q, j)));
    if kids != [] {
      var n := Batch(|kids|);
      HubsForMeaning(|kids| - n);
      var hub := HubId(p, k + 1);
      var link := RawEdge(Anchor(p, k), hub, "open");
      var attached, rest := Attach(hub, kids[..n]), Chain(p, kids[n..], k + 1);
      ChainHubIn(es, p, kids[n..], k + 1, q, j);
      KeepConcat([link] + attached, rest, ToIs(HubId(q, j)));
      KeepConcat([link], attached, ToIs(HubId(q, j)));
      AttachIn(hub, kids[..n], HubId(q, j));
      if hub == HubId(q, j) {
        KeepAll([link], ToIs(HubId(q, j)));
      } else {
        KeepNone([link], ToIs(HubId(q, j)));
      }
      if hub == HubId(q, j) {
        HubIdInjective(p, k + 1, q, j);
      }
    }
  }

  lemma AttachIn(hub: string, batch: seq<RawEdge>, v: string)
    requires forall o :: o in batch ==> o.to != v
    ensures InDegree(Attach(hub, batch), v) == 0
  {
    KeepNone(Attach(hub, batch), ToIs(v));
  }

  lemma {:induction false} SplitAllHubIn(es: seq<RawEdge>, order: seq<string>, q: string, j: nat)
    requires forall p :: p in order ==> Wide(Children(es, p))
    requires forall i, j :: 0 <= i < j < |order| ==> order[i] != order[j]
    requires forall o :: o in es ==> o.to != HubId(q, j)
    ensures InDegree(SplitAll(es, order), HubId(q, j)) == if q in order && IsHub(es, HubId(q, j), q, j) then 1 else 0
  {
    hide HubId, Keep, Chain, Attach, HubsFor;
    KeepNone([], ToIs(HubId(q, j)));
    if order != [] {
      var m := |order| - 1;
      var p := order[m];
      assert p in order && Wide(Children(es, p));
      var kids := Children(es, p);
      var first, rest := kids[..MAX_CHILDREN - 1], kids[MAX_CHILDREN - 1..];
      KeepMembers(es, FromIs(p));
      SplitAllHubIn(es, order[..m], q, j);
      AttachIn(p, first, HubId(q, j));
      ChainHubIn(es, p, rest, 0, q, j);
      KeepConcat(Attach(p, first), Chain(p, rest, 0), ToIs(HubId(q, j)));
      KeepConcat(SplitAll(es, order[..m]), Split(p, kids), ToIs(HubId(q, j)));
    }
  }

  lemma HubInDegree(es: seq<RawEdge>, order: seq<string>, x: string)
    requires WideOrder(es, order) && Plain(es, es) && Hub(es, x)
    ensures InDegree(HubbedEdges(es, order), x) == 1
  {
    var q, j: nat :| IsHub(es, x, q, j);
    var kept := Keep(es, FromOutside(Members(order)));
    KeepMembers(es, FromOutside(Members(order)));
    KeepNone(kept, ToIs(x));
    SplitAllHubIn(es, order, q, j);
    KeepConcat(kept, SplitAll(es, order), ToIs(x));
  }

  lemma PlainInDegree(es: seq<RawEdge>, order: seq<string>, v: string)
    requires WideOrder(es, order) && Plain(es, es) && !Hub(es, v)
    ensures InDegree(HubbedEdges(es, order), v) == InDegree(es, v)
  {
    var t := HubbedEdges(es, order);
    forall e | e in t ensures HubbedEdge(es, e) {
      HubbedMembers(es, order, e);
    }
    InDegreeContracts(es, t, v);
    ContractionRestores(es, order);
    KeepPermuted(Contract(es, t), es, ToIs(v));
  }

  // ---------- Everything stays connected ----------

  lemma EdgeLinked(t: seq<RawEdge>, e: RawEdge)
    requires e in t
    ensures Linked(RawLinks(t), e.from, e.to)
  {
    var i :| 0 <= i < |t| && t[i] == e;
    assert RawLinks(t)[i] == (e.from, e.to);
  }

  lemma AttachReaches(t: seq<RawEdge>, s: string, hub: string, batch: seq<RawEdge>)
    requires forall e :: e in Attach(hub, batch) ==> e in t
    requires Reaches(RawLinks(t), s, hub)
    ensures forall o :: o in batch ==> Reaches(RawLinks(t), s, o.to)
  {
    forall o | o in batch ensures Reaches(RawLinks(t), s, o.to) {
      var i :| 0 <= i < |batch| && batch[i] == o;
      var e := Attach(hub, batch)[i];
      assert e in Attach(hub, batch);
      EdgeLinked(t, e);
      ReachesStep(RawLinks(t), s, hub, o.to);
    }
  }

  lemma ChainWithin(t: seq<RawEdge>, p: string, kids: seq<RawEdge>, k: nat)
    requires kids != [] && forall e :: e in Chain(p, kids, k) ==> e in t
    ensures var n, hub := Batch(|kids|), HubId(p, k + 1);
            && RawEdge(Anchor(p, k), hub, "open") in t
            && (forall e :: e in Attach(hub, kids[..n]) ==> e in t)
            && (forall e :: e in Chain(p, kids[n..], k + 1) ==> e in t)
  {
    hide Attach, HubId;
    var n, hub := Batch(|kids|), HubId(p, k + 1);
    var link, own, rest := [RawEdge(Anchor(p, k), hub, "open")], Attach(hub, kids[..n]), Chain(p, kids[n..], k + 1);
    assert Chain(p, kids, k) == link + own + rest;
    assert link[0] in link;
  }

  lemma {:induction false} ChainReaches(t: seq<RawEdge>, p: string, kids: seq<RawEdge>, k: nat)
    requires forall e :: e in Chain(p, kids, k) ==> e in t
    requires Reaches(RawLinks(t), p, Anchor(p, k))
    ensures forall o :: o in kids ==> Reaches(RawLinks(t), p, o.to)
    ensures forall j: nat :: k < j <= k + HubsFor(|kids|) ==> Reaches(RawLinks(t), p, HubId(p, j))
    decreases |kids|
  {
    hide Reaches, RawLinks, Attach, HubId, Chain, HubsFor;
    HubsForMeaning(|kids|);
    if kids != [] {
      var n := Batch(|kids|);
      var hub := HubId(p, k + 1);
      var link := RawEdge(Anchor(p, k), hub, "open");
      ChainWithin(t, p, kids, k);
      EdgeLinked(t, link);
      ReachesStep(RawLinks(t), p, Anchor(p, k), hub);
      AttachReaches(t, p, hub, kids[..n]);
      ChainReaches(t, p, kids[n..], k + 1);
      assert kids == kids[..n] + kids[n..];
    }
  }

  lemma {:induction false} SplitInAll(es: seq<RawEdge>, order: seq<string>, p: string)
    requires forall q :: q in order ==> Wide(Children(es, q))
    requires p in order
    ensures forall e :: e in Split(p, Children(es, p)) ==> e in SplitAll(es, order)
    ensures forall v :: OutDegree(Split(p, Children(es, p)), v) <= OutDegree(SplitAll(es, order), v)
  {
    hide Split, Keep;
    var m := |order| - 1;
    var q := order[m];
    assert q in order && Wide(Children(es, q));
    forall v ensures OutDegree(SplitAll(es, order), v) == OutDegree(SplitAll(es, order[..m]), v) + OutDegree(Split(q, Children(es, q)), v) {
      KeepConcat(SplitAll(es, order[..m]), Split(q, Children(es, q)), FromIs(v));
    }
    if q != p {
      SplitInAll(es, order[..m], p);
    }
  }

  lemma SplitReaches(es: seq<RawEdge>, order: seq<string>, p: string)
    requires WideOrder(es, order) && Wide(Children(es, p))
    ensures forall o :: o in Children(es, p) ==> Reaches(RawLinks(HubbedEdges(es, order)), p, o.to)
    ensures forall k: nat :: IsHub(es, HubId(p, k), p, k) ==> Reaches(RawLinks(HubbedEdges(es, order)), p, HubId(p, k))
  {
    hide Reaches, RawLinks, Attach, HubId, Chain;
    var t := HubbedEdges(es, order);
    var kids := Children(es, p);
    assert p in order;
    SplitInAll(es, order, p);
    ReachesSelf(RawLinks(t), p);
    AttachReaches(t, p, p, kids[..MAX_CHILDREN - 1]);
    ChainReaches(t, p, kids[MAX_CHILDREN - 1..], 0);
    assert kids == kids[..MAX_CHILDREN - 1] + kids[MAX_CHILDREN - 1..];
  }

  lemma OldLinksBridged(es: seq<RawEdge>, order: seq<string>, e: RawEdge)
    requires WideOrder(es, order) && e in es
    ensures Reaches(RawLinks(HubbedEdges(es, order)), e.from, e.to)
  {
    var t := HubbedEdges(es, order);
    if Wide(Children(es, e.from)) {
      KeepMembers(es, FromIs(e.from));
      SplitReaches(es, order, e.from);
    } else {
      KeepMembers(es, FromOutside(Members(order)));
      assert e in t;
      EdgeLinked(t, e);
      ReachesSelf(RawLinks(t), e.from);
      ReachesStep(RawLinks(t), e.from, e.from, e.to);
    }
  }

  lemma HubbedConnected(nodes: seq<RawNode>, es: seq<RawEdge>, order: seq<string>, root: string, v: string)
    requires IsTree(nodes, es, root) && WideOrder(es, order)
    requires v in Ids(nodes) || Hub(es, v)
    ensures Reaches(RawLinks(HubbedEdges(es, order)), root, v)
  {
    var ls, ms := RawLinks(es), RawLinks(HubbedEdges(es, order));
    forall u, w | (u, w) in ls ensures Reaches(ms, u, w) {
      var i :| 0 <= i < |es| && ls[i] == (u, w);
      OldLinksBridged(es, order, es[i]);
    }
    if v in Ids(nodes) {
      var p :| IsWalk(ls, p, root, v);
      ReachesBridged(ls, ms, p, root, v);
    } else {
      var q, k: nat :| IsHub(es, v, q, k);
      WideInNodes(nodes, es, root, q);
      var p :| IsWalk(ls, p, root, q);
      ReachesBridged(ls, ms, p, root, q);
      SplitReaches(es, order, q);
      ReachesTransitive(ms, root, q, v);
    }
  }

  lemma WideInNodes(nodes: seq<RawNode>, es: seq<RawEdge>, root: string, p: string)
    requires IsTree(nodes, es, root) && Wide(Children(es, p))
    ensures p in Ids(nodes)
  {
    KeepMembers(es, FromIs(p));
    assert Children(es, p)[0] in es && p in Ends(es);
  }

  // ---------- Hub insertion maps a tree to a tree ----------

  lemma HubbedIds(nodes: seq<RawNode>, es: seq<RawEdge>, order: seq<string>, x: string)
    requires WideOrder(es, order)
    ensures x in Ids(HubbedNodes(nodes, es, order)) <==> x in Ids(nodes) || Hub(es, x)
  {
    HubsAllIds(nodes, es, order);
    assert Ids(nodes + HubsAll(nodes, es, order)) == Ids(nodes) + Ids(HubsAll(nodes, es, order));
    if Hub(es, x) {
      var p, k: nat :| IsHub(es, x, p, k);
      assert p in order;
    }
  }

  lemma HubbedEnds(nodes: seq<RawNode>, es: seq<RawEdge>, order: seq<string>, root: string, e: RawEdge)
    requires IsTree(nodes, es, root) && WideOrder(es, order) && Plain(es, es)
    requires e in HubbedEdges(es, order)
    ensures e.from in Ids(HubbedNodes(nodes, es, order)) && e.to in Ids(HubbedNodes(nodes, es, order))
    ensures e.from != e.to
  {
    HubbedMembers(es, order, e);
    HubbedEdgeShape(es, e);
    HubbedIds(nodes, es, order, e.from);
    HubbedIds(nodes, es, order, e.to);
    if p, k: nat :| HubLink(es, e, p, k) {
      WidePlain(es, p);
      WideInNodes(nodes, es, root, p);
      HubLinkOwners(es, e, p, k);
      if k > 0 {
        assert IsHub(es, HubId(p, k), p, k);
      }
    } else {
      var o :| Carries(es, e, o);
      assert o.from in Ends(es) && o.to in Ends(es);
    }
  }

  lemma HubbedTree(nodes: seq<RawNode>, es: seq<RawEdge>, order: seq<string>, root: string)
    requires IsTree(nodes, es, root) && WideOrder(es, order) && !HubClash(nodes, es)
    ensures IsTree(HubbedNodes(nodes, es, order), HubbedEdges(es, order), root)
  {
    hide Hub, Reaches, DistinctIds, Keep, HubbedNodes, HubbedEdges, WideOrder;
    var ns, t := HubbedNodes(nodes, es, order), HubbedEdges(es, order);
    TreePlain(nodes, es, root);
    HubbedIdsDistinct(nodes, es, order);
    HubbedIds(nodes, es, order, root);
    forall e | e in t ensures e.from in Ids(ns) && e.to in Ids(ns) && e.from != e.to {
      HubbedEnds(nodes, es, order, root, e);
    }
    forall v | v in Ids(ns) ensures InDegree(t, v) == (if v == root then 0 else 1) && Reaches(RawLinks(t), root, v) {
      HubbedIds(nodes, es, order, v);
      HubbedConnected(nodes, es, order, root, v);
      if Hub(es, v) {
        HubInDegree(es, order, v);
        NotHub(nodes, es, root);
      } else {
        PlainInDegree(es, order, v);
      }
    }
  }

  lemma NotHub(nodes: seq<RawNode>, es: seq<RawEdge>, x: string)
    requires !HubClash(nodes, es) && x in Ids(nodes)
    ensures !Hub(es, x)
  {
    var n :| n in nodes && n.id == x;
  }
}
