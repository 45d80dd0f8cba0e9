/** What hub insertion adds and loses: how many hubs and which, when their ids are new, and
    that contracting them gives back the original edges. */
module HubTheorems {
  import opened Decimals
  import opened AssignDirections
  import opened EdgeLists
  import opened InsertHubs

  /** `x` is the k-th hub of the wide parent `p`. */
  ghost predicate IsHub(es: seq<RawEdge>, x: string, p: string, k: nat) {
    Wide(Children(es, p)) && 1 <= k <= HubsFor(|Children(es, p)| - (MAX_CHILDREN - 1)) && x == HubId(p, k)
  }

  ghost predicate Hub(es: seq<RawEdge>, x: string) {
    exists p, k: nat :: IsHub(es, x, p, k)
  }

  /** A hub that insertion needs already exists as a node. */
  ghost predicate HubClash(nodes: seq<RawNode>, es: seq<RawEdge>) {
    exists n :: n in nodes && Hub(es, n.id)
  }

  lemma HubIdInjective(p: string, k: nat, q: string, j: nat)
    requires HubId(p, k) == HubId(q, j)
    ensures p == q && k == j
  {
    NumberedInjective(p + "_hub", k, q + "_hub", j);
    assert p == (p + "_hub")[..|p + "_hub"| - 4] && q == (q + "_hub")[..|q + "_hub"| - 4];
  }

  lemma HubsForMeaning(n: nat)
    ensures MAX_CHILDREN * (HubsFor(n) - 1) < n <= MAX_CHILDREN * HubsFor(n)
    ensures n > 0 ==> HubsFor(n) == 1 + HubsFor(n - Batch(n))
  {
  }

  // ---------- How many hubs, and which ----------

  lemma {:induction false} HubNodesIds(p: string, name: string, kids: seq<RawEdge>, k: nat)
    ensures |HubNodes(p, name, kids, k)| == HubsFor(|kids|)
    ensures forall i :: 0 <= i < HubsFor(|kids|) ==> HubNodes(p, name, kids, k)[i].id == HubId(p, k + i + 1)
    decreases |kids|
  {
    HubsForMeaning(|kids|);
    if kids != [] {
      HubNodesIds(p, name, kids[Batch(|kids|)..], k + 1);
    }
  }

  /** The new nodes are pairwise distinct and are exactly the hubs. */
  lemma {:induction false} HubsAllIds(nodes: seq<RawNode>, es: seq<RawEdge>, order: seq<string>)
    requires forall p :: p in order ==> Wide(Children(es, p))
    requires forall i, j :: 0 <= i < j < |order| ==> order[i] != order[j]
    ensures DistinctIds(HubsAll(nodes, es, order))
    ensures forall x :: x in Ids(HubsAll(nodes, es, order)) <==> exists p, k: nat :: p in order && IsHub(es, x, p, k)
  {
    if order != [] {
      var m := |order| - 1;
      var p := order[m];
      assert Wide(Children(es, p));
      var kids := Children(es, p)[MAX_CHILDREN - 1..];
      HubsAllIds(nodes, es, order[..m]);
      var before := HubsAll(nodes, es, order[..m]);
      var own := HubNodes(p, ParentName(nodes, p), kids, 0);
      HubNodesIds(p, ParentName(nodes, p), kids, 0);
      OwnHubs(es, p, own);
      assert HubsAll(nodes, es, order) == before + own;
      assert forall q :: q in order <==> q in order[..m] || q == p;
      DistinctConcat(before, own) by {
        forall x | x in Ids(before) && x in Ids(own) ensures false {
          var q, j: nat :| q in order[..m] && IsHub(es, x, q, j);
          var k: nat :| IsHub(es, x, p, k);
          HubIdInjective(q, j, p, k);
        }
      }
      assert Ids(before + own) == Ids(before) + Ids(own);
    }
  }

  lemma OwnHubs(es: seq<RawEdge>, p: string, own: seq<RawNode>)
    requires Wide(Children(es, p)) && |own| == HubsFor(|Children(es, p)| - (MAX_CHILDREN - 1))
    requires forall i :: 0 <= i < |own| ==> own[i].id == HubId(p, i + 1)
    ensures DistinctIds(own)
    ensures forall x :: x in Ids(own) <==> exists k: nat :: IsHub(es, x, p, k)
  {
    forall i, j | 0 <= i < j < |own| ensures own[i].id != own[j].id {
      if own[i].id == own[j].id {
        HubIdInjective(p, i + 1, p, j + 1);
      }
    }
    forall x | x in Ids(own) ensures exists k: nat :: IsHub(es, x, p, k) {
      var i :| 0 <= i < |own| && own[i].id == x;
      assert IsHub(es, x, p, i + 1);
    }
    forall x, k: nat | IsHub(es, x, p, k) ensures x in Ids(own) {
      assert own[k - 1] in own && own[k - 1].id == x;
    }
  }

  lemma DistinctConcat(a: seq<RawNode>, b: seq<RawNode>)
    requires DistinctIds(a) && DistinctIds(b) && Ids(a) !! Ids(b)
    ensures DistinctIds(a + b)
  {
    forall i, j | 0 <= i < j < |a + b| ensures (a + b)[i].id != (a + b)[j].id {
      if i < |a| <= j {
        assert a[i] in a && b[j - |a|] in b;
        assert a[i].id in Ids(a) && b[j - |a|].id in Ids(b);
      }
    }
  }

  /** A parent with n > 5 children gets exactly ceil((n - 4) / 5) hubs, numbered from 1; all
      nodes that insertion adds are such hubs, no two of them alike. */
  lemma HubCount(nodes: seq<RawNode>, es: seq<RawEdge>, order: seq<string>, p: string)
    requires WideOrder(es, order) && Wide(Children(es, p))
    ensures var n, h := |Children(es, p)|, HubsFor(|Children(es, p)| - 4);
            && 5 * (h - 1) < n - 4 <= 5 * h
            && (forall k: nat :: 1 <= k ==> (HubId(p, k) in Ids(HubsAll(nodes, es, order)) <==> k <= h))
    ensures DistinctIds(HubsAll(nodes, es, order))
    ensures forall x :: x in Ids(HubsAll(nodes, es, order)) <==> Hub(es, x)
  {
    HubsForMeaning(|Children(es, p)| - 4);
    HubsAllIds(nodes, es, order);
    var h := HubsFor(|Children(es, p)| - 4);
    forall k: nat | 1 <= k ensures HubId(p, k) in Ids(HubsAll(nodes, es, order)) <==> k <= h {
      if k <= h {
        assert IsHub(es, HubId(p, k), p, k);
      }
      forall q, j: nat | q in order && IsHub(es, HubId(p, k), q, j) ensures k <= h {
        HubIdInjective(p, k, q, j);
      }
    }
  }

  /** Every hub is marked as one, so that no enemies are placed in it, and named after its parent. */
  lemma {:induction false} HubsAreMarked(nodes: seq<RawNode>, es: seq<RawEdge>, order: seq<string>, n: RawNode)
    requires forall p :: p in order ==> Wide(Children(es, p))
    requires n in HubsAll(nodes, es, order)
    ensures "hub" in n.meta && n.meta["hub"] == "true"
    ensures exists p, k: nat :: p in order && n.id == HubId(p, k) && "name" in n.meta
              && n.meta["name"] == ParentName(nodes, p) + " Corridor " + Decimal(k)
  {
    var m := |order| - 1;
    var p := order[m];
    assert p in order && Wide(Children(es, p));
    var before := HubsAll(nodes, es, order[..m]);
    var kids := Children(es, p)[MAX_CHILDREN - 1..];
    if n in before {
      HubsAreMarked(nodes, es, order[..m], n);
    } else {
      HubNodeMarked(p, ParentName(nodes, p), kids, 0, n);
    }
  }

  lemma {:induction false} HubNodeMarked(p: string, name: string, kids: seq<RawEdge>, k: nat, n: RawNode)
    requires n in HubNodes(p, name, kids, k)
    ensures exists j: nat :: n == HubNode(p, name, j)
    ensures exists j: nat :: n.id == HubId(p, j) && "name" in n.meta && n.meta["name"] == name + " Corridor " + Decimal(j)
    ensures "hub" in n.meta && n.meta["hub"] == "true"
    decreases |kids|
  {
    hide HubId, Decimal;
    if n == HubNode(p, name, k + 1) {
      assert n.id == HubId(p, k + 1);
    } else {
      HubNodeMarked(p, name, kids[Batch(|kids|)..], k + 1, n);
    }
  }

  /** Hub insertion yields distinct ids exactly when no hub id is taken. */
  lemma HubbedIdsDistinct(nodes: seq<RawNode>, es: seq<RawEdge>, order: seq<string>)
    requires WideOrder(es, order) && DistinctIds(nodes)
    ensures DistinctIds(HubbedNodes(nodes, es, order)) <==> !HubClash(nodes, es)
  {
    var hubs := HubsAll(nodes, es, order);
    HubsAllIds(nodes, es, order);
    if HubClash(nodes, es) {
      var n :| n in nodes && Hub(es, n.id);
      var p, k: nat :| IsHub(es, n.id, p, k);
      assert p in order && n.id in Ids(hubs);
      var i :| 0 <= i < |nodes| && nodes[i] == n;
      var h :| h in hubs && h.id == n.id;
      var j :| 0 <= j < |hubs| && hubs[j] == h;
      assert (nodes + hubs)[i].id == (nodes + hubs)[|nodes| + j].id;
    } else {
      assert forall x :: x in Ids(hubs) ==> Hub(es, x);
      DistinctConcat(nodes, hubs);
    }
  }

  // ---------- Contraction ----------

  /** The node a hub was split off from; every other node stands for itself. */
  ghost function Owner(es: seq<RawEdge>, x: string): string {
    if Hub(es, x) then (var p, k: nat :| IsHub(es, x, p, k); p) else x
  }

  lemma OwnerOfHub(es: seq<RawEdge>, p: string, k: nat)
    requires IsHub(es, HubId(p, k), p, k)
    ensures Owner(es, HubId(p, k)) == p
  {
    var x := HubId(p, k);
    assert Hub(es, x);
    var q, j: nat :| q == Owner(es, x) && IsHub(es, x, q, j);
    HubIdInjective(p, k, q, j);
  }

  /** `t` with every hub merged into its owner; merged links disappear. */
  ghost function Contract(es: seq<RawEdge>, t: seq<RawEdge>): seq<RawEdge> {
    if t == [] then []
    else
      var e := t[|t| - 1];
      var c := RawEdge(Owner(es, e.from), Owner(es, e.to), e.kind);
      Contract(es, t[..|t| - 1]) + if c.from == c.to then [] else [c]
  }

  lemma {:induction false} ContractConcat(es: seq<RawEdge>, a: seq<RawEdge>, b: seq<RawEdge>)
    ensures Contract(es, a + b) == Contract(es, a) + Contract(es, b)
  {
    hide Owner;
    if b == [] {
      assert a + b == a;
    } else {
      var init, e := b[..|b| - 1], b[|b| - 1];
      ContractConcat(es, a, init);
      assert b == init + [e] && a + b == a + init + [e];
      ContractSnoc(es, init, e);
      ContractSnoc(es, a + init, e);
    }
  }

  lemma {:induction false} ContractSnoc(es: seq<RawEdge>, t: seq<RawEdge>, e: RawEdge)
    ensures Contract(es, t + [e]) == Contract(es, t) + Contract(es, [e])
  {
    hide Owner;
    assert (t + [e])[..|t|] == t && [e][..0] == [];
  }

  /** Loop-free edges of `es` between nodes that are not hubs. */
  ghost predicate Plain(es: seq<RawEdge>, t: seq<RawEdge>) {
    forall e :: e in t ==> e in es && e.from != e.to && !Hub(es, e.from) && !Hub(es, e.to)
  }

  lemma {:induction false} ContractPlain(es: seq<RawEdge>, t: seq<RawEdge>)
    requires Plain(es, t)
    ensures Contract(es, t) == t
  {
    hide Contract, Plain;
    if t == [] {
      ContractNothing(es);
    } else {
      var init, e := t[..|t| - 1], t[|t| - 1];
      PlainSnoc(es, t);
      ContractPlain(es, init);
      ContractSnoc(es, init, e);
      assert t == init + [e];
    }
  }

  lemma ContractNothing(es: seq<RawEdge>)
    ensures Contract(es, []) == []
  {
  }

  lemma PlainSnoc(es: seq<RawEdge>, t: seq<RawEdge>)
    requires Plain(es, t) && t != []
    ensures Plain(es, t[..|t| - 1]) && Contract(es, [t[|t| - 1]]) == [t[|t| - 1]]
  {
    hide Hub;
    var e := t[|t| - 1];
    assert e in t;
    assert [e][..0] == [];
    PlainOwner(es, e);
  }

  lemma PlainOwner(es: seq<RawEdge>, e: RawEdge)
    requires !Hub(es, e.from) && !Hub(es, e.to)
    ensures Owner(es, e.from) == e.from && Owner(es, e.to) == e.to
  {
  }

  lemma {:induction false} ContractAttach(es: seq<RawEdge>, p: string, hub: string, batch: seq<RawEdge>)
    requires Owner(es, hub) == p && Plain(es, batch)
    requires forall e :: e in batch ==> e.from == p
    ensures Contract(es, Attach(hub, batch)) == batch
  {
    if batch != [] {
      var n := |batch| - 1;
      ContractAttach(es, p, hub, batch[..n]);
      assert Attach(hub, batch)[..n] == Attach(hub, batch[..n]);
      assert batch[n] in batch && batch == batch[..n] + [batch[n]];
    }
  }

  /** A link between two hubs of the same parent contracts to nothing. */
  lemma ContractLink(es: seq<RawEdge>, p: string, k: nat)
    requires Wide(Children(es, p)) && !Hub(es, p)
    requires k < HubsFor(|Children(es, p)| - (MAX_CHILDREN - 1))
    ensures Owner(es, HubId(p, k + 1)) == p
    ensures Contract(es, [RawEdge(Anchor(p, k), HubId(p, k + 1), "open")]) == []
  {
    assert IsHub(es, HubId(p, k + 1), p, k + 1);
    OwnerOfHub(es, p, k + 1);
    if k > 0 {
      assert IsHub(es, HubId(p, k), p, k);
      OwnerOfHub(es, p, k);
    }
    assert [RawEdge(Anchor(p, k), HubId(p, k + 1), "open")][..0] == [];
  }

  lemma PlainParts(es: seq<RawEdge>, t: seq<RawEdge>, n: nat)
    requires Plain(es, t) && n <= |t|
    ensures Plain(es, t[..n]) && Plain(es, t[n..])
  {
    hide Hub;
  }

  lemma {:induction false} ContractChain(es: seq<RawEdge>, p: string, kids: seq<RawEdge>, k: nat)
    requires Wide(Children(es, p)) && !Hub(es, p)
    requires k + HubsFor(|kids|) <= HubsFor(|Children(es, p)| - (MAX_CHILDREN - 1))
    requires Plain(es, kids) && forall e :: e in kids ==> e.from == p
    ensures Contract(es, Chain(p, kids, k)) == kids
    decreases |kids|
  {
    hide Contract, Attach, Owner, Hub, HubId, HubsFor, Plain;
    HubsForMeaning(|kids|);
    if kids == [] {
      ContractNothing(es);
    } else {
      var n := Batch(|kids|);
      var hub := HubId(p, k + 1);
      PlainParts(es, kids, n);
      var link := [RawEdge(Anchor(p, k), hub, "open")];
      ContractLink(es, p, k);
      ContractAttach(es, p, hub, kids[..n]);
      ContractChain(es, p, kids[n..], k + 1);
      ContractConcat(es, link + Attach(hub, kids[..n]), Chain(p, kids[n..], k + 1));
      ContractConcat(es, link, Attach(hub, kids[..n]));
      assert kids == kids[..n] + kids[n..];
    }
  }

  lemma ChildrenPlain(es: seq<RawEdge>, p: string)
    requires Plain(es, es)
    ensures Plain(es, Children(es, p)) && forall e :: e in Children(es, p) ==> e.from == p
    ensures Children(es, p) != [] ==> !Hub(es, p)
  {
    KeepMembers(es, FromIs(p));
    if Children(es, p) != [] {
      assert Children(es, p)[0] in es;
    }
  }

  lemma ContractSplit(es: seq<RawEdge>, p: string)
    requires Wide(Children(es, p)) && Plain(es, es)
    ensures Contract(es, Split(p, Children(es, p))) == Children(es, p)
  {
    var kids := Children(es, p);
    ChildrenPlain(es, p);
    ContractAttach(es, p, p, kids[..MAX_CHILDREN - 1]);
    ContractChain(es, p, kids[MAX_CHILDREN - 1..], 0);
    ContractConcat(es, Attach(p, kids[..MAX_CHILDREN - 1]), Chain(p, kids[MAX_CHILDREN - 1..], 0));
    assert kids == kids[..MAX_CHILDREN - 1] + kids[MAX_CHILDREN - 1..];
  }

  lemma {:induction false} ContractSplitAll(es: seq<RawEdge>, order: seq<string>)
    requires forall p :: p in order ==> Wide(Children(es, p))
    requires forall i, j :: 0 <= i < j < |order| ==> order[i] != order[j]
    requires Plain(es, es)
    ensures multiset(Contract(es, SplitAll(es, order))) + multiset(Keep(es, FromOutside(Members(order)))) == multiset(es)
  {
    hide Contract, Keep, Plain, Split, Wide;
    if order == [] {
      KeepAll(es, FromOutside(Members(order)));
      assert Contract(es, []) == [] by {
        assert Plain(es, []) by { PlainEmpty(es); }
        ContractPlain(es, []);
      }
    } else {
      var m := |order| - 1;
      var p := order[m];
      assert p in order && Wide(Children(es, p));
      ContractSplitAll(es, order[..m]);
      ContractSplit(es, p);
      ContractConcat(es, SplitAll(es, order[..m]), Split(p, Children(es, p)));
      SetAside(es, Members(order[..m]), p);
      assert Members(order) == Members(order[..m]) + {p};
      assert Children(es, p) == Keep(es, FromIs(p));
    }
  }

  lemma PlainEmpty(es: seq<RawEdge>)
    ensures Plain(es, [])
  {
  }

  /** Merging every hub back into its parent restores the original edges, kinds included. */
  lemma ContractionRestores(es: seq<RawEdge>, order: seq<string>)
    requires WideOrder(es, order) && Plain(es, es)
    ensures multiset(Contract(es, HubbedEdges(es, order))) == multiset(es)
  {
    var kept := Keep(es, FromOutside(Members(order)));
    KeepMembers(es, FromOutside(Members(order)));
    ContractPlain(es, kept);
    ContractConcat(es, kept, SplitAll(es, order));
    ContractSplitAll(es, order);
  }
}
