/** A directory with ten subdirectories: the smallest tree whose hubs overflow the six slots. */
module WideStar {
  import opened Paths
  import opened AssignDirections
  import opened EdgeLists
  import opened InsertHubs
  import opened HubTheorems
  import opened HubTrees
  import opened HubDegrees

  const ROOT: string := "r"
  const KIDS: seq<string> := ["a", "b", "c", "d", "e", "f", "g", "h", "i", "j"]

  function StarNodes(root: string, kids: seq<string>): seq<RawNode> {
    [RawNode(root, map[])] + seq(|kids|, i requires 0 <= i < |kids| => RawNode(kids[i], map[]))
  }

  function StarEdges(root: string, kids: seq<string>): seq<RawEdge> {
    seq(|kids|, i requires 0 <= i < |kids| => RawEdge(root, kids[i], "open"))
  }

  lemma {:induction false} StarInDegree(root: string, kids: seq<string>, v: string)
    requires forall i, j :: 0 <= i < j < |kids| ==> kids[i] != kids[j]
    ensures InDegree(StarEdges(root, kids), v) == if v in kids then 1 else 0
  {
    if kids != [] {
      var n := |kids| - 1;
      StarInDegree(root, kids[..n], v);
      assert StarEdges(root, kids)[..n] == StarEdges(root, kids[..n]);
      assert kids == kids[..n] + [kids[n]];
      if v == kids[n] {
        assert v !in kids[..n];
      }
    }
  }

  lemma StarIsTree(root: string, kids: seq<string>)
    requires forall i, j :: 0 <= i < j < |kids| ==> kids[i] != kids[j]
    requires root !in kids
    ensures IsTree(StarNodes(root, kids), StarEdges(root, kids), root)
    ensures Ids(StarNodes(root, kids)) == {root} + set k | k in kids
  {
    var nodes, es := StarNodes(root, kids), StarEdges(root, kids);
    assert nodes[0].id == root;
    forall k | k in kids ensures k in Ids(nodes) {
      var i :| 0 <= i < |kids| && kids[i] == k;
      assert nodes[i + 1].id == k;
    }
    forall v | v in Ids(nodes) ensures InDegree(es, v) == (if v == root then 0 else 1) && Reaches(RawLinks(es), root, v) {
      StarInDegree(root, kids, v);
      if v == root {
        assert IsWalk(RawLinks(es), [root], root, root);
      } else {
        var i :| 0 <= i < |kids| && kids[i] == v;
        assert RawLinks(es)[i] == (root, v);
        assert IsWalk(RawLinks(es), [root, v], root, v);
      }
    }
  }

  lemma ShortIdsAreNoHubs(nodes: seq<RawNode>, es: seq<RawEdge>)
    requires forall n :: n in nodes ==> |n.id| == 1
    ensures !HubClash(nodes, es)
  {
    forall n | n in nodes ensures !Hub(es, n.id) {
      forall p, k: nat ensures n.id != HubId(p, k) {
        assert |HubId(p, k)| >= 5;
      }
    }
  }

  /** Ten children are one too many: this tree has no hub clash, yet its first hub needs seven slots. */
  lemma TenChildrenOverflow(order: seq<string>)
    requires WideOrder(StarEdges(ROOT, KIDS), order)
    ensures IsTree(StarNodes(ROOT, KIDS), StarEdges(ROOT, KIDS), ROOT)
    ensures !HubClash(StarNodes(ROOT, KIDS), StarEdges(ROOT, KIDS))
    ensures |Children(StarEdges(ROOT, KIDS), ROOT)| == 10
    ensures 7 <= RawDegree(HubbedEdges(StarEdges(ROOT, KIDS), order), HubId(ROOT, 1))
  {
    hide IsTree, Hub, Keep, RawDegree;
    var nodes, es := StarNodes(ROOT, KIDS), StarEdges(ROOT, KIDS);
    StarIsTree(ROOT, KIDS);
    KeepAll(es, FromIs(ROOT));
    forall n | n in nodes ensures |n.id| == 1 {
      assert n.id in Ids(nodes);
    }
    ShortIdsAreNoHubs(nodes, es);
    hide *;
    TooWideAFan(nodes, es, order, ROOT, ROOT);
  }
}
