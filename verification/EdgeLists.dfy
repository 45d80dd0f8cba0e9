/** Selecting and counting the raw edges of a topology. */
module EdgeLists {
  import opened AssignDirections

  function Keep(es: seq<RawEdge>, f: RawEdge -> bool): seq<RawEdge> {
    if es == [] then []
    else Keep(es[..|es| - 1], f) + if f(es[|es| - 1]) then [es[|es| - 1]] else []
  }

  function FromIs(p: string): RawEdge -> bool { (e: RawEdge) => e.from == p }

  function ToIs(v: string): RawEdge -> bool { (e: RawEdge) => e.to == v }

  function FromOutside(s: set<string>): RawEdge -> bool { (e: RawEdge) => e.from !in s }

  function Children(es: seq<RawEdge>, p: string): seq<RawEdge> { Keep(es, FromIs(p)) }

  function OutDegree(es: seq<RawEdge>, v: string): nat { |Keep(es, FromIs(v))| }

  function InDegree(es: seq<RawEdge>, v: string): nat { |Keep(es, ToIs(v))| }

  lemma {:induction false} KeepMembers(es: seq<RawEdge>, f: RawEdge -> bool)
    ensures forall e :: e in Keep(es, f) <==> e in es && f(e)
  {
    if es != [] {
      KeepMembers(es[..|es| - 1], f);
      assert es == es[..|es| - 1] + [es[|es| - 1]];
    }
  }

  lemma {:induction false} KeepConcat(a: seq<RawEdge>, b: seq<RawEdge>, f: RawEdge -> bool)
    ensures Keep(a + b, f) == Keep(a, f) + Keep(b, f)
  {
    if b == [] {
      assert a + b == a;
    } else {
      KeepConcat(a, b[..|b| - 1], f);
      assert (a + b)[..|a + b| - 1] == a + b[..|b| - 1];
    }
  }

  lemma {:induction false} KeepNone(es: seq<RawEdge>, f: RawEdge -> bool)
    requires forall e :: e in es ==> !f(e)
    ensures Keep(es, f) == []
  {
    if es != [] {
      KeepNone(es[..|es| - 1], f);
    }
  }

  lemma {:induction false} KeepAll(es: seq<RawEdge>, f: RawEdge -> bool)
    requires forall e :: e in es ==> f(e)
    ensures Keep(es, f) == es
  {
    if es != [] {
      KeepAll(es[..|es| - 1], f);
      assert es == es[..|es| - 1] + [es[|es| - 1]];
    }
  }

  lemma KeepMiddle(x: seq<RawEdge>, e: RawEdge, y: seq<RawEdge>, f: RawEdge -> bool)
    ensures |Keep(x + [e] + y, f)| == |Keep(x + y, f)| + if f(e) then 1 else 0
  {
    KeepConcat(x + [e], y, f);
    KeepConcat(x, [e], f);
    KeepConcat(x, y, f);
  }

  lemma Occurrence(b: seq<RawEdge>, e: RawEdge) returns (x: seq<RawEdge>, y: seq<RawEdge>)
    requires e in multiset(b)
    ensures b == x + [e] + y && multiset(b) == multiset(x + y) + multiset{e}
  {
    var i :| 0 <= i < |b| && b[i] == e;
    x, y := b[..i], b[i + 1..];
    assert b == x + [e] + y;
  }

  lemma CancelOne(a: multiset<RawEdge>, b: multiset<RawEdge>, e: RawEdge)
    requires a + multiset{e} == b + multiset{e}
    ensures a == b
  {
    assert a == (a + multiset{e}) - multiset{e};
    assert b == (b + multiset{e}) - multiset{e};
  }

  lemma {:induction false} KeepPermuted(a: seq<RawEdge>, b: seq<RawEdge>, f: RawEdge -> bool)
    requires multiset(a) == multiset(b)
    ensures |Keep(a, f)| == |Keep(b, f)|
  {
    hide Keep;
    if a == [] {
      assert |multiset(b)| == 0;
      assert a == b;
    } else {
      var a', e := a[..|a| - 1], a[|a| - 1];
      assert a == a' + [e] && multiset(a) == multiset(a') + multiset{e};
      var x, y := Occurrence(b, e);
      CancelOne(multiset(a'), multiset(x + y), e);
      KeepPermuted(a', x + y, f);
      KeepMiddle(x, e, y, f);
      KeepMiddle(a', e, [], f);
      assert a' + [e] + [] == a && a' + [] == a';
    }
  }

  lemma {:induction false} DegreeSplits(es: seq<RawEdge>, v: string)
    requires forall e :: e in es ==> e.from != e.to
    ensures RawDegree(es, v) == OutDegree(es, v) + InDegree(es, v)
  {
    if es != [] {
      DegreeSplits(es[..|es| - 1], v);
    }
  }

  /** Setting one parent's edges aside. */
  lemma {:induction false} SetAside(es: seq<RawEdge>, s: set<string>, p: string)
    requires p !in s
    ensures multiset(Keep(es, FromOutside(s)))
         == multiset(Keep(es, FromOutside(s + {p}))) + multiset(Keep(es, FromIs(p)))
  {
    if es != [] {
      SetAside(es[..|es| - 1], s, p);
    }
  }

  /** The edges into `v` when there is exactly one. */
  lemma UniqueInEdge(es: seq<RawEdge>, v: string, e: RawEdge, f: RawEdge)
    requires InDegree(es, v) <= 1
    requires e in es && f in es && e.to == v && f.to == v
    ensures e == f
  {
    KeepMembers(es, ToIs(v));
    var i :| 0 <= i < |Keep(es, ToIs(v))| && Keep(es, ToIs(v))[i] == e;
    var j :| 0 <= j < |Keep(es, ToIs(v))| && Keep(es, ToIs(v))[j] == f;
  }
}
