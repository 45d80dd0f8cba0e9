/** The edit distance behind the verb autocorrection: the row-by-row computation, the recursive
    definition, and the least number of one-byte edits are the same metric. A string's
    characters stand for its bytes. */
module EditDistance {

  function Min(a: nat, b: nat): nat { if a < b then a else b }

  function Init(s: string): string
    requires s != []
  {
    s[..|s| - 1]
  }

  function Last(s: string): char
    requires s != []
  {
    s[|s| - 1]
  }

  function Cost(x: char, y: char): nat { if x == y then 0 else 1 }

  /** The recursive definition. */
  function Distance(a: string, b: string): nat
    decreases |a| + |b|
  {
    if a == [] then |b|
    else if b == [] then |a|
    else Min(Distance(a, Init(b)) + 1,
             Min(Distance(Init(a), b) + 1, Distance(Init(a), Init(b)) + Cost(Last(a), Last(b))))
  }

  /** The first `n` cells of row `i` of the table: the distances from the first `i` bytes of `a`
      to the prefixes of `b`. */
  ghost predicate IsRow(row: seq<int>, a: string, i: nat, b: string, n: nat)
    requires i <= |a|
  {
    |row| == |b| + 1 && n <= |b| + 1 && forall j :: 0 <= j < n ==> row[j] == Distance(a[..i], b[..j])
  }

  method Levenshtein(a: string, b: string) returns (d: nat)
    ensures d == Distance(a, b)
  {
    if |a| == 0 {
      return |b|;
    }
    if |b| == 0 {
      return |a|;
    }
    var prev := new int[|b| + 1];
    for j := 0 to |b| + 1
      invariant forall k :: 0 <= k < j ==> prev[k] == k
    {
      prev[j] := j;
    }
    assert IsRow(prev[..], a, 0, b, |b| + 1);
    for i := 1 to |a| + 1
      invariant prev.Length == |b| + 1 && IsRow(prev[..], a, i - 1, b, |b| + 1)
    {
      prev := NextRow(prev, a, i, b);
    }
    assert a[..|a|] == a && b[..|b|] == b;
    return prev[|b|];
  }

  /** The inner loop: row `i` from row `i - 1`. */
  method NextRow(prev: array<int>, a: string, i: nat, b: string) returns (curr: array<int>)
    requires 1 <= i <= |a| && IsRow(prev[..], a, i - 1, b, |b| + 1)
    ensures fresh(curr) && IsRow(curr[..], a, i, b, |b| + 1)
  {
    hide Distance;
    curr := new int[|b| + 1];
    curr[0] := i;
    FirstCell(a, i, b);
    for j := 1 to |b| + 1
      invariant IsRow(curr[..], a, i, b, j)
    {
      Cell(a, i, b, j);
      assert prev[..][j] == Distance(a[..i - 1], b[..j]) && prev[..][j - 1] == Distance(a[..i - 1], b[..j - 1]);
      assert curr[..][j - 1] == Distance(a[..i], b[..j - 1]);
      var cost := 1;
      if a[i - 1] == b[j - 1] {
        cost := 0;
      }
      var ins := curr[j - 1] + 1;
      var del := prev[j] + 1;
      var sub := prev[j - 1] + cost;
      ghost var before := curr[..];
      curr[j] := Min(ins, Min(del, sub));
      assert curr[..] == before[j := Distance(a[..i], b[..j])];
    }
  }

  lemma FirstCell(a: string, i: nat, b: string)
    requires i <= |a|
    ensures Distance(a[..i], b[..0]) == i
  {
  }

  /** One cell of the table from its three neighbours. */
  lemma Cell(a: string, i: nat, b: string, j: nat)
    requires 1 <= i <= |a| && 1 <= j <= |b|
    ensures Distance(a[..i], b[..j])
         == Min(Distance(a[..i], b[..j - 1]) + 1,
                Min(Distance(a[..i - 1], b[..j]) + 1, Distance(a[..i - 1], b[..j - 1]) + Cost(a[i - 1], b[j - 1])))
  {
    assert Init(a[..i]) == a[..i - 1] && Init(b[..j]) == b[..j - 1];
  }

  // ---------- The distance is a metric ----------

  lemma {:induction false} DistanceZero(a: string, b: string)
    ensures Distance(a, b) == 0 <==> a == b
    decreases |a| + |b|
  {
    if a != [] && b != [] {
      DistanceZero(Init(a), Init(b));
      assert a == Init(a) + [Last(a)] && b == Init(b) + [Last(b)];
    }
  }

  lemma {:induction false} DistanceSymmetric(a: string, b: string)
    ensures Distance(a, b) == Distance(b, a)
    decreases |a| + |b|
  {
    if a != [] && b != [] {
      DistanceSymmetric(a, Init(b));
      DistanceSymmetric(Init(a), b);
      DistanceSymmetric(Init(a), Init(b));
    }
  }

  lemma {:induction false} LengthGap(a: string, b: string)
    ensures |a| <= |b| + Distance(a, b) && |b| <= |a| + Distance(a, b)
    ensures Distance(a, b) <= |a| + |b|
    decreases |a| + |b|
  {
    if a != [] && b != [] {
      LengthGap(a, Init(b));
      LengthGap(Init(a), b);
      LengthGap(Init(a), Init(b));
    }
  }

  /** The last cell of the table. */
  lemma {:induction false} LastStep(a: string, b: string)
    requires a != [] && b != []
    ensures Distance(a, b) == Min(Distance(a, Init(b)) + 1,
                                  Min(Distance(Init(a), b) + 1, Distance(Init(a), Init(b)) + Cost(Last(a), Last(b))))
  {}

  lemma {:induction false} Triangle(a: string, b: string, c: string)
    ensures Distance(a, c) <= Distance(a, b) + Distance(b, c)
    decreases |a| + |b| + |c|
  {
    if a == [] || b == [] || c == [] {
      LengthGap(a, b);
      LengthGap(b, c);
      LengthGap(a, c);
    } else {
      Triangle(Init(a), b, c);
      Triangle(a, b, Init(c));
      Triangle(a, Init(b), c);
      Triangle(a, Init(b), Init(c));
      Triangle(Init(a), Init(b), c);
      Triangle(Init(a), Init(b), Init(c));
      LastStep(a, b);
      LastStep(b, c);
      LastStep(a, c);
      hide Distance;
    }
  }

  // ---------- The distance counts edits ----------

  /** Byte `i` of `a` is left out of `b`. */
  ghost predicate Deletes(a: string, b: string, i: nat) {
    i < |a| && b == a[..i] + a[i + 1..]
  }

  /** Byte `i` of `a` is another one in `b`. */
  ghost predicate Replaces(a: string, b: string, i: nat) {
    i < |a| && |b| == |a| && a[i] != b[i] && b == a[..i] + [b[i]] + a[i + 1..]
  }

  /** `b` comes from `a` by deleting, inserting or replacing one byte. */
  ghost predicate OneEdit(a: string, b: string) {
    || (exists i: nat :: Deletes(a, b, i))
    || (exists i: nat :: Deletes(b, a, i))
    || (exists i: nat :: Replaces(a, b, i))
  }

  /** `path` leads from `a` to `b`, one edit at a time. */
  ghost predicate Edits(path: seq<string>, a: string, b: string) {
    && 0 < |path| && path[0] == a && path[|path| - 1] == b
    && forall i :: 0 <= i < |path| - 1 ==> OneEdit(path[i], path[i + 1])
  }

  lemma {:induction false} DistanceSelf(a: string)
    ensures Distance(a, a) == 0
  {
    DistanceZero(a, a);
  }

  lemma SameEnd(a: string, b: string, c: char)
    ensures Distance(a + [c], b + [c]) <= Distance(a, b)
  {
    assert Init(a + [c]) == a && Init(b + [c]) == b;
  }

  lemma LastDiffers(a: string, x: char, b: string, y: char)
    ensures Distance(a + [x], b + [y]) <= Distance(a, b) + 1
    ensures Distance(a + [x], b) <= Distance(a, b) + 1
  {
    assert Init(a + [x]) == a && Init(b + [y]) == b;
  }

  /** Everything after the edited place is shared. */
  lemma {:induction false} SharedEnd(a: string, b: string, t: string)
    ensures Distance(a + t, b + t) <= Distance(a, b)
    decreases |t|
  {
    if t == [] {
      assert a + t == a && b + t == b;
    } else {
      SharedEnd(a, b, Init(t));
      SameEnd(a + Init(t), b + Init(t), Last(t));
      assert a + t == a + Init(t) + [Last(t)] && b + t == b + Init(t) + [Last(t)];
    }
  }

  lemma DeletedOne(a: string, b: string, i: nat)
    requires Deletes(a, b, i)
    ensures Distance(a, b) <= 1
  {
    hide Distance;
    var x, y := a[..i], a[i + 1..];
    DistanceSelf(x);
    LastDiffers(x, a[i], x, a[i]);
    SharedEnd(x + [a[i]], x, y);
    assert a == x + [a[i]] + y;
  }

  lemma ReplacedOne(a: string, b: string, i: nat)
    requires Replaces(a, b, i)
    ensures Distance(a, b) <= 1
  {
    hide Distance;
    var x, y := a[..i], a[i + 1..];
    DistanceSelf(x);
    LastDiffers(x, a[i], x, b[i]);
    SharedEnd(x + [a[i]], x + [b[i]], y);
    assert a == x + [a[i]] + y;
  }

  lemma OneEditDistance(a: string, b: string)
    requires OneEdit(a, b)
    ensures Distance(a, b) <= 1
  {
    hide Distance, Deletes, Replaces;
    if i: nat :| Deletes(a, b, i) {
      DeletedOne(a, b, i);
    } else if i: nat :| Deletes(b, a, i) {
      DeletedOne(b, a, i);
      DistanceSymmetric(a, b);
    } else {
      var i: nat :| Replaces(a, b, i);
      ReplacedOne(a, b, i);
    }
  }

  lemma {:induction false} EditsTakeDistance(path: seq<string>, a: string, b: string)
    requires Edits(path, a, b)
    ensures Distance(a, b) <= |path| - 1
    decreases |path|
  {
    if |path| == 1 {
      DistanceSelf(a);
    } else {
      var m := |path| - 1;
      assert OneEdit(path[m - 1], path[m]);
      assert Edits(path[..m], a, path[m - 1]);
      EditsTakeDistance(path[..m], a, path[m - 1]);
      OneEditDistance(path[m - 1], b);
      Triangle(a, path[m - 1], b);
    }
  }

  lemma DeletesExtends(a: string, b: string, i: nat, c: char)
    requires Deletes(a, b, i)
    ensures Deletes(a + [c], b + [c], i)
  {
    assert b + [c] == (a + [c])[..i] + (a + [c])[i + 1..];
  }

  lemma ReplacesExtends(a: string, b: string, i: nat, c: char)
    requires Replaces(a, b, i)
    ensures Replaces(a + [c], b + [c], i)
  {
    assert b + [c] == (a + [c])[..i] + [(b + [c])[i]] + (a + [c])[i + 1..];
  }

  lemma OneEditExtends(a: string, b: string, c: char)
    requires OneEdit(a, b)
    ensures OneEdit(a + [c], b + [c])
  {
    hide Deletes, Replaces;
    if i: nat :| Deletes(a, b, i) {
      DeletesExtends(a, b, i, c);
    } else if i: nat :| Deletes(b, a, i) {
      DeletesExtends(b, a, i, c);
    } else {
      var i: nat :| Replaces(a, b, i);
      ReplacesExtends(a, b, i, c);
    }
  }

  /** Every string of a path with `c` appended. */
  function Appended(path: seq<string>, c: char): seq<string> {
    seq(|path|, i requires 0 <= i < |path| => path[i] + [c])
  }

  lemma EditsAppended(path: seq<string>, a: string, b: string, c: char)
    requires Edits(path, a, b)
    ensures Edits(Appended(path, c), a + [c], b + [c])
  {
    forall i | 0 <= i < |path| - 1 ensures OneEdit(Appended(path, c)[i], Appended(path, c)[i + 1]) {
      OneEditExtends(path[i], path[i + 1], c);
    }
  }

  lemma EditsSnoc(path: seq<string>, a: string, b: string, c: string)
    requires Edits(path, a, b) && OneEdit(b, c)
    ensures Edits(path + [c], a, c)
  {
  }

  lemma EditsCons(path: seq<string>, a: string, b: string, c: string)
    requires Edits(path, b, c) && OneEdit(a, b)
    ensures Edits([a] + path, a, c)
  {
  }

  lemma DropsLast(a: string)
    requires a != []
    ensures OneEdit(a, Init(a)) && OneEdit(Init(a), a)
  {
    assert Init(a) == a[..|a| - 1] + a[|a| - 1 + 1..];
    assert Deletes(a, Init(a), |a| - 1);
  }

  lemma ReplacesLast(a: string, x: char, y: char)
    requires x != y
    ensures OneEdit(a + [x], a + [y])
  {
    var s, t := a + [x], a + [y];
    assert t == s[..|a|] + [t[|a|]] + s[|a| + 1..];
    assert Replaces(s, t, |a|);
  }

  lemma {:induction false} DistanceSuffices(a: string, b: string) returns (path: seq<string>)
    ensures Edits(path, a, b) && |path| == Distance(a, b) + 1
    decreases |a| + |b|
  {
    hide OneEdit, Edits;
    if a == [] && b == [] {
      path := [a];
      assert Edits(path, a, b) by { StayPut(a); }
    } else if a == [] || (b != [] && Distance(a, b) == Distance(a, Init(b)) + 1) {
      var p := DistanceSuffices(a, Init(b));
      DropsLast(b);
      EditsSnoc(p, a, Init(b), b);
      path := p + [b];
    } else if b == [] || Distance(a, b) == Distance(Init(a), b) + 1 {
      var p := DistanceSuffices(Init(a), b);
      DropsLast(a);
      EditsCons(p, a, Init(a), b);
      path := [a] + p;
    } else {
      var p := DistanceSuffices(Init(a), Init(b));
      EditsAppended(p, Init(a), Init(b), Last(a));
      assert a == Init(a) + [Last(a)] && b == Init(b) + [Last(b)];
      path := Appended(p, Last(a));
      if Last(a) != Last(b) {
        ReplacesLast(Init(b), Last(a), Last(b));
        EditsSnoc(path, a, Init(b) + [Last(a)], b);
        path := path + [b];
      }
    }
  }

  lemma StayPut(a: string)
    ensures Edits([a], a, a)
  {
  }

  /** The distance is the least number of one-byte edits from `a` to `b`. */
  lemma DistanceIsLeastEdits(a: string, b: string)
    ensures exists path :: Edits(path, a, b) && |path| == Distance(a, b) + 1
    ensures forall path :: Edits(path, a, b) ==> Distance(a, b) + 1 <= |path|
  {
    var path := DistanceSuffices(a, b);
    forall path | Edits(path, a, b) ensures Distance(a, b) + 1 <= |path| {
      EditsTakeDistance(path, a, b);
    }
  }
}
