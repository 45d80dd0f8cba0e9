/** Correcting a mistyped verb to the nearest known one. */
module Autocorrect {
  import opened EditDistance

  const KNOWN: seq<string> := [
    "go", "look", "examine", "take", "get", "grab", "pick", "drop",
    "equip", "wear", "wield", "unequip", "remove", "use", "drink", "eat",
    "attack", "hit", "strike", "kill", "defend", "block", "guard",
    "cast", "flee", "run", "escape", "inventory", "save", "load",
    "help", "quit", "exit"]

  /** The index of the first verb at distance `d` from `verb`, or -1. */
  function FirstAt(verb: string, verbs: seq<string>, d: nat): (r: int)
    ensures -1 <= r < |verbs|
    ensures r >= 0 ==> Distance(verb, verbs[r]) == d && forall j :: 0 <= j < r ==> Distance(verb, verbs[j]) != d
    ensures r < 0 ==> forall j :: 0 <= j < |verbs| ==> Distance(verb, verbs[j]) != d
  {
    if verbs == [] then -1
    else if Distance(verb, verbs[0]) == d then 0
    else var r := FirstAt(verb, verbs[1..], d); if r < 0 then -1 else r + 1
  }

  /** Short and known verbs stay; any other becomes the first known verb one edit away, if there is one. */
  function Corrected(verb: string, verbs: seq<string>): string {
    if |verb| < 3 || verb in verbs then verb
    else
      var i := FirstAt(verb, verbs, 1);
      if i >= 0 then verbs[i] else verb
  }

  /** The search for the nearest verb. */
  method CorrectAmong(verb: string, verbs: seq<string>) returns (r: string)
    ensures r == Corrected(verb, verbs)
  {
    if |verb| < 3 {
      return verb;
    }
    var best, bestDist := "", 2;
    for i := 0 to |verbs|
      invariant 0 <= bestDist <= 2 && (best == "" <==> bestDist == 2)
      invariant bestDist == 0 ==> best == verb && verb in verbs
      invariant 0 < bestDist ==> verb !in verbs[..i]
      invariant bestDist == 1 ==> exists k :: 0 <= k < i && best == verbs[k] && FirstAt(verb, verbs, 1) == k
      invariant bestDist == 2 ==> forall j :: 0 <= j < i ==> Distance(verb, verbs[j]) != 1
    {
      var known := verbs[i];
      var d := Levenshtein(verb, known);
      DistanceZero(verb, known);
      LengthGap(verb, known);
      if d < bestDist {
        bestDist := d;
        best := known;
      }
    }
    assert verbs[..|verbs|] == verbs;
    if best != "" {
      return best;
    }
    return verb;
  }

  method Correct(verb: string) returns (r: string)
    ensures r == Corrected(verb, KNOWN)
  {
    r := CorrectAmong(verb, KNOWN);
  }

  /** Known verbs are never touched, a correction is known and one edit away, a verb is left
      alone only if none is, and correcting twice is correcting once. */
  lemma CorrectedProperties(verb: string, verbs: seq<string>)
    ensures verb in verbs ==> Corrected(verb, verbs) == verb
    ensures Corrected(verb, verbs) != verb ==>
      Corrected(verb, verbs) in verbs && Distance(verb, Corrected(verb, verbs)) == 1 && 3 <= |verb|
    ensures Corrected(verb, verbs) == verb && 3 <= |verb| && verb !in verbs ==> forall k :: k in verbs ==> 2 <= Distance(verb, k)
    ensures Corrected(Corrected(verb, verbs), verbs) == Corrected(verb, verbs)
  {
    forall k | k in verbs ensures Distance(verb, k) == 0 <==> k == verb {
      DistanceZero(verb, k);
    }
  }
}
