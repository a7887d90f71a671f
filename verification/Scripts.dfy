/** Scripts of what may go wrong: one entry per attempt, true for a failure; once used up, nothing fails. */
module Scripts {

  function Fails(script: seq<bool>): bool {
    script != [] && script[0]
  }

  function Later(script: seq<bool>): seq<bool> {
    if script == [] then [] else script[1..]
  }

  /** Between `before` and `after` some attempts were made, each of which used up one entry. */
  ghost predicate Used(before: seq<bool>, after: seq<bool>) {
    |after| <= |before| && after == before[|before| - |after|..]
  }

  /** None of those attempts failed. */
  ghost predicate Clean(before: seq<bool>, after: seq<bool>)
    requires Used(before, after)
  {
    forall i | 0 <= i < |before| - |after| :: !before[i]
  }

  lemma CleanTwice(a: seq<bool>, b: seq<bool>, c: seq<bool>)
    requires Used(a, b) && Used(b, c)
    ensures Used(a, c) && (Clean(a, c) <==> Clean(a, b) && Clean(b, c))
  {
    var n := |a| - |b|;
    assert forall i | 0 <= i < |b| :: b[i] == a[n + i];
    if Clean(a, b) && Clean(b, c) {
      forall i | 0 <= i < |a| - |c| ensures !a[i] { assert i >= n ==> a[i] == b[i - n]; }
    }
    if Clean(a, c) {
      forall i | 0 <= i < |b| - |c| ensures !b[i] { assert b[i] == a[n + i]; }
    }
  }
}
