/** Sums, repetitions and multisets of sequences. */
module Collections {

  function Sum(xs: seq<int>): int {
    if xs == [] then 0 else xs[0] + Sum(xs[1..])
  }

  function Repeat(x: int, n: nat): (r: seq<int>)
    ensures |r| == n
  {
    seq(n, _ => x)
  }

  function Concat<T>(parts: seq<seq<T>>): seq<T> {
    if parts == [] then [] else Concat(parts[..|parts| - 1]) + parts[|parts| - 1]
  }

  lemma Without<T>(s: seq<T>, i: nat)
    requires i < |s|
    ensures multiset(s[..i] + s[i + 1..]) == multiset(s) - multiset{s[i]}
  {
    assert s == s[..i] + ([s[i]] + s[i + 1..]);
  }

  lemma PositionOf<T>(s: seq<T>, x: T) returns (i: nat)
    requires x in multiset(s)
    ensures i < |s| && s[i] == x
  {
    i :| 0 <= i < |s| && s[i] == x;
  }

  /** Cancels what two multisets have in common. */
  lemma Cancel<T>(was: multiset<T>, now: multiset<T>, before: multiset<T>, after: multiset<T>, more: multiset<T>)
    requires now + before == was + after && after == before + more
    ensures now == was + more
  {
    forall x: T ensures now[x] == (was + more)[x] {
      assert (now + before)[x] == (was + after)[x];
    }
  }
}
