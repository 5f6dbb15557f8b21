/** Vectors of outstanding operations, and the two ways the servers take completed ones out. */
module Tokens {
  import opened Collections

  /** `Vec::swap_remove`: the last element takes the place of the removed one. */
  function SwapRemove<T>(v: seq<T>, i: nat): (r: seq<T>)
    requires i < |v|
    ensures |r| == |v| - 1
    ensures forall j :: 0 <= j < |r| ==> r[j] == if j == i then v[|v| - 1] else v[j]
  {
    v[i := v[|v| - 1]][..|v| - 1]
  }

  lemma SwapRemoveCounts<T>(v: seq<T>, i: nat)
    requires i < |v|
    ensures multiset(SwapRemove(v, i)) + multiset{v[i]} == multiset(v)
  {
    var last := v[|v| - 1];
    var u := v[i := last];
    assert multiset(u) == multiset(v) - multiset{v[i]} + multiset{last};
    assert u == SwapRemove(v, i) + [last];
  }

  /** Strictly ascending positions in a vector of length `n`, as reported for one batch of completions. */
  predicate Ascending(indices: seq<nat>, n: nat) {
    && (forall k :: 0 <= k < |indices| ==> indices[k] < n)
    && (forall j, k :: 0 <= j < k < |indices| ==> indices[j] < indices[k])
  }

  /** Pairwise different positions in a vector of length `n`, in any order. */
  predicate Distinct(indices: seq<nat>, n: nat) {
    && (forall k :: 0 <= k < |indices| ==> indices[k] < n)
    && (forall j, k :: 0 <= j < k < |indices| ==> indices[j] != indices[k])
  }

  function Picked<T>(v: seq<T>, indices: seq<nat>): (r: seq<T>)
    requires Distinct(indices, |v|)
    ensures |r| == |indices|
  {
    seq(|indices|, k requires 0 <= k < |indices| => v[indices[k]])
  }

  /** The vector without the given positions, in order. */
  function Filtered<T>(v: seq<T>, indices: seq<nat>): seq<T> {
    if v == [] then []
    else
      var n := |v| - 1;
      Filtered(v[..n], indices) + if n in indices then [] else [v[n]]
  }

  /** The batch loop of the servers: last completion first, its token swapped out, then the tokens
      pushed that its handler issues. */
  function ProcessReversed<T>(v: seq<T>, indices: seq<nat>, issued: seq<seq<T>>): seq<T>
    requires Ascending(indices, |v|) && |issued| == |indices|
    decreases |indices|
  {
    if indices == [] then v
    else
      var n := |indices| - 1;
      ProcessReversed(SwapRemove(v, indices[n]) + issued[n], indices[..n], issued[..n])
  }

  lemma {:induction false} FilteredCounts<T>(v: seq<T>, indices: seq<nat>)
    requires Distinct(indices, |v|)
    ensures multiset(Filtered(v, indices)) + multiset(Picked(v, indices)) == multiset(v)
    decreases |v|
  {
    if v == [] {
      FirstBelow(indices, 0);
    } else {
      var n := |v| - 1;
      if n in indices {
        var m :| 0 <= m < |indices| && indices[m] == n;
        PickedSplit(v, indices, m);
        FilteredCounts(v[..n], indices[..m] + indices[m + 1..]);
        LastPicked(v, indices, m);
      } else {
        FilteredCounts(v[..n], indices);
        LastKept(v, indices);
      }
    }
  }

  /** The positions below `n` that are not given, ascending. */
  function Kept(n: nat, indices: seq<nat>): (r: seq<nat>)
    ensures Ascending(r, n) && forall k :: k in r <==> 0 <= k < n && k !in indices
  {
    if n == 0 then [] else Kept(n - 1, indices) + if n - 1 in indices then [] else [n - 1]
  }

  lemma PickedBelow<T>(v: seq<T>, ks: seq<nat>, n: nat)
    requires n <= |v| && Ascending(ks, n)
    ensures Picked(v, ks) == Picked(v[..n], ks)
  {
  }

  lemma PickedOneMore<T>(v: seq<T>, ks: seq<nat>, n: nat)
    requires n < |v| && Ascending(ks, n)
    ensures Ascending(ks + [n], |v|) && Picked(v, ks + [n]) == Picked(v, ks) + [v[n]]
  {
  }

  /** Filtering keeps the tokens at the other positions, each once and in their order. */
  lemma {:induction false} FilteredKeepsOrder<T>(v: seq<T>, indices: seq<nat>)
    ensures Filtered(v, indices) == Picked(v, Kept(|v|, indices))
    decreases |v|
  {
    hide Picked;
    if v == [] {
      assert Picked(v, []) == [];
    } else {
      var n := |v| - 1;
      FilteredKeepsOrder(v[..n], indices);
      var ks := Kept(n, indices);
      PickedBelow(v, ks, n);
      if n in indices {
        assert Kept(|v|, indices) == ks && Filtered(v, indices) == Filtered(v[..n], indices);
      } else {
        PickedOneMore(v, ks, n);
        assert Kept(|v|, indices) == ks + [n];
      }
    }
  }

  lemma FirstBelow(indices: seq<nat>, n: nat)
    requires Distinct(indices, n)
    ensures indices == [] || indices[0] < n
  {
  }

  lemma FilteredLast<T>(v: seq<T>, indices: seq<nat>, m: nat)
    requires v != [] && m < |indices| && indices[m] == |v| - 1
    ensures Filtered(v, indices) == Filtered(v[..|v| - 1], indices[..m] + indices[m + 1..])
  {
    FilteredWithout(v[..|v| - 1], indices, m);
    assert |v| - 1 in indices;
  }

  lemma LastPicked<T>(v: seq<T>, indices: seq<nat>, m: nat)
    requires v != [] && Distinct(indices, |v|) && m < |indices| && indices[m] == |v| - 1
    requires var u, rest := v[..|v| - 1], indices[..m] + indices[m + 1..];
             Distinct(rest, |u|) && multiset(Filtered(u, rest)) + multiset(Picked(u, rest)) == multiset(u)
    ensures multiset(Filtered(v, indices)) + multiset(Picked(v, indices)) == multiset(v)
  {
    hide Filtered;
    hide Picked;
    hide Distinct;
    var u, x, rest := v[..|v| - 1], v[|v| - 1], indices[..m] + indices[m + 1..];
    PickedSplit(v, indices, m);
    FilteredLast(v, indices, m);
    assert multiset(v) == multiset(u) + multiset{x} by { assert v == u + [x]; }
    Regroup(multiset(Filtered(u, rest)), multiset(Picked(u, rest)), multiset{x});
  }

  lemma LastKept<T>(v: seq<T>, indices: seq<nat>)
    requires v != [] && Distinct(indices, |v|) && |v| - 1 !in indices && Distinct(indices, |v| - 1)
    requires var u := v[..|v| - 1]; multiset(Filtered(u, indices)) + multiset(Picked(u, indices)) == multiset(u)
    ensures multiset(Filtered(v, indices)) + multiset(Picked(v, indices)) == multiset(v)
  {
    var u, x := v[..|v| - 1], v[|v| - 1];
    assert multiset(v) == multiset(u) + multiset{x} by { assert v == u + [x]; }
    assert Picked(v, indices) == Picked(u, indices);
  }

  lemma Regroup<T>(a: multiset<T>, b: multiset<T>, c: multiset<T>)
    ensures a + (b + c) == (a + b) + c
  {
  }

  lemma PickedSplit<T>(v: seq<T>, indices: seq<nat>, m: nat)
    requires v != [] && Distinct(indices, |v|) && m < |indices| && indices[m] == |v| - 1
    ensures Distinct(indices[..m] + indices[m + 1..], |v| - 1)
    ensures multiset(Picked(v, indices))
         == multiset(Picked(v[..|v| - 1], indices[..m] + indices[m + 1..])) + multiset{v[|v| - 1]}
  {
    var rest := indices[..m] + indices[m + 1..];
    var p, x := Picked(v[..|v| - 1], rest), v[|v| - 1];
    assert Picked(v, indices) == p[..m] + ([x] + p[m..]);
    assert multiset(p) == multiset(p[..m]) + multiset(p[m..]) by { assert p == p[..m] + p[m..]; }
  }

  lemma {:induction false} FilteredWithout<T>(v: seq<T>, indices: seq<nat>, m: nat)
    requires m < |indices| && |v| <= indices[m]
    ensures Filtered(v, indices) == Filtered(v, indices[..m] + indices[m + 1..])
  {
    if v != [] {
      FilteredWithout(v[..|v| - 1], indices, m);
      assert indices == indices[..m] + [indices[m]] + indices[m + 1..];
    }
  }

  lemma PickedPrefix<T>(v: seq<T>, u: seq<T>, indices: seq<nat>, m: nat)
    requires Ascending(indices, |v|) && m == |indices| - 1
    requires indices[m] <= |u| && forall j :: 0 <= j < indices[m] ==> u[j] == v[j]
    ensures Ascending(indices[..m], |u|)
    ensures Picked(v, indices) == Picked(u, indices[..m]) + [v[indices[m]]]
    ensures multiset(Picked(v, indices)) == multiset(Picked(u, indices[..m])) + multiset{v[indices[m]]}
  {
    assert Picked(v, indices) == Picked(u, indices[..m]) + [v[indices[m]]];
  }

  lemma Balance<T>(out: multiset<T>, picked: multiset<T>, u: multiset<T>, cat: multiset<T>,
                   v: multiset<T>, rest: multiset<T>, x: multiset<T>, more: multiset<T>)
    requires out + picked == u + cat && u == rest + more && rest + x == v
    ensures out + (picked + x) == v + (cat + more)
  {
    assert out + (picked + x) == (out + picked) + x;
  }

  lemma {:induction false} RemovalConserves<T>(v: seq<T>, indices: seq<nat>, issued: seq<seq<T>>)
    requires Ascending(indices, |v|) && |issued| == |indices|
    ensures multiset(ProcessReversed(v, indices, issued)) + multiset(Picked(v, indices)) == multiset(v) + multiset(Concat(issued))
    decreases |indices|
  {
    if indices == [] {
      assert Picked(v, indices) == [] && Concat(issued) == [];
    } else {
      var n := |indices| - 1;
      var rest := SwapRemove(v, indices[n]);
      var u := rest + issued[n];
      SwapRemoveCounts(v, indices[n]);
      PickedPrefix(v, u, indices, n);
      RemovalConserves(u, indices[..n], issued[..n]);
      Balance(multiset(ProcessReversed(u, indices[..n], issued[..n])), multiset(Picked(u, indices[..n])), multiset(u),
              multiset(Concat(issued[..n])), multiset(v), multiset(rest), multiset{v[indices[n]]}, multiset(issued[n]));
    }
  }

  /** Taking a batch out by reversed swap-removal, while handlers push new tokens in between, removes
      exactly the completed tokens: what remains is the vector filtered by position, and what was issued. */
  lemma ReversedRemovalIsFilter<T>(v: seq<T>, indices: seq<nat>, issued: seq<seq<T>>)
    requires Ascending(indices, |v|) && |issued| == |indices|
    ensures multiset(ProcessReversed(v, indices, issued)) + multiset(Picked(v, indices)) == multiset(v) + multiset(Concat(issued))
    ensures multiset(ProcessReversed(v, indices, issued)) == multiset(Filtered(v, indices)) + multiset(Concat(issued))
  {
    FilteredCounts(v, indices);
    RemovalConserves(v, indices, issued);
    var out, kept, picked := multiset(ProcessReversed(v, indices, issued)), multiset(Filtered(v, indices)), multiset(Picked(v, indices));
    assert kept + (picked + multiset(Concat(issued))) == (kept + picked) + multiset(Concat(issued));
    Cancel(kept, out, picked, picked + multiset(Concat(issued)), multiset(Concat(issued)));
  }
}
