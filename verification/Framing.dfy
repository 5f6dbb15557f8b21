/** Cutting a byte stream into requests at the header terminator CR LF CR LF
    (section 2.1 of RFC 9112), the way the three servers do it. */
module Framing {
  import opened Bytes

  const DELIMITER: seq<byte> := [13, 10, 13, 10]

  predicate OccursAt(haystack: seq<byte>, needle: seq<byte>, i: int) {
    0 <= i && i + |needle| <= |haystack| && haystack[i..i + |needle|] == needle
  }

  /** The scan over windows, from position `i` on. */
  function FindFrom(haystack: seq<byte>, needle: seq<byte>, i: nat): (r: Option<nat>)
    requires i <= |haystack| && needle != []
    ensures r.Some? ==> i <= r.value && OccursAt(haystack, needle, r.value)
    ensures forall j :: i <= j < |haystack| && (r.Some? ==> j < r.value) ==> !OccursAt(haystack, needle, j)
    decreases |haystack| - i
  {
    if i + |needle| > |haystack| then None
    else if haystack[i..i + |needle|] == needle then Some(i)
    else FindFrom(haystack, needle, i + 1)
  }

  /** `find_subsequence`: the first window equal to the needle. */
  function FindSubsequence(haystack: seq<byte>, needle: seq<byte>): (r: Option<nat>)
    requires needle != []
    ensures r.Some? ==> OccursAt(haystack, needle, r.value)
    ensures forall j :: 0 <= j < |haystack| && (r.Some? ==> j < r.value) ==> !OccursAt(haystack, needle, j)
  {
    FindFrom(haystack, needle, 0)
  }

  /** The greedy split: every complete request of the stream, in order. */
  function Frames(s: seq<byte>): seq<seq<byte>>
    decreases |s|
  {
    match FindSubsequence(s, DELIMITER)
    case None => []
    case Some(i) => [s[..i + 4]] + Frames(s[i + 4..])
  }

  /** What the greedy split leaves over: the unfinished request. */
  function Rest(s: seq<byte>): seq<byte>
    decreases |s|
  {
    match FindSubsequence(s, DELIMITER)
    case None => s
    case Some(i) => Rest(s[i + 4..])
  }

  /** One complete request: the terminator occurs, and for the first time at the very end. */
  predicate IsFrame(f: seq<byte>) {
    |f| >= 4 && OccursAt(f, DELIMITER, |f| - 4) && forall j :: 0 <= j < |f| - 4 ==> !OccursAt(f, DELIMITER, j)
  }

  predicate AllFrames(fs: seq<seq<byte>>) {
    forall k :: 0 <= k < |fs| ==> IsFrame(fs[k])
  }

  /** No complete request. */
  predicate Unfinished(r: seq<byte>) {
    forall j :: 0 <= j < |r| ==> !OccursAt(r, DELIMITER, j)
  }

  lemma FrameFirst(f: seq<byte>, s: seq<byte>)
    requires IsFrame(f)
    ensures FindSubsequence(f + s, DELIMITER) == Some(|f| - 4)
    ensures Frames(f + s) == [f] + Frames(s) && Rest(f + s) == Rest(s)
  {
    var t := f + s;
    assert OccursAt(t, DELIMITER, |f| - 4) by { assert t[|f| - 4..|f|] == f[|f| - 4..]; }
    forall j | 0 <= j < |f| - 4 ensures !OccursAt(t, DELIMITER, j) {
      assert t[j..j + 4] == f[j..j + 4];
      assert !OccursAt(f, DELIMITER, j);
    }
    assert t[..|f|] == f && t[|f|..] == s;
  }

  lemma FirstCutIsFrame(s: seq<byte>, i: nat)
    requires FindSubsequence(s, DELIMITER) == Some(i)
    ensures IsFrame(s[..i + 4])
  {
    var f := s[..i + 4];
    assert f[i..i + 4] == s[i..i + 4];
    forall j | 0 <= j < |f| - 4 ensures !OccursAt(f, DELIMITER, j) {
      assert f[j..j + 4] == s[j..j + 4];
      assert !OccursAt(s, DELIMITER, j);
    }
  }

  /** The split loses no byte, every piece is a complete request, the rest holds none. */
  lemma {:induction false} SplitSound(s: seq<byte>)
    ensures Flatten(Frames(s)) + Rest(s) == s
    ensures AllFrames(Frames(s))
    ensures Unfinished(Rest(s))
    decreases |s|
  {
    match FindSubsequence(s, DELIMITER)
    case None =>
    case Some(i) =>
      var f, t := s[..i + 4], s[i + 4..];
      FirstCutIsFrame(s, i);
      SplitSound(t);
      FlattenCons(f, Frames(t));
      Assoc(f, Flatten(Frames(t)), Rest(t));
      CutAt(s, i + 4);
  }

  lemma CutAt(s: seq<byte>, k: nat)
    requires k <= |s|
    ensures s[..k] + s[k..] == s
  {
  }

  lemma {:induction false} SplitComplete(fs: seq<seq<byte>>, r: seq<byte>)
    requires AllFrames(fs) && Unfinished(r)
    ensures Frames(Flatten(fs) + r) == fs && Rest(Flatten(fs) + r) == r
  {
    if fs == [] {
      assert Flatten(fs) + r == r;
      UnfinishedSplit(r);
    } else {
      var f, t := fs[0], Flatten(fs[1..]) + r;
      assert IsFrame(f) && AllFrames(fs[1..]);
      SplitComplete(fs[1..], r);
      FrameFirst(f, t);
      Assoc(f, Flatten(fs[1..]), r);
    }
  }

  /** The greedy split is the only decomposition of a stream into complete requests and an unfinished rest. */
  lemma SplitIsUnique(s: seq<byte>, fs: seq<seq<byte>>, r: seq<byte>)
    ensures (fs == Frames(s) && r == Rest(s))
       <==> (s == Flatten(fs) + r && AllFrames(fs) && Unfinished(r))
  {
    SplitSound(s);
    if s == Flatten(fs) + r && AllFrames(fs) && Unfinished(r) {
      SplitComplete(fs, r);
    }
  }

  /** Splitting is a homomorphism: a stream may be cut anywhere and resumed from the unfinished rest. */
  lemma SplitAppend(a: seq<byte>, b: seq<byte>)
    ensures Frames(a + b) == Frames(a) + Frames(Rest(a) + b)
    ensures Rest(a + b) == Rest(Rest(a) + b)
  {
    SplitSound(a);
    SplitSound(Rest(a) + b);
    Rejoin(a, b, Frames(a), Rest(a), Frames(Rest(a) + b), Rest(Rest(a) + b));
    SplitIsUnique(a + b, Frames(a) + Frames(Rest(a) + b), Rest(Rest(a) + b));
  }

  lemma Rejoin(a: seq<byte>, b: seq<byte>, fs: seq<seq<byte>>, r: seq<byte>, gs: seq<seq<byte>>, t: seq<byte>)
    requires a == Flatten(fs) + r && r + b == Flatten(gs) + t
    ensures a + b == Flatten(fs + gs) + t
  {
    FlattenAppend(fs, gs);
    calc {
      a + b;
      Flatten(fs) + (r + b);
      Flatten(fs) + (Flatten(gs) + t);
      (Flatten(fs) + Flatten(gs)) + t;
    }
  }

  lemma UnfinishedSplit(r: seq<byte>)
    requires Unfinished(r)
    ensures Frames(r) == [] && Rest(r) == r
  {
    assert FindSubsequence(r, DELIMITER) == None;
  }

  lemma FrameSplit(f: seq<byte>)
    requires IsFrame(f)
    ensures Frames(f) == [f] && Rest(f) == []
  {
    FrameFirst(f, []);
    assert f + [] == f;
  }
}
