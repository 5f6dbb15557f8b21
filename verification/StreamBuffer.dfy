/** The fixed-size head/tail buffer of one connection and the routine that feeds it
    (`Buffer` and `push_data_and_run`; the proxies carry copies under the name `AppBuffer`). */
module StreamBuffer {
  import opened Bytes
  import opened Framing

  const BUFSZ: nat := 4096

  /** What a buffer holds: its write position, and the unread bytes in front of it. */
  datatype BufState = BufState(head: nat, data: seq<byte>) {
    /** Between two calls: in range, and rewound whenever nothing is unread. */
    predicate Settled() {
      |data| <= head <= BUFSZ && (data == [] ==> head == 0)
    }
  }

  const EMPTY_BUFFER: BufState := BufState(0, [])

  /** `usize` subtraction in a build without overflow checks. */
  function WrappingSub(a: nat, b: nat): int {
    if a >= b then a - b else a - b + TWO_64
  }

  /** The test that guards the path without a copy. */
  predicate FastPath(data: seq<byte>) {
    var found := FindSubsequence(data, DELIMITER);
    (if found.Some? then found.value else |data|) == WrappingSub(|data|, 4)
  }

  /** The guard admits exactly the chunks that are one complete request, however short the chunk. */
  lemma FastPathIff(data: seq<byte>)
    ensures FastPath(data) <==> IsFrame(data)
  {
    if IsFrame(data) {
      FrameFirst(data, []);
      assert data + [] == data;
    }
  }

  /** Write position after a chunk went through the copying path. The unread bytes move to the
      front only when a request was cut out of a buffer filled to its very last byte. */
  function HeadAfter(s: BufState, chunk: seq<byte>): nat
    requires |s.data| <= s.head
  {
    var all := s.data + chunk;
    if Rest(all) == [] then 0
    else if Frames(all) == [] || s.head + |chunk| < BUFSZ then s.head + |chunk|
    else CutFits(all); |all| - |Frames(all)[0]|
  }

  /** The copying path; `None` is a panic. */
  function SlowStep(s: BufState, chunk: seq<byte>): (r: Option<(BufState, seq<seq<byte>>)>)
    requires |s.data| <= s.head
  {
    if s.head + |chunk| > BUFSZ then None
    else Some((BufState(HeadAfter(s, chunk), Rest(s.data + chunk)), Frames(s.data + chunk)))
  }

  /** One received chunk: the new buffer and the requests answered, in order; `None` is a panic. */
  function PushStep(s: BufState, chunk: seq<byte>): (r: Option<(BufState, seq<seq<byte>>)>)
    requires |s.data| <= s.head
  {
    if s.data == [] && FastPath(chunk) then Some((s, [chunk])) else SlowStep(s, chunk)
  }

  /** The path without a copy answers and leaves behind what the copying path would. */
  lemma FastPathRefinesSlowPath(s: BufState, chunk: seq<byte>)
    requires s.Settled() && s.data == [] && FastPath(chunk) && |chunk| <= BUFSZ
    ensures SlowStep(s, chunk) == Some((s, [chunk]))
  {
    FastPathIff(chunk);
    FrameSplit(chunk);
    assert s.data + chunk == chunk;
  }

  lemma CutFits(all: seq<byte>)
    ensures |Rest(all)| <= |all|
    ensures Frames(all) == [] ==> Rest(all) == all
    ensures Frames(all) != [] ==> |Frames(all)[0]| >= 4 && |Rest(all)| + |Frames(all)[0]| <= |all|
  {
    SplitSound(all);
    if Frames(all) != [] {
      assert IsFrame(Frames(all)[0]);
      assert Flatten(Frames(all)) == Frames(all)[0] + Flatten(Frames(all)[1..]);
    }
  }

  /** Whatever arrives, an accepted chunk yields the greedy split of the unread bytes followed by the
      chunk, and leaves a settled buffer; it is refused exactly when it is copied and does not fit. */
  lemma PushStepIsGreedySplit(s: BufState, chunk: seq<byte>)
    requires s.Settled()
    ensures PushStep(s, chunk) == None <==> !(s.data == [] && IsFrame(chunk)) && s.head + |chunk| > BUFSZ
    ensures PushStep(s, chunk).Some? ==>
              var (s', answered) := PushStep(s, chunk).value;
              s'.Settled() && answered == Frames(s.data + chunk) && s'.data == Rest(s.data + chunk)
  {
    FastPathIff(chunk);
    CutFits(s.data + chunk);
    if s.data == [] {
      assert s.data + chunk == chunk;
      if IsFrame(chunk) { FrameSplit(chunk); }
    }
  }

  /** The buffer after the request ending at `k` left it and the buffer was shrunk. */
  function CutState(v: BufState, k: nat): BufState
    requires k <= |v.data|
  {
    BufState(if |v.data| == k then 0 else if v.head < BUFSZ then v.head else |v.data| - k, v.data[k..])
  }

  /** Part way through the loop over a chunk that fits: `requests` are cut off, `v` is what remains. */
  ghost predicate Cutting(s: BufState, chunk: seq<byte>, requests: seq<seq<byte>>, v: BufState) {
    var all := s.data + chunk;
    && requests + Frames(v.data) == Frames(all) && Rest(v.data) == Rest(all)
    && (if requests == [] then v.data == all else |requests[0]| >= 4)
    && v.head == if requests == [] then s.head + |chunk|
                 else if v.data == [] then 0
                 else if s.head + |chunk| < BUFSZ then s.head + |chunk|
                 else |all| - |requests[0]|
  }

  lemma CutStart(s: BufState, chunk: seq<byte>)
    ensures Cutting(s, chunk, [], BufState(s.head + |chunk|, s.data + chunk))
  {
    assert [] + Frames(s.data + chunk) == Frames(s.data + chunk);
  }

  lemma CutOne(s: BufState, chunk: seq<byte>, requests: seq<seq<byte>>, v: BufState, idx: nat)
    requires |s.data| <= s.head && s.head + |chunk| <= BUFSZ
    requires Cutting(s, chunk, requests, v) && FindSubsequence(v.data, DELIMITER) == Some(idx)
    ensures Cutting(s, chunk, requests + [v.data[..idx + 4]], CutState(v, idx + 4))
  {
    var f, t := v.data[..idx + 4], v.data[idx + 4..];
    assert Frames(v.data) == [f] + Frames(t) && Rest(v.data) == Rest(t);
    Assoc(requests, [f], Frames(t));
    if requests != [] {
      assert (requests + [f])[0] == requests[0];
    }
  }

  lemma CutDone(s: BufState, chunk: seq<byte>, requests: seq<seq<byte>>, v: BufState)
    requires s.Settled() && s.head + |chunk| <= BUFSZ
    requires Cutting(s, chunk, requests, v) && FindSubsequence(v.data, DELIMITER) == None
    ensures SlowStep(s, chunk) == Some((v, requests))
  {
    assert requests + [] == requests;
  }

  /** Encoding of the unread bytes: their count, then the bytes. */
  function EncodeBuffer(data: seq<byte>): (e: seq<byte>)
    ensures |e| == 4 + |data|
  {
    EncodeU32(|data|) + data
  }

  /** `Buffer::deserialize` on a slice; `None` is a panic. */
  function DecodeBuffer(src: seq<byte>): (r: Option<BufState>)
    ensures r.Some? ==> r.value.head == |r.value.data| <= BUFSZ && 4 + |r.value.data| <= |src|
  {
    if |src| < 4 then None else
    var size := DecodeU32(src[..4]);
    if size > BUFSZ || 4 + size > |src| then None else Some(BufState(size, src[4..4 + size]))
  }

  class Buffer {
    const buf: array<byte>
    var head: nat
    var tail: nat

    ghost predicate InRange()
      reads this
    {
      buf.Length == BUFSZ && tail <= head <= BUFSZ
    }

    ghost predicate Valid()
      reads this
    {
      InRange() && (tail == head ==> head == 0)
    }

    ghost function Value(): BufState
      reads this, buf
      requires InRange()
    {
      BufState(head, buf[tail..head])
    }

    constructor ()
      ensures Valid() && fresh(buf) && Value() == EMPTY_BUFFER
    {
      buf := new byte[BUFSZ](_ => 0);
      head, tail := 0, 0;
    }

    function DataSize(): nat
      requires InRange()
      reads this
    {
      head - tail
    }

    function GetData(): seq<byte>
      requires InRange()
      reads this, buf
    {
      buf[tail..head]
    }

    /** Writes `chunk` at the start of the free part; the slice bound panics when it is longer. */
    method FillEmptyBuf(chunk: seq<byte>)
      requires InRange() && head + |chunk| <= buf.Length
      modifies buf
      ensures buf[..head] == old(buf[..head]) && buf[head..head + |chunk|] == chunk
      ensures buf[head + |chunk|..] == old(buf[head + |chunk|..])
      ensures GetData() == old(GetData())
    {
      forall i | 0 <= i < |chunk| {
        buf[head + i] := chunk[i];
      }
    }

    method PushData(size: nat)
      requires InRange() && head + size <= buf.Length
      modifies this`head
      ensures head == old(head) + size && GetData() == old(GetData()) + buf[old(head)..head]
    {
      head := head + size;
    }

    method PullData(size: nat)
      requires InRange() && size <= DataSize()
      modifies this`tail
      ensures tail == old(tail) + size
    {
      tail := tail + size;
    }

    /** Rewinds an empty buffer; moves the unread bytes of a full one to the front. */
    method TryShrink()
      requires InRange() && DataSize() < buf.Length
      modifies this`head, this`tail, buf
      ensures Valid() && GetData() == old(GetData())
      ensures head == (if old(tail == head) then 0 else if old(head) < BUFSZ then old(head) else old(head - tail))
    {
      if DataSize() == 0 {
        head := 0;
        tail := 0;
        return;
      }
      if head < buf.Length {
        return;
      }
      forall i | 0 <= i < head - tail {
        buf[i] := buf[tail + i];
      }
      head := DataSize();
      tail := 0;
    }

    /** One turn of the loop: the request ending at `idx + 4` leaves the buffer. */
    method TakeRequest(idx: nat) returns (request: seq<byte>)
      requires InRange() && idx + 4 <= DataSize()
      modifies this`head, this`tail, buf
      ensures Valid() && request == old(GetData())[..idx + 4] && Value() == CutState(old(Value()), idx + 4)
    {
      ghost var cur := GetData();
      request := GetData()[..idx + 4];
      PullData(idx + 4);
      assert GetData() == cur[idx + 4..];
      TryShrink();
    }

    /** Receives a chunk; `requests` lists what `respond_to_request` is called with, in order,
        and its length is the number of responses sent. */
    method PushDataAndRun(chunk: seq<byte>) returns (requests: seq<seq<byte>>)
      requires Valid() && PushStep(Value(), chunk).Some?
      modifies this`head, this`tail, buf
      ensures Valid() && (Value(), requests) == PushStep(old(Value()), chunk).value
    {
      if DataSize() == 0 {
        if FastPath(chunk) {
          return [chunk];
        }
      }
      requests := CopyAndRun(chunk);
    }

    /** The copying path: append the chunk, then answer requests until none is complete. */
    method CopyAndRun(chunk: seq<byte>) returns (requests: seq<seq<byte>>)
      requires Valid() && head + |chunk| <= BUFSZ
      modifies this`head, this`tail, buf
      ensures Valid() && SlowStep(old(Value()), chunk) == Some((Value(), requests))
    {
      hide Cutting;
      hide SlowStep;
      ghost var s := Value();
      FillEmptyBuf(chunk);
      PushData(|chunk|);
      requests := [];
      CutStart(s, chunk);
      while true
        invariant InRange() && (tail == head ==> head == 0)
        invariant Cutting(s, chunk, requests, Value())
        decreases DataSize()
      {
        match FindSubsequence(GetData(), DELIMITER) {
          case Some(idx) =>
            CutOne(s, chunk, requests, Value(), idx);
            var request := TakeRequest(idx);
            requests := requests + [request];
          case None =>
            CutDone(s, chunk, requests, Value());
            return;
        }
      }
    }

    function SerializedSize(): nat
      requires InRange()
      reads this
    {
      4 + DataSize()
    }

    /** Writes the encoding into the slice `dst[lo..hi]`, which panics when it is too short. */
    method Serialize(dst: array<byte>, lo: nat, hi: nat)
      requires InRange() && dst != buf && lo + SerializedSize() <= hi <= dst.Length
      modifies dst
      ensures dst[..] == old(dst[..lo]) + EncodeBuffer(GetData()) + old(dst[lo + SerializedSize()..])
    {
      var size := EncodeU32(DataSize());
      forall i | 0 <= i < 4 {
        dst[lo + i] := size[i];
      }
      forall i | 0 <= i < DataSize() {
        dst[lo + 4 + i] := buf[tail + i];
      }
    }

    static method Deserialize(src: seq<byte>) returns (buffer: Buffer)
      requires DecodeBuffer(src).Some?
      ensures fresh(buffer) && fresh(buffer.buf) && buffer.Valid() && buffer.Value() == DecodeBuffer(src).value
    {
      buffer := new Buffer();
      var size := DecodeU32(src[0..4]);
      var data := src[4..4 + size];
      assert buffer.GetData() == [];
      buffer.FillEmptyBuf(data);
      assert buffer.GetData() == [] && buffer.buf[0..size] == data;
      buffer.PushData(size);
      assert buffer.GetData() == data;
    }
  }
}
