/** The proxy's backend: one buffer over the whole stream from the front end, and a prepared response
    whose first four bytes are overwritten with the tag of the request it answers. */
module ProxyBackEnd {
  import opened Bytes
  import opened Framing
  import opened StreamBuffer
  import opened MigratedStream

  /** The response to one frame. */
  function Response(frame: seq<byte>, body: seq<byte>): seq<byte>
    requires |frame| >= 4
  {
    frame[..4] + body
  }

  function Responses(frames: seq<seq<byte>>, body: seq<byte>): (r: seq<seq<byte>>)
    requires forall i :: 0 <= i < |frames| ==> |frames[i]| >= 4
    ensures |r| == |frames|
  {
    seq(|frames|, i requires 0 <= i < |frames| => Response(frames[i], body))
  }

  /** One popped chunk: the new buffer and the responses pushed; `None` is a panic. */
  function BackEndPop(s: BufState, chunk: seq<byte>, body: seq<byte>): (r: Option<(BufState, seq<seq<byte>>)>)
    requires s.Settled()
    ensures r.Some? ==> r.value.0.Settled()
  {
    PushStepIsGreedySplit(s, chunk);
    match PushStep(s, chunk)
    case None => None
    case Some((s', frames)) =>
      SplitSound(s.data + chunk);
      Some((s', Responses(frames, body)))
  }

  class BackEndLoop {
    const buffer: Buffer
    const response: array<byte>

    ghost predicate Valid()
      reads buffer
    {
      buffer.Valid() && buffer.buf != response && response.Length >= 4
    }

    constructor (body: seq<byte>)
      ensures Valid() && fresh(buffer) && fresh(buffer.buf) && fresh(response)
      ensures response[4..] == body && buffer.Value() == EMPTY_BUFFER
    {
      buffer := new Buffer();
      response := new byte[4 + |body|](i => if 4 <= i < 4 + |body| then body[i - 4] else 0);
    }

    /** Writes the tag into the prepared response and pushes a copy of it. */
    method RespondToRequest(data: seq<byte>) returns (pushed: seq<byte>)
      requires response.Length >= 4 && |data| >= 4
      modifies response
      ensures pushed == Response(data, old(response[4..])) && response[4..] == old(response[4..])
    {
      forall i | 0 <= i < 4 {
        response[i] := data[i];
      }
      pushed := response[..];
      assert pushed[..4] == data[..4] && pushed[4..] == old(response[4..]);
    }

    method RespondAll(requests: seq<seq<byte>>) returns (pushed: seq<seq<byte>>)
      requires response.Length >= 4 && forall i :: 0 <= i < |requests| ==> |requests[i]| >= 4
      modifies response
      ensures pushed == Responses(requests, old(response[4..])) && response[4..] == old(response[4..])
    {
      pushed := [];
      for i := 0 to |requests|
        invariant response[4..] == old(response[4..])
        invariant |pushed| == i && forall k :: 0 <= k < i ==> pushed[k] == Response(requests[k], old(response[4..]))
      {
        var r := RespondToRequest(requests[i]);
        pushed := pushed + [r];
      }
    }

    method PopCompleted(chunk: seq<byte>) returns (pushed: seq<seq<byte>>)
      requires Valid() && BackEndPop(buffer.Value(), chunk, response[4..]).Some?
      modifies buffer, buffer.buf, response
      ensures Valid() && response[4..] == old(response[4..])
      ensures Some((buffer.Value(), pushed)) == BackEndPop(old(buffer.Value()), chunk, old(response[4..]))
    {
      hide PushStep;
      hide BackEndPop;
      BackEndPopFrames(buffer.Value(), chunk, response[4..]);
      var requests := buffer.PushDataAndRun(chunk);
      ghost var after := buffer.Value();
      pushed := RespondAll(requests);
      assert buffer.Value() == after;
    }
  }

  /** A popped chunk is cut into whole frames, and each is answered. */
  lemma BackEndPopFrames(s: BufState, chunk: seq<byte>, body: seq<byte>)
    requires s.Settled() && BackEndPop(s, chunk, body).Some?
    ensures PushStep(s, chunk).Some?
    ensures var (s', frames) := PushStep(s, chunk).value;
            && s'.Settled() && AllFrames(frames) && (forall i :: 0 <= i < |frames| ==> |frames[i]| >= 4)
            && frames == Frames(s.data + chunk) && s'.data == Rest(s.data + chunk)
            && BackEndPop(s, chunk, body) == Some((s', Responses(frames, body)))
  {
    hide Frames;
    hide Rest;
    hide PushStep;
    PushStepIsGreedySplit(s, chunk);
    SplitSound(s.data + chunk);
  }

  // ----- a stream read in chunks

  /** All chunks popped one after the other, and all responses pushed; `None` is a panic. */
  function BackEndRun(s: BufState, chunks: seq<seq<byte>>, body: seq<byte>): (r: Option<(BufState, seq<seq<byte>>)>)
    requires s.Settled()
    ensures r.Some? ==> r.value.0.Settled()
    decreases |chunks|
  {
    if chunks == [] then Some((s, []))
    else
      match BackEndPop(s, chunks[0], body)
      case None => None
      case Some((t, responses)) =>
        match BackEndRun(t, chunks[1..], body)
        case None => None
        case Some((last, more)) => Some((last, responses + more))
  }

  function Reads(chunks: seq<seq<byte>>): (r: seq<Event>)
    ensures |r| == |chunks| && NoMigration(r)
  {
    seq(|chunks|, i requires 0 <= i < |chunks| => Chunk(chunks[i]))
  }

  lemma ResponsesAppend(a: seq<seq<byte>>, b: seq<seq<byte>>, body: seq<byte>)
    requires AllFrames(a) && AllFrames(b)
    ensures AllFrames(a + b) && Responses(a + b, body) == Responses(a, body) + Responses(b, body)
  {
  }

  /** However a stream is chunked, its frames are answered and the buffer holds its rest. */
  lemma {:induction false} BackEndRunFrames(s: BufState, chunks: seq<seq<byte>>, body: seq<byte>)
    requires s.Settled() && Unfinished(s.data) && BackEndRun(s, chunks, body).Some?
    ensures AllFrames(Frames(s.data + Flatten(chunks)))
    ensures var (last, responses) := BackEndRun(s, chunks, body).value;
            && last.data == Rest(s.data + Flatten(chunks))
            && responses == Responses(Frames(s.data + Flatten(chunks)), body)
    decreases |chunks|
  {
    hide Frames;
    hide Rest;
    hide PushStep;
    hide BackEndPop;
    hide Responses;
    hide AllFrames;
    hide Unfinished;
    if chunks == [] {
      assert s.data + [] == s.data;
      UnfinishedSplit(s.data);
      SplitSound(s.data);
      assert Responses([], body) == [];
    } else {
      var c, more := chunks[0], Flatten(chunks[1..]);
      var (t, responses) := BackEndPop(s, c, body).value;
      BackEndPopFrames(s, c, body);
      SplitSound(s.data + c);
      BackEndRunFrames(t, chunks[1..], body);
      SplitAppend(s.data + c, more);
      Assoc(s.data, c, more);
      ResponsesAppend(Frames(s.data + c), Frames(t.data + more), body);
    }
  }

  /** Any chunking of tagged requests is cut back into exactly these: each is answered, none is left. */
  lemma FramesRecovered(frames: seq<seq<byte>>, chunks: seq<seq<byte>>, body: seq<byte>)
    requires AllFrames(frames) && Flatten(chunks) == Flatten(frames) && BackEndRun(EMPTY_BUFFER, chunks, body).Some?
    ensures BackEndRun(EMPTY_BUFFER, chunks, body) == Some((EMPTY_BUFFER, Responses(frames, body)))
  {
    var stream := Flatten(frames);
    SplitIsUnique(stream, frames, []);
    assert stream + [] == stream && [] + stream == stream;
    BackEndRunFrames(EMPTY_BUFFER, chunks, body);
  }

  /** A stream is read without a panic exactly when every chunk that is copied fits; in particular when
      no copied chunk takes the bytes copied since the buffer was last empty beyond its size. */
  lemma {:induction false} BackEndRunIff(s: BufState, chunks: seq<seq<byte>>, body: seq<byte>)
    requires s.Settled()
    ensures BackEndRun(s, chunks, body).Some? <==> Fits(s.data, s.head, Reads(chunks))
    ensures Within(s.data, s.head, Reads(chunks)) ==> BackEndRun(s, chunks, body).Some?
    decreases |chunks|
  {
    hide IsFrame;
    hide Frames;
    hide Rest;
    hide PushStep;
    hide NextHead;
    hide Within;
    if Within(s.data, s.head, Reads(chunks)) {
      WithinFits(s.data, s.head, s.head, Reads(chunks));
    }
    if chunks != [] {
      ChunkNext(s, chunks[0]);
      assert Reads(chunks)[0] == Chunk(chunks[0]) && Reads(chunks)[1..] == Reads(chunks[1..]);
      if BackEndPop(s, chunks[0], body).Some? {
        BackEndRunIff(BackEndPop(s, chunks[0], body).value.0, chunks[1..], body);
      }
    }
  }

  lemma {:induction false} BackEndRunNext(s: BufState, chunks: seq<seq<byte>>, c: seq<byte>, body: seq<byte>)
    requires s.Settled() && BackEndRun(s, chunks, body).Some?
    ensures var (t, _) := BackEndRun(s, chunks, body).value;
            && (BackEndRun(s, chunks + [c], body).Some? <==> BackEndPop(t, c, body).Some?)
            && (BackEndPop(t, c, body).Some? ==> BackEndRun(s, chunks + [c], body).value.0 == BackEndPop(t, c, body).value.0)
    decreases |chunks|
  {
    hide BackEndPop;
    if chunks == [] {
      assert (chunks + [c])[1..] == [];
    } else {
      assert (chunks + [c])[0] == chunks[0] && (chunks + [c])[1..] == chunks[1..] + [c];
      BackEndRunNext(BackEndPop(s, chunks[0], body).value.0, chunks[1..], c, body);
    }
  }
}
