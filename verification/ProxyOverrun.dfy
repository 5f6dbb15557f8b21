/** A run of the proxy that meets every assumption about the environment and still panics: five requests
    that each fill the front end's buffer, read by the backend one byte out of step. */
module ProxyOverrun {
  import opened Bytes
  import opened Framing
  import opened StreamBuffer
  import opened RoundRobin
  import opened ProxyFrontEnd
  import opened ProxyBackEnd
  import opened ProxySystem
  import M = MigratedStream

  const CLIENT: Qd := 2

  /** A request of 1020 bytes; with its tag it fills the front end's buffer. */
  function Req(): seq<byte> {
    M.Filler(1016) + DELIMITER
  }

  function Frame(): (f: seq<byte>)
    ensures |f| == TMPBUF
  {
    EncodeTag(CLIENT) + Req()
  }

  function Requests(): seq<Step> {
    Same(Request(CLIENT, Req()), 5)
  }

  const SIZES: seq<nat> := [1023, 1024, 1024, 1024, 1024]

  /** A backend and a client connect, the client sends five requests, the backend reads five times. */
  function FiveReads(): seq<Step> {
    [Connect(1), Connect(CLIENT), Register(1)] + (Requests() + Receives(0, SIZES))
  }

  lemma FrameIsAcceptable()
    ensures Acceptable(CLIENT, Req()) && IsFrame(Frame())
  {
    M.FillerSplit(1016, 0);
    assert EncodeTag(CLIENT) == [0, 0, 0, 2];
    assert TagSafe(EncodeTag(CLIENT), Req());
    TaggedFrame(EncodeTag(CLIENT), Req());
  }

  // ----- the backend

  /** What one read leaves of a frame, and what the next one brings: the frame's last byte and all but the
      last byte of the next. */
  lemma AcrossNext(f: seq<byte>, head: nat)
    requires IsFrame(f) && |f| == TMPBUF && TMPBUF - 1 <= head && head + TMPBUF < BUFSZ
    ensures var most, last := f[..TMPBUF - 1], f[TMPBUF - 1..];
            Rest(most + (last + most)) == most && M.NextHead(most, head, last + most) == head + TMPBUF
  {
    var most, last := f[..TMPBUF - 1], f[TMPBUF - 1..];
    MostIsUnfinished(f);
    Assoc(most, last, most);
    assert most + last == f;
    FrameFirst(f, most);
    UnfinishedSplit(most);
  }

  lemma MostIsUnfinished(f: seq<byte>)
    requires IsFrame(f) && |f| == TMPBUF
    ensures Unfinished(f[..TMPBUF - 1]) && !IsFrame(f[..TMPBUF - 1])
  {
    var most := f[..TMPBUF - 1];
    forall j | 0 <= j < |most| ensures !OccursAt(most, DELIMITER, j) {
      if j + 4 <= |most| {
        assert most[j..j + 4] == f[j..j + 4];
        assert !OccursAt(f, DELIMITER, j);
      }
    }
  }

  lemma AcrossStep(f: seq<byte>, head: nat, events: seq<M.Event>)
    requires IsFrame(f) && |f| == TMPBUF && TMPBUF - 1 <= head && head + TMPBUF < BUFSZ
    ensures M.Fits(f[..TMPBUF - 1], head, [M.Chunk(f[TMPBUF - 1..] + f[..TMPBUF - 1])] + events)
       <==> M.Fits(f[..TMPBUF - 1], head + TMPBUF, events)
  {
    AcrossNext(f, head);
    M.FitsChunk(f[..TMPBUF - 1], head, f[TMPBUF - 1..] + f[..TMPBUF - 1], events);
    hide *;
  }

  lemma FirstRead(f: seq<byte>, events: seq<M.Event>)
    requires IsFrame(f) && |f| == TMPBUF
    ensures M.Fits([], 0, [M.Chunk(f[..TMPBUF - 1])] + events) <==> M.Fits(f[..TMPBUF - 1], TMPBUF - 1, events)
  {
    var most := f[..TMPBUF - 1];
    MostIsUnfinished(f);
    UnfinishedSplit(most);
    assert [] + most == most;
    M.FitsChunk([], 0, most, events);
  }

  lemma FifthReadDoesNotFit(f: seq<byte>)
    requires IsFrame(f) && |f| == TMPBUF
    ensures var most, across := f[..TMPBUF - 1], f[TMPBUF - 1..] + f[..TMPBUF - 1];
            !M.Fits([], 0, Reads([most, across, across, across, across]))
  {
    hide M.Fits;
    hide Frames;
    hide Rest;
    hide IsFrame;
    var most, across := f[..TMPBUF - 1], f[TMPBUF - 1..] + f[..TMPBUF - 1];
    var c := M.Chunk(across);
    FiveEvents(M.Chunk(most), c);
    assert Reads([most, across, across, across, across]) == [M.Chunk(most), c, c, c, c];
    FirstRead(f, [c, c, c, c]);
    AcrossStep(f, 1023, [c, c, c]);
    AcrossStep(f, 2047, [c, c]);
    AcrossStep(f, 3071, [c]);
    M.FitsChunk(most, 4095, across, []);
  }

  lemma FiveEvents(a: M.Event, c: M.Event)
    ensures [a, c, c, c, c] == [a] + [c, c, c, c] && [c, c, c, c] == [c] + [c, c, c] && [c, c, c] == [c] + [c, c]
    ensures [c, c] == [c] + [c] && [c] == [c] + []
  {
  }

  // ----- the system

  function Total(sizes: seq<nat>): nat {
    if sizes == [] then 0 else sizes[0] + Total(sizes[1..])
  }

  function Cut(stream: seq<byte>, sizes: seq<nat>): seq<seq<byte>>
    requires Total(sizes) <= |stream|
    decreases |sizes|
  {
    if sizes == [] then [] else [stream[..sizes[0]]] + Cut(stream[sizes[0]..], sizes[1..])
  }

  function Receives(i: nat, sizes: seq<nat>): (r: seq<Step>)
    ensures |r| == |sizes|
  {
    seq(|sizes|, k requires 0 <= k < |sizes| => Receive(i, sizes[k]))
  }

  /** A run of reads on one link panics exactly when the backend does. */
  lemma {:induction false} ReceiveRun(s: System, i: nat, sizes: seq<nat>, body: seq<byte>)
    requires i < |s.links| && s.links[i].buffer.Settled() && Total(sizes) <= |s.links[i].toBe|
    requires forall k :: 0 <= k < |sizes| ==> sizes[k] > 0
    ensures Possible(s, Receives(i, sizes), body)
    ensures Run(s, Receives(i, sizes), body) == None
       <==> BackEndRun(s.links[i].buffer, Cut(s.links[i].toBe, sizes), body) == None
    decreases |sizes|
  {
    hide BackEndPop;
    if sizes != [] {
      var l, steps := s.links[i], Receives(i, sizes);
      assert steps[0] == Receive(i, sizes[0]) && steps[1..] == Receives(i, sizes[1..]);
      var chunks := Cut(l.toBe, sizes);
      assert chunks[0] == l.toBe[..sizes[0]] && chunks[1..] == Cut(l.toBe[sizes[0]..], sizes[1..]);
      if BackEndPop(l.buffer, chunks[0], body).Some? {
        ReceiveRun(Apply(s, steps[0], body).value, i, sizes[1..], body);
      }
    }
  }

  lemma {:induction false} RunAppend(s: System, a: seq<Step>, b: seq<Step>, body: seq<byte>)
    requires Possible(s, a, body) && Run(s, a, body).Some? && Possible(Run(s, a, body).value, b, body)
    ensures Possible(s, a + b, body) && Run(s, a + b, body) == Run(Run(s, a, body).value, b, body)
    decreases |a|
  {
    hide Enabled;
    hide Apply;
    if a == [] {
      assert a + b == b;
    } else {
      assert (a + b)[0] == a[0] && (a + b)[1..] == a[1..] + b;
      RunAppend(Apply(s, a[0], body).value, a[1..], b, body);
    }
  }

  function Copies(f: seq<byte>, k: nat): seq<byte> {
    if k == 0 then [] else f + Copies(f, k - 1)
  }

  function Same(step: Step, k: nat): (r: seq<Step>)
    ensures |r| == k
  {
    seq(k, _ => step)
  }

  /** One client's requests to a single backend pile up in the channel. */
  lemma {:induction false} RequestRun(s: System, qd: Qd, req: seq<byte>, k: nat, body: seq<byte>)
    requires Inv(s, body) && body != [] && Enabled(s, Request(qd, req)) && |s.links| == 1
    ensures Possible(s, Same(Request(qd, req), k), body) && Run(s, Same(Request(qd, req), k), body).Some?
    ensures var t := Run(s, Same(Request(qd, req), k), body).value;
            && |t.links| == 1 && t.links[0].buffer == s.links[0].buffer
            && t.links[0].toBe == s.links[0].toBe + Copies(EncodeTag(qd) + req, k)
    decreases k
  {
    hide Inv;
    hide Acceptable;
    hide EncodeTag;
    var step, steps := Request(qd, req), Same(Request(qd, req), k);
    if k == 0 {
      assert s.links[0].toBe + [] == s.links[0].toBe;
    } else {
      assert steps[0] == step && steps[1..] == Same(step, k - 1);
      RequestRuns(s, qd, req, body);
      RequestKeeps(s, qd, req, body);
      var t := Apply(s, step, body).value;
      hide Apply;
      RequestRun(t, qd, req, k - 1, body);
      Assoc(s.links[0].toBe, EncodeTag(qd) + req, Copies(EncodeTag(qd) + req, k - 1));
    }
  }

  lemma RunCons(s: System, step: Step, t: System, rest: seq<Step>, body: seq<byte>)
    requires Enabled(s, step) && Apply(s, step, body) == Some(t) && Possible(t, rest, body)
    ensures Possible(s, [step] + rest, body) && Run(s, [step] + rest, body) == Run(t, rest, body)
  {
    hide Enabled;
    hide Apply;
    assert ([step] + rest)[1..] == rest;
  }

  /** The system once the backend and the client are connected. */
  const CONNECTED: System := System(FrontEnd(map[1 := true, CLIENT := false], [1]),
                                    [Link(1, [], EMPTY_BUFFER, [], [], [], [])], [], [])

  lemma Setup(body: seq<byte>)
    ensures var steps := [Connect(1), Connect(CLIENT), Register(1)];
            Possible(START, steps, body) && Run(START, steps, body) == Some(CONNECTED)
  {
    var a := Apply(START, Connect(1), body).value;
    var b := Apply(a, Connect(CLIENT), body).value;
    var c := Apply(b, Register(1), body).value;
    assert c.fe.conns == CONNECTED.fe.conns && c.fe.backends == CONNECTED.fe.backends && c.links == CONNECTED.links;
    assert Apply(b, Register(1), body) == Some(CONNECTED);
    RunCons(b, Register(1), CONNECTED, [], body);
    RunCons(a, Connect(CLIENT), b, [Register(1)], body);
    RunCons(START, Connect(1), a, [Connect(CLIENT), Register(1)], body);
    assert [Connect(1)] + ([Connect(CLIENT)] + ([Register(1)] + [])) == [Connect(1), Connect(CLIENT), Register(1)];
    assert [Register(1)] + [] == [Register(1)] && [Connect(CLIENT)] + [Register(1)] == [Connect(CLIENT), Register(1)];
  }

  lemma CutAcross(f: seq<byte>, k: nat, sizes: seq<nat>)
    requires |f| == TMPBUF && k > 0 && Total(sizes) <= 1 + |Copies(f, k - 1)|
    ensures var last := f[TMPBUF - 1..];
            && Total([TMPBUF] + sizes) <= |last + Copies(f, k)|
            && Cut(last + Copies(f, k), [TMPBUF] + sizes)
               == [last + f[..TMPBUF - 1]] + Cut(last + Copies(f, k - 1), sizes)
  {
    var last := f[TMPBUF - 1..];
    var stream, all := last + Copies(f, k), [TMPBUF] + sizes;
    assert all[0] == TMPBUF && all[1..] == sizes;
    assert stream == (last + f[..TMPBUF - 1]) + (last + Copies(f, k - 1));
    assert stream[..TMPBUF] == last + f[..TMPBUF - 1] && stream[TMPBUF..] == last + Copies(f, k - 1);
  }

  lemma CutFrames(f: seq<byte>)
    requires |f| == TMPBUF
    ensures Total(SIZES) <= |Copies(f, 5)|
    ensures var most, across := f[..TMPBUF - 1], f[TMPBUF - 1..] + f[..TMPBUF - 1];
            Cut(Copies(f, 5), SIZES) == [most, across, across, across, across]
  {
    var most, last := f[..TMPBUF - 1], f[TMPBUF - 1..];
    var n: nat := TMPBUF;
    assert [n] + [] == [n] && [n] + [n] == [n, n] && [n] + [n, n] == [n, n, n] && [n] + [n, n, n] == [n, n, n, n];
    CutAcross(f, 1, []);
    CutAcross(f, 2, [n]);
    CutAcross(f, 3, [n, n]);
    CutAcross(f, 4, [n, n, n]);
    assert SIZES[1..] == [n, n, n, n];
    assert Copies(f, 5) == most + (last + Copies(f, 4));
    assert Copies(f, 5)[..1023] == most && Copies(f, 5)[1023..] == last + Copies(f, 4);
  }

  /** The run panics: at its fifth read the backend's buffer has one byte left. */
  lemma FiveReadsPanic(body: seq<byte>)
    requires body != []
    ensures Possible(START, FiveReads(), body) && Run(START, FiveReads(), body) == None
  {
    hide Possible;
    hide Run;
    hide Inv;
    hide BackEndRun;
    Setup(body);
    StartInv(body);
    RunKeepsInv(START, [Connect(1), Connect(CLIENT), Register(1)], body);
    FrameIsAcceptable();
    RequestRun(CONNECTED, CLIENT, Req(), 5, body);
    var t := Run(CONNECTED, Same(Request(CLIENT, Req()), 5), body).value;
    assert t.links[0].toBe == Copies(Frame(), 5);
    CutFrames(Frame());
    ReceiveRun(t, 0, SIZES, body);
    FifthReadDoesNotFit(Frame());
    BackEndRunIff(EMPTY_BUFFER, Cut(Copies(Frame(), 5), SIZES), body);
    RunAppend(CONNECTED, Requests(), Receives(0, SIZES), body);
    RunAppend(START, [Connect(1), Connect(CLIENT), Register(1)], Requests() + Receives(0, SIZES), body);
  }
}
