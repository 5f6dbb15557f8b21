/** Front end, backends and the channels between them: no request is lost, answered twice, or
    answered to the wrong client. */
module ProxySystem {
  import opened Bytes
  import opened Collections
  import opened Framing
  import opened StreamBuffer
  import opened RoundRobin
  import opened ProxyFrontEnd
  import opened ProxyBackEnd
  import MigratedStream

  /** One backend and its connection with the front end, which knows it as `qd`: the bytes under way to
      it, its buffer, the responses under way back; and its history: the clients whose requests were
      dispatched to it and whose responses came back from it, and the chunks it read, in order. */
  datatype Link = Link(qd: Qd, toBe: seq<byte>, buffer: BufState, fromBe: seq<seq<byte>>,
                       dispatched: seq<Qd>, routed: seq<Qd>, chunks: seq<seq<byte>>)

  /** The whole system, with the clients whose requests were accepted and the responses delivered. */
  datatype System = System(fe: FrontEnd, links: seq<Link>, accepted: seq<Qd>, delivered: seq<Message>)

  datatype Step =
    | Connect(newQd: Qd)                 // the front end accepts a connection
    | Register(qd: Qd)                   // a backend's magic bytes are popped
    | Request(qd: Qd, req: seq<byte>)    // a client's request is popped
    | Receive(link: nat, n: nat)         // a backend pops the next n bytes
    | Reply(link: nat)                   // the front end pops a backend's response

  const START: System := System(FrontEnd(map[], []), [], [], [])

  function LinkOf(links: seq<Link>, qd: Qd): (i: nat)
    ensures i <= |links| && (i < |links| ==> links[i].qd == qd)
    ensures i == |links| ==> forall j :: 0 <= j < |links| ==> links[j].qd != qd
  {
    if links == [] || links[0].qd == qd then 0 else 1 + LinkOf(links[1..], qd)
  }

  /** A request is one complete request, fits the front end's buffer behind its tag, and together with
      its tag is one frame. */
  predicate Acceptable(qd: Qd, req: seq<byte>) {
    qd < 0x8000_0000 && IsFrame(req) && 4 + |req| <= TMPBUF && TagSafe(EncodeTag(qd), req)
  }

  /** What the environment may do: fresh descriptors, backends that register once and before they send
      anything else, requests only once there is a backend, reads of bytes that are there. */
  predicate Enabled(s: System, step: Step) {
    match step
    case Connect(qd) => qd !in s.fe.conns
    case Register(qd) => qd in s.fe.conns && !s.fe.conns[qd] && qd !in s.accepted
    case Request(qd, req) => qd in s.fe.conns && !s.fe.conns[qd] && s.fe.backends != [] && Acceptable(qd, req)
    case Receive(i, n) => i < |s.links| && 0 < n <= |s.links[i].toBe|
    case Reply(i) => i < |s.links| && s.links[i].fromBe != []
  }

  function Dispatched(l: Link, client: Qd, frame: seq<byte>): Link {
    l.(toBe := l.toBe + frame, dispatched := l.dispatched + [client])
  }

  function Received(l: Link, n: nat, buffer: BufState, responses: seq<seq<byte>>): Link
    requires n <= |l.toBe|
  {
    l.(toBe := l.toBe[n..], buffer := buffer, fromBe := l.fromBe + responses, chunks := l.chunks + [l.toBe[..n]])
  }

  function Routed(l: Link, client: Qd): Link
    requires l.fromBe != []
  {
    l.(fromBe := l.fromBe[1..], routed := l.routed + [client])
  }

  /** One step; `body` is what backends respond with; `None` is a panic somewhere. */
  function Apply(s: System, step: Step, body: seq<byte>): Option<System>
    requires Enabled(s, step)
  {
    match step
    case Connect(qd) => Some(s.(fe := FrontEndAccept(s.fe, qd)))
    case Register(qd) =>
      (match FrontEndPop(s.fe, qd, MAGIC)
       case None => Option.None
       case Some((fe, _)) => Some(s.(fe := fe, links := s.links + [Link(qd, [], EMPTY_BUFFER, [], [], [], [])])))
    case Request(qd, req) =>
      (match FrontEndPop(s.fe, qd, req)
       case None => Option.None
       case Some((fe, message)) =>
         if message == Option.None then Option.None else
         var i := LinkOf(s.links, message.value.to);
         if i == |s.links| then Option.None
         else Some(s.(fe := fe, links := s.links[i := Dispatched(s.links[i], qd, message.value.data)], accepted := s.accepted + [qd])))
    case Receive(i, n) =>
      if !s.links[i].buffer.Settled() then Option.None else
      (match BackEndPop(s.links[i].buffer, s.links[i].toBe[..n], body)
       case None => Option.None
       case Some((buffer, responses)) => Some(s.(links := s.links[i := Received(s.links[i], n, buffer, responses)])))
    case Reply(i) =>
      (match FrontEndPop(s.fe, s.links[i].qd, s.links[i].fromBe[0])
       case None => Option.None
       case Some((fe, message)) =>
         if message == Option.None then Option.None
         else Some(s.(fe := fe, links := s.links[i := Routed(s.links[i], message.value.to)], delivered := s.delivered + [message.value])))
  }

  // ----- what a link holds

  function TagOf(m: seq<byte>): Qd {
    if |m| < 4 then 0 else DecodeTag(m[..4])
  }

  function TagsOf(ms: seq<seq<byte>>): (t: seq<Qd>)
    ensures |t| == |ms|
  {
    seq(|ms|, i requires 0 <= i < |ms| => TagOf(ms[i]))
  }

  /** The frames a backend has not answered yet. */
  function Waiting(l: Link): seq<seq<byte>> {
    Frames(l.buffer.data + l.toBe)
  }

  /** The clients whose requests or responses are on the link. */
  function InFlight(l: Link): seq<Qd> {
    TagsOf(l.fromBe) + TagsOf(Waiting(l))
  }

  ghost predicate IsResponse(m: seq<byte>, body: seq<byte>) {
    |m| >= 4 && m[4..] == body
  }

  /** The link is first in, first out: clients served, clients in flight, together all dispatched. */
  ghost predicate LinkOk(l: Link, body: seq<byte>) {
    && l.buffer.Settled() && ReadsOk(l, body) && Unfinished(l.buffer.data) && Rest(l.buffer.data + l.toBe) == []
    && l.dispatched == l.routed + InFlight(l)
    && forall i :: 0 <= i < |l.fromBe| ==> IsResponse(l.fromBe[i], body)
  }

  /** The backend's buffer is what reading its chunks one after the other leaves. */
  ghost predicate ReadsOk(l: Link, body: seq<byte>) {
    && BackEndRun(EMPTY_BUFFER, l.chunks, body).Some?
    && BackEndRun(EMPTY_BUFFER, l.chunks, body).value.0 == l.buffer
  }

  lemma TagsAppend(a: seq<seq<byte>>, b: seq<seq<byte>>)
    ensures TagsOf(a + b) == TagsOf(a) + TagsOf(b)
  {
  }

  lemma FrameArrives(held: seq<byte>, frame: seq<byte>)
    requires Rest(held) == [] && IsFrame(frame)
    ensures Frames(held + frame) == Frames(held) + [frame] && Rest(held + frame) == []
  {
    hide Frames;
    hide Rest;
    SplitAppend(held, frame);
    assert [] + frame == frame;
    FrameSplit(frame);
  }

  lemma TagOfTagged(client: Qd, req: seq<byte>)
    requires client < 0x8000_0000
    ensures TagOf(EncodeTag(client) + req) == client
  {
    hide EncodeTag;
    hide DecodeTag;
    TagRoundTrip(client);
    assert (EncodeTag(client) + req)[..4] == EncodeTag(client);
  }

  lemma DispatchKeepsLink(l: Link, client: Qd, req: seq<byte>, body: seq<byte>)
    requires LinkOk(l, body) && Acceptable(client, req)
    ensures var m := Dispatched(l, client, EncodeTag(client) + req);
            LinkOk(m, body) && InFlight(m) == InFlight(l) + [client]
  {
    hide Frames;
    hide Rest;
    hide EncodeTag;
    hide TagOf;
    hide IsFrame;
    hide TagSafe;
    var frame, held := EncodeTag(client) + req, l.buffer.data + l.toBe;
    var m := Dispatched(l, client, frame);
    TaggedFrame(EncodeTag(client), req);
    FrameArrives(held, frame);
    Assoc(l.buffer.data, l.toBe, frame);
    TagOfTagged(client, req);
    TagsAppend(Waiting(l), [frame]);
    assert TagsOf([frame]) == [client];
    Assoc(TagsOf(l.fromBe), TagsOf(Waiting(l)), [client]);
    Assoc(l.routed, InFlight(l), [client]);
  }

  lemma ResponseTags(frames: seq<seq<byte>>, body: seq<byte>)
    requires AllFrames(frames)
    ensures TagsOf(Responses(frames, body)) == TagsOf(frames)
    ensures forall i :: 0 <= i < |frames| ==> IsResponse(Responses(frames, body)[i], body)
  {
    forall i | 0 <= i < |frames|
      ensures TagOf(Responses(frames, body)[i]) == TagOf(frames[i]) && IsResponse(Responses(frames, body)[i], body)
    {
      assert IsFrame(frames[i]);
      assert Responses(frames, body)[i][..4] == frames[i][..4];
    }
  }

  lemma ReceiveKeepsLink(l: Link, n: nat, body: seq<byte>)
    requires LinkOk(l, body) && n <= |l.toBe| && BackEndPop(l.buffer, l.toBe[..n], body).Some?
    ensures var (buffer, responses) := BackEndPop(l.buffer, l.toBe[..n], body).value;
            var m := Received(l, n, buffer, responses);
            LinkOk(m, body) && InFlight(m) == InFlight(l)
  {
    hide Frames;
    hide Rest;
    hide PushStep;
    hide BackEndPop;
    hide Responses;
    hide AllFrames;
    hide TagsOf;
    hide BackEndRun;
    var chunk, rest := l.toBe[..n], l.toBe[n..];
    var (buffer, responses) := BackEndPop(l.buffer, chunk, body).value;
    var m, frames := Received(l, n, buffer, responses), Frames(l.buffer.data + chunk);
    BackEndPopFrames(l.buffer, chunk, body);
    SplitSound(l.buffer.data + chunk);
    SplitAppend(l.buffer.data + chunk, rest);
    Assoc(l.buffer.data, chunk, rest);
    assert chunk + rest == l.toBe;
    ResponseTags(frames, body);
    TagsAppend(l.fromBe, responses);
    TagsAppend(frames, Waiting(m));
    Assoc(TagsOf(l.fromBe), TagsOf(frames), TagsOf(Waiting(m)));
    BackEndRunNext(EMPTY_BUFFER, l.chunks, chunk, body);
  }

  lemma ReplyKeepsLink(l: Link, body: seq<byte>)
    requires LinkOk(l, body) && l.fromBe != []
    ensures InFlight(l) != [] && InFlight(l)[0] == TagOf(l.fromBe[0])
    ensures var m := Routed(l, TagOf(l.fromBe[0]));
            LinkOk(m, body) && InFlight(l) == [TagOf(l.fromBe[0])] + InFlight(m)
  {
    hide BackEndRun;
    hide Unfinished;
    hide Frames;
    hide Rest;
    hide TagOf;
    var client, m := TagOf(l.fromBe[0]), Routed(l, TagOf(l.fromBe[0]));
    assert l.fromBe == [l.fromBe[0]] + m.fromBe;
    TagsAppend([l.fromBe[0]], m.fromBe);
    assert InFlight(l) == [client] + InFlight(m);
    assert l.routed + ([client] + InFlight(m)) == (l.routed + [client]) + InFlight(m);
  }

  // ----- what the whole system keeps

  /** Everything in flight, on any link. */
  function Pending(links: seq<Link>): multiset<Qd> {
    if links == [] then multiset{} else multiset(InFlight(links[0])) + Pending(links[1..])
  }

  function Receivers(ms: seq<Message>): (r: seq<Qd>)
    ensures |r| == |ms|
  {
    seq(|ms|, i requires 0 <= i < |ms| => ms[i].to)
  }

  /** The queue, the connection table and the links tell of the same backends. */
  ghost predicate BackendsOk(s: System) {
    && NoDuplicates(s.fe.backends)
    && (forall qd :: qd in s.fe.backends <==> qd in s.fe.conns && s.fe.conns[qd])
    && (forall qd :: qd in s.fe.backends <==> exists i :: 0 <= i < |s.links| && s.links[i].qd == qd)
    && forall i, j :: 0 <= i < j < |s.links| ==> s.links[i].qd != s.links[j].qd
  }

  ghost predicate ClientsOk(s: System) {
    forall qd :: qd in s.accepted ==> qd in s.fe.conns && !s.fe.conns[qd] && qd < 0x8000_0000
  }

  ghost predicate LinksOk(s: System, body: seq<byte>) {
    forall i :: 0 <= i < |s.links| ==> LinkOk(s.links[i], body)
  }

  /** Every accepted request is answered or in flight, and nothing else is. */
  ghost predicate Conserved(s: System) {
    multiset(s.accepted) == multiset(Receivers(s.delivered)) + Pending(s.links)
  }

  ghost predicate Inv(s: System, body: seq<byte>) {
    && BackendsOk(s) && ClientsOk(s) && LinksOk(s, body) && Conserved(s)
    && forall i :: 0 <= i < |s.delivered| ==> s.delivered[i].data == body
  }

  lemma {:induction false} PendingUpdate(links: seq<Link>, i: nat, l: Link)
    requires i < |links|
    ensures Pending(links[i := l]) + multiset(InFlight(links[i])) == Pending(links) + multiset(InFlight(l))
  {
    hide InFlight;
    var m, t := links[i := l], links[1..];
    var before, after := multiset(InFlight(links[i])), multiset(InFlight(l));
    if i == 0 {
      assert m[1..] == t;
      assert Pending(m) == after + Pending(t) && Pending(links) == before + Pending(t);
      assert (after + Pending(t)) + before == (before + Pending(t)) + after;
    } else {
      PendingUpdate(t, i - 1, l);
      var head, u := multiset(InFlight(links[0])), t[i - 1 := l];
      assert m[1..] == u && t[i - 1] == links[i];
      assert Pending(m) == head + Pending(u) && Pending(links) == head + Pending(t);
      assert (head + Pending(u)) + before == head + (Pending(t) + after);
    }
  }

  lemma {:induction false} PendingAppend(links: seq<Link>, l: Link)
    ensures Pending(links + [l]) == Pending(links) + multiset(InFlight(l))
  {
    hide InFlight;
    if links == [] {
      assert (links + [l])[1..] == [];
    } else {
      assert (links + [l])[1..] == links[1..] + [l];
      PendingAppend(links[1..], l);
    }
  }

  lemma {:induction false} PendingHas(links: seq<Link>, i: nat, qd: Qd)
    requires i < |links| && qd in InFlight(links[i])
    ensures qd in Pending(links)
  {
    hide InFlight;
    if i > 0 {
      PendingHas(links[1..], i - 1, qd);
    }
  }

  lemma RequestIsNotMagic(req: seq<byte>)
    requires IsFrame(req)
    ensures |req| >= 4 && req != MAGIC
  {
    assert OccursAt(req, DELIMITER, |req| - 4);
    assert |req| == 4 ==> req == DELIMITER;
  }

  /** A link changes; its name does not. */
  lemma SameBackends(s: System, t: System, i: nat, m: Link)
    requires BackendsOk(s) && i < |s.links| && m.qd == s.links[i].qd && t.links == s.links[i := m]
    requires t.fe.conns == s.fe.conns
    requires t.fe.backends == s.fe.backends || (s.fe.backends != [] && t.fe.backends == Next(s.fe.backends, Dispatch))
    ensures BackendsOk(t)
  {
    assert forall qd :: qd in t.fe.backends <==> qd in s.fe.backends;
    assert forall j :: 0 <= j < |s.links| ==> t.links[j].qd == s.links[j].qd;
  }

  lemma RequestRuns(s: System, qd: Qd, req: seq<byte>, body: seq<byte>)
    requires Inv(s, body) && Enabled(s, Request(qd, req))
    ensures LinkOf(s.links, s.fe.backends[0]) < |s.links|
    ensures var i := LinkOf(s.links, s.fe.backends[0]);
            Apply(s, Request(qd, req), body)
              == Some(System(s.fe.(backends := Next(s.fe.backends, Dispatch)),
                             s.links[i := Dispatched(s.links[i], qd, EncodeTag(qd) + req)],
                             s.accepted + [qd], s.delivered))
  {
    hide IsFrame;
    hide LinkOk;
    hide Conserved;
    RequestIsNotMagic(req);
    assert s.fe.backends[0] in s.fe.backends;
  }

  lemma RequestKeeps(s: System, qd: Qd, req: seq<byte>, body: seq<byte>)
    requires Inv(s, body) && Enabled(s, Request(qd, req))
    ensures Apply(s, Request(qd, req), body).Some? && Inv(Apply(s, Request(qd, req), body).value, body)
  {
    hide LinkOk;
    hide Apply;
    hide BackendsOk;
    hide InFlight;
    hide Pending;
    assert qd < 0x8000_0000;
    hide Acceptable;
    hide EncodeTag;
    RequestRuns(s, qd, req, body);
    var i := LinkOf(s.links, s.fe.backends[0]);
    var l, m := s.links[i], Dispatched(s.links[i], qd, EncodeTag(qd) + req);
    var t := Apply(s, Request(qd, req), body).value;
    DispatchKeepsLink(l, qd, req, body);
    PendingUpdate(s.links, i, m);
    Cancel(Pending(s.links), Pending(t.links), multiset(InFlight(l)), multiset(InFlight(m)), multiset{qd});
    SameBackends(s, t, i, m);
  }

  /** A read that a backend's buffer has no room for: it is not one request met by an empty buffer, and
      does not fit behind what was read before. */
  predicate Overruns(s: System, step: Step)
    requires Enabled(s, step)
  {
    match step
    case Receive(i, n) =>
      var buffer, chunk := s.links[i].buffer, s.links[i].toBe[..n];
      !(buffer.data == [] && IsFrame(chunk)) && buffer.head + |chunk| > BUFSZ
    case _ => false
  }

  /** Whether a read overruns the buffer is known from what the backend read before. */
  lemma OverrunsIff(s: System, i: nat, n: nat, body: seq<byte>)
    requires LinksOk(s, body) && Enabled(s, Receive(i, n))
    ensures Overruns(s, Receive(i, n)) <==> !MigratedStream.Fits([], 0, Reads(s.links[i].chunks + [s.links[i].toBe[..n]]))
    ensures MigratedStream.Within([], 0, Reads(s.links[i].chunks + [s.links[i].toBe[..n]])) ==> !Overruns(s, Receive(i, n))
  {
    hide PushStep;
    hide IsFrame;
    hide BackEndRun;
    var l, chunk := s.links[i], s.links[i].toBe[..n];
    assert LinkOk(l, body);
    PushStepIsGreedySplit(l.buffer, chunk);
    BackEndRunNext(EMPTY_BUFFER, l.chunks, chunk, body);
    BackEndRunIff(EMPTY_BUFFER, l.chunks + [chunk], body);
  }

  lemma ReadPanicsIff(buffer: BufState, chunk: seq<byte>, body: seq<byte>)
    requires buffer.Settled()
    ensures BackEndPop(buffer, chunk, body) == None <==> !(buffer.data == [] && IsFrame(chunk)) && buffer.head + |chunk| > BUFSZ
  {
    hide PushStep;
    PushStepIsGreedySplit(buffer, chunk);
  }

  lemma ReceiveKeeps(s: System, i: nat, n: nat, body: seq<byte>)
    requires Inv(s, body) && Enabled(s, Receive(i, n))
    ensures Apply(s, Receive(i, n), body) == None <==> Overruns(s, Receive(i, n))
    ensures Apply(s, Receive(i, n), body).Some? ==> Inv(Apply(s, Receive(i, n), body).value, body)
  {
    hide BackendsOk;
    hide InFlight;
    hide Pending;
    hide IsFrame;
    hide BackEndPop;
    hide ReadsOk;
    hide Frames;
    hide Rest;
    hide Unfinished;
    var l, chunk := s.links[i], s.links[i].toBe[..n];
    assert LinkOk(l, body);
    ReadPanicsIff(l.buffer, chunk, body);
    if BackEndPop(l.buffer, chunk, body).Some? {
      ReceiveKeepsLink(l, n, body);
      var (buffer, responses) := BackEndPop(l.buffer, chunk, body).value;
      var m := Received(l, n, buffer, responses);
      var t := Apply(s, Receive(i, n), body).value;
      assert t == s.(links := s.links[i := m]);
      hide LinkOk;
      hide Apply;
      PendingUpdate(s.links, i, m);
      Cancel(Pending(s.links), Pending(t.links), multiset(InFlight(l)), multiset(InFlight(m)), multiset{});
      SameBackends(s, t, i, m);
    }
  }

  lemma ReplyRuns(s: System, i: nat, body: seq<byte>)
    requires Inv(s, body) && Enabled(s, Reply(i)) && body != []
    ensures var client := TagOf(s.links[i].fromBe[0]);
            && client in s.accepted
            && Apply(s, Reply(i), body)
                 == Some(System(s.fe, s.links[i := Routed(s.links[i], client)], s.accepted,
                                s.delivered + [Message(client, body)]))
  {
    hide InFlight;
    hide Pending;
    hide TagsOf;
    hide Frames;
    hide Rest;
    hide DecodeTag;
    var l := s.links[i];
    var m := l.fromBe[0];
    var client := TagOf(m);
    assert LinkOk(l, body) && IsResponse(m, body);
    ReplyKeepsLink(l, body);
    PendingHas(s.links, i, client);
    assert client in multiset(s.accepted);
    assert |m| > 4 && m != MAGIC;
    assert l.qd in s.fe.backends;
  }

  lemma ReplyKeeps(s: System, i: nat, body: seq<byte>)
    requires Inv(s, body) && Enabled(s, Reply(i)) && body != []
    ensures Apply(s, Reply(i), body).Some? && Inv(Apply(s, Reply(i), body).value, body)
  {
    hide LinkOk;
    hide Apply;
    hide BackendsOk;
    hide InFlight;
    hide Pending;
    hide TagOf;
    ReplyRuns(s, i, body);
    var l, client := s.links[i], TagOf(s.links[i].fromBe[0]);
    var m, t := Routed(l, client), Apply(s, Reply(i), body).value;
    ReplyKeepsLink(l, body);
    PendingUpdate(s.links, i, m);
    assert multiset(InFlight(l)) == multiset(InFlight(m)) + multiset{client};
    Cancel(Pending(t.links), Pending(s.links), multiset(InFlight(m)), multiset(InFlight(l)), multiset{client});
    SameBackends(s, t, i, m);
    assert Receivers(t.delivered) == Receivers(s.delivered) + [client];
  }

  lemma OneMoreBackend(s: System, t: System, l: Link)
    requires BackendsOk(s) && l.qd in s.fe.conns && !s.fe.conns[l.qd] && t.links == s.links + [l]
    requires t.fe.conns == s.fe.conns[l.qd := true] && t.fe.backends == s.fe.backends + [l.qd]
    ensures BackendsOk(t)
  {
    forall qd ensures qd in t.fe.backends <==> exists i :: 0 <= i < |t.links| && t.links[i].qd == qd {
      if qd in s.fe.backends {
        var i :| 0 <= i < |s.links| && s.links[i].qd == qd;
        assert t.links[i].qd == qd;
      }
      assert t.links[|s.links|].qd == l.qd;
    }
  }

  lemma NewLinkOk(qd: Qd, body: seq<byte>)
    ensures var l := Link(qd, [], EMPTY_BUFFER, [], [], [], []); LinkOk(l, body) && InFlight(l) == []
  {
    UnfinishedSplit([]);
    assert EMPTY_BUFFER.data + [] == [];
  }

  lemma RegisterKeeps(s: System, qd: Qd, body: seq<byte>)
    requires Inv(s, body) && Enabled(s, Register(qd))
    ensures Apply(s, Register(qd), body).Some? && Inv(Apply(s, Register(qd), body).value, body)
  {
    hide Pending;
    var l := Link(qd, [], EMPTY_BUFFER, [], [], [], []);
    var t := Apply(s, Register(qd), body).value;
    NewLinkOk(qd, body);
    hide LinkOk;
    hide InFlight;
    PendingAppend(s.links, l);
    assert t.links == s.links + [l] && t.fe.backends == s.fe.backends + [qd];
    hide Apply;
    OneMoreBackend(s, t, l);
    hide BackendsOk;
  }

  lemma ConnectKeeps(s: System, qd: Qd, body: seq<byte>)
    requires Inv(s, body) && Enabled(s, Connect(qd))
    ensures Apply(s, Connect(qd), body).Some? && Inv(Apply(s, Connect(qd), body).value, body)
  {
    hide Pending;
    hide LinkOk;
  }

  // ----- whole runs

  /** Every step is possible when its turn comes. */
  predicate Possible(s: System, steps: seq<Step>, body: seq<byte>)
    decreases |steps|
  {
    steps == [] ||
    (Enabled(s, steps[0]) && (Apply(s, steps[0], body).Some? ==> Possible(Apply(s, steps[0], body).value, steps[1..], body)))
  }

  /** The system after a run; `None` if some step panics. */
  function Run(s: System, steps: seq<Step>, body: seq<byte>): Option<System>
    requires Possible(s, steps, body)
    decreases |steps|
  {
    if steps == [] then Some(s)
    else if Apply(s, steps[0], body).None? then None
    else Run(Apply(s, steps[0], body).value, steps[1..], body)
  }

  /** A step panics exactly when it is a read that overruns its buffer; any other keeps the invariant. */
  lemma StepKeepsInv(s: System, step: Step, body: seq<byte>)
    requires Inv(s, body) && Enabled(s, step) && body != []
    ensures Apply(s, step, body) == None <==> Overruns(s, step)
    ensures Apply(s, step, body).Some? ==> Inv(Apply(s, step, body).value, body)
  {
    hide Inv;
    hide Enabled;
    hide Apply;
    match step
    case Connect(qd) => ConnectKeeps(s, qd, body);
    case Register(qd) => RegisterKeeps(s, qd, body);
    case Request(qd, req) => RequestKeeps(s, qd, req, body);
    case Receive(i, n) => ReceiveKeeps(s, i, n, body);
    case Reply(i) => ReplyKeeps(s, i, body);
  }

  lemma StartInv(body: seq<byte>)
    ensures Inv(START, body)
  {
    assert Receivers([]) == [];
  }

  lemma {:induction false} RunKeepsInv(s: System, steps: seq<Step>, body: seq<byte>)
    requires Inv(s, body) && Possible(s, steps, body) && body != []
    ensures Run(s, steps, body).Some? ==> Inv(Run(s, steps, body).value, body)
    decreases |steps|
  {
    hide Inv;
    hide Enabled;
    hide Apply;
    if steps != [] {
      StepKeepsInv(s, steps[0], body);
      if Apply(s, steps[0], body).Some? {
        RunKeepsInv(Apply(s, steps[0], body).value, steps[1..], body);
      }
    }
  }

  /** The run reaches its `j`-th step, and that overruns a buffer. */
  ghost predicate OverrunAt(s: System, steps: seq<Step>, body: seq<byte>, j: nat) {
    && j < |steps| && Possible(s, steps[..j], body) && Run(s, steps[..j], body).Some?
    && Enabled(Run(s, steps[..j], body).value, steps[j]) && Overruns(Run(s, steps[..j], body).value, steps[j])
  }

  lemma OverrunLater(s: System, steps: seq<Step>, body: seq<byte>, j: nat)
    requires steps != [] && Enabled(s, steps[0]) && Apply(s, steps[0], body).Some?
    ensures OverrunAt(s, steps, body, j + 1) <==> OverrunAt(Apply(s, steps[0], body).value, steps[1..], body, j)
  {
    hide Enabled;
    hide Apply;
    hide Overruns;
    if j + 1 < |steps| {
      assert steps[..j + 1][1..] == steps[1..][..j] && steps[..j + 1][0] == steps[0];
    }
  }

  lemma OverrunNow(s: System, steps: seq<Step>, body: seq<byte>)
    requires steps != [] && Enabled(s, steps[0])
    ensures OverrunAt(s, steps, body, 0) <==> Overruns(s, steps[0])
  {
    hide Enabled;
    hide Overruns;
    assert steps[..0] == [];
  }

  /** A run panics exactly when a backend, at some step, reads more than its buffer has room for. */
  lemma {:induction false} RunPanicsIff(s: System, steps: seq<Step>, body: seq<byte>)
    requires Inv(s, body) && Possible(s, steps, body) && body != []
    ensures Run(s, steps, body) == None <==> exists j: nat :: OverrunAt(s, steps, body, j)
    decreases |steps|
  {
    hide Inv;
    hide Enabled;
    hide Apply;
    hide Overruns;
    hide OverrunAt;
    if steps == [] {
      NoStepNoOverrun(s, body);
    } else {
      StepKeepsInv(s, steps[0], body);
      OverrunNow(s, steps, body);
      if Apply(s, steps[0], body).Some? {
        var t := Apply(s, steps[0], body).value;
        RunPanicsIff(t, steps[1..], body);
        forall j: nat ensures OverrunAt(s, steps, body, j + 1) <==> OverrunAt(t, steps[1..], body, j) {
          OverrunLater(s, steps, body, j);
        }
        if j: nat :| OverrunAt(s, steps, body, j) {
          assert OverrunAt(t, steps[1..], body, j - 1);
        }
        if j: nat :| OverrunAt(t, steps[1..], body, j) {
          assert OverrunAt(s, steps, body, j + 1);
        }
      }
    }
  }

  lemma NoStepNoOverrun(s: System, body: seq<byte>)
    ensures forall j: nat :: !OverrunAt(s, [], body, j)
  {
  }

  /** No read takes the bytes a backend copied since its buffer was last empty beyond the buffer's size. */
  ghost predicate BoundedReads(s: System, steps: seq<Step>, body: seq<byte>) {
    forall j: nat | j < |steps| && Possible(s, steps[..j], body) && Run(s, steps[..j], body).Some? ::
      ReadWithin(Run(s, steps[..j], body).value, steps[j])
  }

  ghost predicate ReadWithin(s: System, step: Step) {
    step.Receive? && Enabled(s, step) ==>
      MigratedStream.Within([], 0, Reads(s.links[step.link].chunks + [s.links[step.link].toBe[..step.n]]))
  }

  /** Under that bound no run panics. */
  lemma BoundedRunsGoThrough(s: System, steps: seq<Step>, body: seq<byte>)
    requires Inv(s, body) && Possible(s, steps, body) && body != [] && BoundedReads(s, steps, body)
    ensures Run(s, steps, body).Some?
  {
    hide Possible;
    hide Run;
    hide LinkOk;
    RunPanicsIff(s, steps, body);
    forall j: nat ensures !OverrunAt(s, steps, body, j) {
      if j < |steps| && Possible(s, steps[..j], body) && Run(s, steps[..j], body).Some? {
        var t := Run(s, steps[..j], body).value;
        RunKeepsInv(s, steps[..j], body);
        assert ReadWithin(t, steps[j]);
        if steps[j].Receive? && Enabled(t, steps[j]) {
          OverrunsIff(t, steps[j].link, steps[j].n, body);
        }
      }
    }
  }

  /** The clients whose requests a run accepts, in order. */
  function Requesters(steps: seq<Step>): seq<Qd> {
    if steps == [] then [] else (if steps[0].Request? then [steps[0].qd] else []) + Requesters(steps[1..])
  }

  lemma StepAccepts(s: System, step: Step, body: seq<byte>)
    requires Enabled(s, step) && Apply(s, step, body).Some?
    ensures Apply(s, step, body).value.accepted == s.accepted + if step.Request? then [step.qd] else []
  {
    hide FrontEndPop;
    hide BackEndPop;
    hide IsFrame;
    assert s.accepted + [] == s.accepted;
  }

  lemma {:induction false} RunAccepts(s: System, steps: seq<Step>, body: seq<byte>)
    requires Possible(s, steps, body) && Run(s, steps, body).Some?
    ensures Run(s, steps, body).value.accepted == s.accepted + Requesters(steps)
    decreases |steps|
  {
    if steps == [] {
      assert s.accepted + [] == s.accepted;
    } else {
      FirstStep(s, steps, body);
      StepAccepts(s, steps[0], body);
      RunAccepts(Apply(s, steps[0], body).value, steps[1..], body);
      hide Run;
      hide Possible;
      hide Apply;
      hide Enabled;
      Assoc(s.accepted, if steps[0].Request? then [steps[0].qd] else [], Requesters(steps[1..]));
    }
  }

  /** Whatever happens, unless a backend overruns its buffer nothing panics; each client's accepted
      requests are its responses plus what is still in flight for it; it never gets more responses than
      it asked for, and only what backends said. */
  lemma RequestsConserved(steps: seq<Step>, body: seq<byte>, client: Qd)
    requires Possible(START, steps, body) && body != []
    ensures Run(START, steps, body) == None <==> exists j: nat :: OverrunAt(START, steps, body, j)
    ensures Run(START, steps, body).Some? ==>
              var t := Run(START, steps, body).value;
              && t.accepted == Requesters(steps)
              && multiset(t.accepted)[client] == multiset(Receivers(t.delivered))[client] + Pending(t.links)[client]
              && (client !in t.accepted ==> client !in Receivers(t.delivered))
              && forall i :: 0 <= i < |t.delivered| ==> t.delivered[i].data == body
  {
    hide Run;
    hide Possible;
    hide Pending;
    StartInv(body);
    RunKeepsInv(START, steps, body);
    RunPanicsIff(START, steps, body);
    if Run(START, steps, body).Some? {
      var t := Run(START, steps, body).value;
      RunAccepts(START, steps, body);
      assert [] + Requesters(steps) == Requesters(steps);
      assert multiset(t.accepted)[client] == (multiset(Receivers(t.delivered)) + Pending(t.links))[client];
      assert client in Receivers(t.delivered) ==> client in multiset(t.accepted);
    }
  }

  /** Each backend's clients are answered in the order in which their requests were dispatched to it. */
  lemma BackendsAnswerInOrder(steps: seq<Step>, body: seq<byte>, i: nat)
    requires Possible(START, steps, body) && body != []
    ensures Run(START, steps, body).Some? && i < |Run(START, steps, body).value.links| ==>
              var l := Run(START, steps, body).value.links[i];
              l.routed <= l.dispatched && l.dispatched[|l.routed|..] == InFlight(l)
  {
    hide Run;
    hide Possible;
    hide InFlight;
    hide Frames;
    hide Rest;
    hide BackendsOk;
    hide ClientsOk;
    hide Conserved;
    StartInv(body);
    RunKeepsInv(START, steps, body);
    if Run(START, steps, body).Some? && i < |Run(START, steps, body).value.links| {
      assert LinkOk(Run(START, steps, body).value.links[i], body);
    }
  }

  lemma {:induction false} NothingPending(links: seq<Link>, body: seq<byte>)
    requires forall i :: 0 <= i < |links| ==> LinkOk(links[i], body) && links[i].toBe == [] && links[i].fromBe == []
    ensures Pending(links) == multiset{}
  {
    if links != [] {
      var l := links[0];
      assert l.buffer.data + l.toBe == l.buffer.data;
      UnfinishedSplit(l.buffer.data);
      assert InFlight(l) == [];
      NothingPending(links[1..], body);
    }
  }

  /** Once the channels are empty every accepted request has been answered: no backend holds one back. */
  lemma DrainedMeansAnswered(s: System, body: seq<byte>)
    requires Inv(s, body) && forall i :: 0 <= i < |s.links| ==> s.links[i].toBe == [] && s.links[i].fromBe == []
    ensures multiset(s.accepted) == multiset(Receivers(s.delivered))
  {
    hide LinkOk;
    hide BackendsOk;
    NothingPending(s.links, body);
  }

  // ----- balance over whole runs

  /** What a run does to the queue of backends. */
  function OpsOf(step: Step): seq<Op> {
    match step
    case Register(qd) => [Join(qd)]
    case Request(_, _) => [Dispatch]
    case _ => []
  }

  function Ops(steps: seq<Step>): seq<Op> {
    if steps == [] then [] else OpsOf(steps[0]) + Ops(steps[1..])
  }

  function NextQueue(q: seq<Qd>, step: Step): (r: seq<Qd>)
    requires q != []
    ensures r != []
  {
    if OpsOf(step) == [] then q else Next(q, OpsOf(step)[0])
  }

  lemma StepOps(s: System, step: Step, body: seq<byte>, i: nat)
    requires Inv(s, body) && Enabled(s, step) && body != [] && i < |s.links| && Apply(s, step, body).Some?
    ensures var t, a := Apply(s, step, body).value, s.links[i].qd;
            && i < |t.links| && t.links[i].qd == a
            && s.fe.backends != [] && t.fe.backends == NextQueue(s.fe.backends, step)
            && |t.links[i].dispatched| - |s.links[i].dispatched|
               == (if step.Request? && s.fe.backends[0] == a then 1 else 0)
            && (step.Register? ==> step.qd != a)
  {
    hide LinkOk;
    hide ClientsOk;
    hide Conserved;
    hide IsFrame;
    StepKeepsInv(s, step, body);
    assert s.links[i].qd in s.fe.backends;
    match step
    case Connect(qd) =>
    case Register(qd) =>
    case Request(qd, req) => RequestRuns(s, qd, req, body);
    case Receive(_, _) =>
    case Reply(j) => ReplyRuns(s, j, body);
  }

  lemma NoOps(q: seq<Qd>, a: Qd)
    ensures After(q, []) == q && Count(Log(q, []), a) == 0 && Fresh([], a, a)
  {
  }

  lemma PrependOp(q: seq<Qd>, op: Op, ops: seq<Op>, a: Qd)
    requires q != [] && Fresh(ops, a, a) && (op.Join? ==> op.backend != a)
    ensures After(q, [op] + ops) == After(Next(q, op), ops)
    ensures Count(Log(q, [op] + ops), a)
         == (if op.Dispatch? && q[0] == a then 1 else 0) + Count(Log(Next(q, op), ops), a)
    ensures Fresh([op] + ops, a, a)
  {
    assert ([op] + ops)[1..] == ops;
    var log := Log(Next(q, op), ops);
    assert Log(q, [op] + ops) == (if op.Dispatch? then [q[0]] else []) + log;
    if op.Dispatch? { assert ([q[0]] + log)[1..] == log; } else { assert [] + log == log; }
  }

  lemma PrependStep(q: seq<Qd>, step: Step, ops: seq<Op>, a: Qd)
    requires q != [] && Fresh(ops, a, a) && (step.Register? ==> step.qd != a)
    ensures After(q, OpsOf(step) + ops) == After(NextQueue(q, step), ops)
    ensures Count(Log(q, OpsOf(step) + ops), a)
         == (if step.Request? && q[0] == a then 1 else 0) + Count(Log(NextQueue(q, step), ops), a)
    ensures Fresh(OpsOf(step) + ops, a, a)
  {
    if OpsOf(step) == [] {
      assert OpsOf(step) + ops == ops;
    } else {
      PrependOp(q, OpsOf(step)[0], ops, a);
      assert OpsOf(step) == [OpsOf(step)[0]];
    }
    hide After;
    hide Log;
    hide Next;
    hide Fresh;
  }

  lemma FirstStep(s: System, steps: seq<Step>, body: seq<byte>)
    requires steps != [] && Possible(s, steps, body) && Run(s, steps, body).Some?
    ensures Enabled(s, steps[0]) && Apply(s, steps[0], body).Some?
    ensures var t := Apply(s, steps[0], body).value;
            Possible(t, steps[1..], body) && Run(t, steps[1..], body) == Run(s, steps, body)
  {
    hide Enabled;
    hide Apply;
  }

  /** The requests dispatched to a backend during a run are its turns in the round robin. */
  lemma {:induction false} RunIsRoundRobin(s: System, steps: seq<Step>, body: seq<byte>, i: nat)
    requires Inv(s, body) && Possible(s, steps, body) && body != [] && i < |s.links| && Run(s, steps, body).Some?
    ensures s.fe.backends != []
    ensures var t, a, ops := Run(s, steps, body).value, s.links[i].qd, Ops(steps);
            && i < |t.links| && t.links[i].qd == a && t.fe.backends == After(s.fe.backends, ops)
            && |t.links[i].dispatched| - |s.links[i].dispatched| == Count(Log(s.fe.backends, ops), a)
            && Fresh(ops, a, a)
    decreases |steps|
  {
    assert s.links[i].qd in s.fe.backends;
    hide Inv;
    hide Enabled;
    hide Apply;
    hide Count;
    NoOps(s.fe.backends, s.links[i].qd);
    hide After;
    hide Log;
    hide Next;
    hide Fresh;
    hide OpsOf;
    hide NextQueue;
    if steps != [] {
      var step, rest, a := steps[0], Ops(steps[1..]), s.links[i].qd;
      FirstStep(s, steps, body);
      hide Run;
      hide Possible;
      StepOps(s, step, body, i);
      StepKeepsInv(s, step, body);
      RunIsRoundRobin(Apply(s, step, body).value, steps[1..], body, i);
      PrependStep(s.fe.backends, step, rest, a);
    }
  }

  /** From any moment on, two registered backends are given equally many requests, give or take one. */
  lemma LoadIsBalanced(s: System, steps: seq<Step>, body: seq<byte>, i: nat, j: nat)
    requires Inv(s, body) && Possible(s, steps, body) && body != [] && i < |s.links| && j < |s.links|
    requires Run(s, steps, body).Some?
    ensures var t := Run(s, steps, body).value;
            && i < |t.links| && j < |t.links|
            && -1 <= (|t.links[i].dispatched| - |s.links[i].dispatched|)
                     - (|t.links[j].dispatched| - |s.links[j].dispatched|) <= 1
  {
    hide Run;
    hide Possible;
    hide LinkOk;
    RunIsRoundRobin(s, steps, body, i);
    RunIsRoundRobin(s, steps, body, j);
    assert s.links[i].qd in s.fe.backends && s.links[j].qd in s.fe.backends;
    DispatchCountsWithinOne(s.fe.backends, Ops(steps), s.links[i].qd, s.links[j].qd);
  }
}
