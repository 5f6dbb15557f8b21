/** The proxy's front end: it tags a client's request with the client's descriptor, passes it to the
    next backend, and routes a backend's response by the tag. */
module ProxyFrontEnd {
  import opened Bytes
  import opened Framing
  import opened RoundRobin

  const MAGIC: seq<byte> := [0xCA, 0xFE, 0xDE, 0xAD]
  const TMPBUF: nat := 1024

  /** `i32::to_be_bytes` of a descriptor cut to 32 bits. */
  function EncodeTag(qd: Qd): (t: seq<byte>)
    ensures |t| == 4
  {
    EncodeU32(qd)
  }

  /** `i32::from_be_bytes`, widened to a descriptor with its sign. */
  function DecodeTag(t: seq<byte>): Qd
    requires |t| == 4
  {
    var v := DecodeU32(t);
    if v < 0x8000_0000 then v else v - TWO_32 + TWO_64
  }

  /** A descriptor survives the tag exactly when it fits in a signed 32-bit integer. */
  lemma TagRoundTrip(qd: Qd)
    requires qd < TWO_64
    ensures DecodeTag(EncodeTag(qd)) == qd <==> qd < 0x8000_0000 || qd >= TWO_64 - 0x8000_0000
  {
    hide EncodeU32;
    hide DecodeU32;
    U32RoundTrip(qd);
    SignExtension(qd, qd % TWO_32);
  }

  lemma SignExtension(qd: Qd, v: nat)
    requires qd < TWO_64 && v == qd % TWO_32
    ensures (if v < 0x8000_0000 then v else v - TWO_32 + TWO_64) == qd <==> qd < 0x8000_0000 || qd >= TWO_64 - 0x8000_0000
  {
    var k := qd / TWO_32;
    assert qd == k * TWO_32 + v && 0 <= k < TWO_32;
  }

  /** No terminator spans the tag and the request behind it. */
  predicate TagSafe(tag: seq<byte>, req: seq<byte>)
    requires |tag| == 4 && |req| >= 4
  {
    && !(tag[0] == 13 && tag[1] == 10 && tag[2] == 13 && tag[3] == 10)
    && !(tag[1] == 13 && tag[2] == 10 && tag[3] == 13 && req[0] == 10)
    && !(tag[2] == 13 && tag[3] == 10 && req[0] == 13 && req[1] == 10)
    && !(tag[3] == 13 && req[0] == 10 && req[1] == 13 && req[2] == 10)
  }

  lemma OccursBytes(s: seq<byte>, j: nat)
    requires j + 4 <= |s|
    ensures OccursAt(s, DELIMITER, j) <==> s[j] == 13 && s[j + 1] == 10 && s[j + 2] == 13 && s[j + 3] == 10
  {
    var w := s[j..j + 4];
    assert w[0] == s[j] && w[1] == s[j + 1] && w[2] == s[j + 2] && w[3] == s[j + 3];
    if s[j] == 13 && s[j + 1] == 10 && s[j + 2] == 13 && s[j + 3] == 10 {
      assert w == DELIMITER;
    }
  }

  lemma OccursBehind(tag: seq<byte>, req: seq<byte>, j: nat)
    requires |tag| <= j
    ensures OccursAt(tag + req, DELIMITER, j) == OccursAt(req, DELIMITER, j - |tag|)
  {
    if j + 4 <= |tag| + |req| {
      assert (tag + req)[j..j + 4] == req[j - |tag|..j - |tag| + 4];
    }
  }

  /** A tagged request is one frame for the backend exactly when no terminator spans the tag. */
  lemma TaggedFrame(tag: seq<byte>, req: seq<byte>)
    requires |tag| == 4 && IsFrame(req)
    ensures IsFrame(tag + req) <==> TagSafe(tag, req)
  {
    hide OccursAt;
    var f := tag + req;
    OccursBytes(f, 0);
    OccursBytes(f, 1);
    OccursBytes(f, 2);
    OccursBytes(f, 3);
    forall j | 4 <= j ensures OccursAt(f, DELIMITER, j) == OccursAt(req, DELIMITER, j - 4) {
      OccursBehind(tag, req, j);
    }
    assert TagSafe(tag, req) <==> forall j :: 0 <= j < 4 ==> !OccursAt(f, DELIMITER, j);
    assert OccursAt(f, DELIMITER, |f| - 4);
  }

  /** A request that begins with neither CR nor LF can only clash with the tag 0x0D0A0D0A. */
  lemma OrdinaryRequestIsSafe(tag: seq<byte>, req: seq<byte>)
    requires |tag| == 4 && IsFrame(req) && req[0] != 13 && req[0] != 10
    ensures IsFrame(tag + req) <==> tag != DELIMITER
  {
    TaggedFrame(tag, req);
    OccursBytes(tag, 0);
    assert tag[0..4] == tag;
  }

  /** `conns` tells of each connection whether it is a backend. */
  datatype FrontEnd = FrontEnd(conns: map<Qd, bool>, backends: seq<Qd>)

  datatype Message = Message(to: Qd, data: seq<byte>)

  function FrontEndAccept(fe: FrontEnd, newQd: Qd): FrontEnd {
    fe.(conns := fe.conns[newQd := false])
  }

  /** One popped packet: the new state and the message pushed, if any; `None` is a panic. A message to
      an unknown connection and an empty message are refused by the LibOS, which panics too. */
  function FrontEndPop(fe: FrontEnd, qd: Qd, buf: seq<byte>): Option<(FrontEnd, Option<Message>)> {
    if qd !in fe.conns then None
    else if buf == MAGIC then
      Some((FrontEnd(fe.conns[qd := true], Next(fe.backends, Join(qd))), Option.None))
    else if fe.conns[qd] then
      if |buf| <= 4 || DecodeTag(buf[..4]) !in fe.conns then None
      else Some((fe, Option.Some(Message(DecodeTag(buf[..4]), buf[4..]))))
    else if fe.backends == [] || 4 + |buf| > TMPBUF then None
    else Some((fe.(backends := Next(fe.backends, Dispatch)), Option.Some(Message(fe.backends[0], EncodeTag(qd) + buf))))
  }

  class FrontEndLoop {
    var connstate: map<Qd, bool>
    var backends: seq<Qd>
    const tmpbuf: array<byte>

    ghost predicate Valid()
      reads this
    {
      tmpbuf.Length == TMPBUF
    }

    ghost function State(): FrontEnd
      reads this
    {
      FrontEnd(connstate, backends)
    }

    constructor ()
      ensures Valid() && fresh(tmpbuf) && State() == FrontEnd(map[], [])
    {
      connstate, backends := map[], [];
      tmpbuf := new byte[TMPBUF](_ => 0);
    }

    method AcceptCompleted(newQd: Qd)
      requires Valid()
      modifies this`connstate
      ensures Valid() && State() == FrontEndAccept(old(State()), newQd)
    {
      connstate := connstate[newQd := false];
    }

    method PopCompleted(qd: Qd, buf: seq<byte>) returns (pushed: Option<Message>)
      requires Valid() && FrontEndPop(State(), qd, buf).Some?
      modifies this`connstate, this`backends, tmpbuf
      ensures Valid() && Some((State(), pushed)) == FrontEndPop(old(State()), qd, buf)
    {
      if buf == MAGIC {
        backends := backends + [qd];
        connstate := connstate[qd := true];
        return None;
      }
      if connstate[qd] {
        var client := DecodeTag(buf[0..4]);
        return Some(Message(client, buf[4..]));
      }
      var be := backends[0];
      backends := backends[1..];
      backends := backends + [be];
      var tag := EncodeTag(qd);
      forall i | 0 <= i < 4 {
        tmpbuf[i] := tag[i];
      }
      forall i | 0 <= i < |buf| {
        tmpbuf[4 + i] := buf[i];
      }
      assert tmpbuf[0..4 + |buf|] == tag + buf;
      pushed := Some(Message(be, tmpbuf[0..4 + |buf|]));
    }
  }
}
