/** Application state of one connection and its journey to another host
    (`SessionData`, `ConnectionState`; `TcpState::serialize` and `deserialize` around them). */
module Connection {
  import opened Bytes
  import opened StreamBuffer
  import opened Fragmentation

  datatype SessionData = SessionData(data: seq<byte>)

  datatype Conn = Conn(buffer: BufState, session: SessionData)

  /** `SessionData::new`. */
  function NewSession(size: nat): SessionData {
    SessionData(seq(size, _ => 5))
  }

  /** The length goes through the cast `as u32`; the bytes are all copied. */
  function EncodeSession(s: SessionData): (e: seq<byte>)
    ensures |e| == 4 + |s.data|
  {
    EncodeU32(|s.data|) + s.data
  }

  /** `SessionData::deserialize` on a slice; `None` is a panic. */
  function DecodeSession(src: seq<byte>): Option<SessionData> {
    if |src| < 4 then None else
    var size := DecodeU32(src[..4]);
    if 4 + size > |src| then None else Some(SessionData(src[4..4 + size]))
  }

  function EncodeConn(c: Conn): (e: seq<byte>)
    ensures |e| == 8 + |c.buffer.data| + |c.session.data|
  {
    EncodeBuffer(c.buffer.data) + EncodeSession(c.session)
  }

  function DecodeConn(src: seq<byte>): Option<Conn> {
    match DecodeBuffer(src)
    case None => None
    case Some(buffer) =>
      match DecodeSession(src[4 + |buffer.data|..])
      case None => None
      case Some(session) => Some(Conn(buffer, session))
  }

  /** A connection as the target host first holds it: its unread bytes at the front of the buffer. */
  function Compacted(c: Conn): Conn {
    c.(buffer := BufState(|c.buffer.data|, c.buffer.data))
  }

  lemma BufferRoundTrip(data: seq<byte>, trailing: seq<byte>)
    requires |data| <= BUFSZ
    ensures DecodeBuffer(EncodeBuffer(data) + trailing) == Some(BufState(|data|, data))
  {
    var src := EncodeBuffer(data) + trailing;
    U32RoundTrip(|data|);
    assert src[..4] == EncodeU32(|data|);
    assert src[4..4 + |data|] == data;
  }

  lemma SessionRoundTrip(s: SessionData, trailing: seq<byte>)
    ensures DecodeSession(EncodeSession(s) + trailing) == Some(SessionData(s.data[..|s.data| % TWO_32]))
  {
    var src, size := EncodeSession(s) + trailing, |s.data| % TWO_32;
    U32RoundTrip(|s.data|);
    assert src[..4] == EncodeU32(|s.data|);
    assert src[4..4 + size] == s.data[..size];
  }

  /** Wherever the unread bytes sat and whatever follows the encoding, decoding restores them; session
      data (and so the encoded size) survives exactly when its length fits in 32 bits. */
  lemma ConnRoundTrip(c: Conn, trailing: seq<byte>)
    requires |c.buffer.data| <= BUFSZ
    ensures DecodeConn(EncodeConn(c) + trailing).Some?
    ensures var d := DecodeConn(EncodeConn(c) + trailing).value;
            && d.buffer == Compacted(c).buffer
            && (|c.session.data| < TWO_32 <==> d.session == c.session)
            && (|c.session.data| < TWO_32 <==> |EncodeConn(d)| == |EncodeConn(c)|)
            && (|c.session.data| < TWO_32 <==> d == Compacted(c))
  {
    hide EncodeU32;
    hide DecodeBuffer;
    hide DecodeSession;
    hide EncodeBuffer;
    hide EncodeSession;
    var data, tail := c.buffer.data, EncodeSession(c.session) + trailing;
    Assoc(EncodeBuffer(data), EncodeSession(c.session), trailing);
    BufferRoundTrip(data, tail);
    SessionRoundTrip(c.session, trailing);
    assert (EncodeBuffer(data) + tail)[4 + |data|..] == tail;
  }

  /** The bytes on the wire, in order: the number of unread bytes, these, the session's length, its data. */
  lemma EncodingLayout(c: Conn)
    ensures EncodeConn(c) == EncodeU32(|c.buffer.data|) + (c.buffer.data + (EncodeU32(|c.session.data|) + c.session.data))
  {
    Assoc(EncodeU32(|c.buffer.data|), c.buffer.data, EncodeU32(|c.session.data|) + c.session.data);
  }

  // ----- through the network

  /** What the origin sends: TCP control block, a byte that announces application state, the state. */
  function MigrationPayload(controlBlock: seq<byte>, c: Conn): seq<byte> {
    controlBlock + [1] + EncodeConn(c)
  }

  /** What the target makes of a reassembled payload whose control block takes `size` bytes. */
  function ApplicationStateOf(size: nat, payload: seq<byte>): Option<Conn> {
    if |payload| <= size || payload[size] == 0 then None else DecodeConn(payload[size + 1..])
  }

  /** The state the target host decodes is the origin's state, unread bytes moved to the front, in
      whatever order the packets arrive, and also on a defragmenter that has been used before. */
  lemma MigrationPreservesConnection(c: Conn, controlBlock: seq<byte>, order: seq<nat>, stale: nat)
    requires |c.buffer.data| <= BUFSZ
    requires |MigrationPayload(controlBlock, c)| <= (U16_COUNT - 1) * MAX_FRAGMENT_SIZE
    requires Delivers(order, |Pieces(MigrationPayload(controlBlock, c))|)
    ensures |Fragments(MigrationPayload(controlBlock, c), 0)| == |Pieces(MigrationPayload(controlBlock, c))|
    ensures var r := Receive(Reset(stale), Arrivals(Fragments(MigrationPayload(controlBlock, c), 0), order));
            r.Complete? && ApplicationStateOf(|controlBlock|, r.payload) == Some(Compacted(c))
  {
    var p := MigrationPayload(controlBlock, c);
    ReassemblyInAnyOrder(p, order, stale);
    StripControlBlock(c, controlBlock, []);
    StripControlBlock(c, controlBlock, Zeros(stale));
    assert p + [] == p;
  }

  lemma StripControlBlock(c: Conn, controlBlock: seq<byte>, trailing: seq<byte>)
    requires |c.buffer.data| <= BUFSZ && |c.session.data| < TWO_32
    ensures ApplicationStateOf(|controlBlock|, MigrationPayload(controlBlock, c) + trailing) == Some(Compacted(c))
  {
    var p := MigrationPayload(controlBlock, c) + trailing;
    assert p[|controlBlock| + 1..] == EncodeConn(c) + trailing;
    ConnRoundTrip(c, trailing);
  }

  // ----- the code

  class ConnectionState {
    const buffer: Buffer
    const sessionData: SessionData

    ghost predicate Valid()
      reads buffer
    {
      buffer.Valid()
    }

    ghost function Value(): Conn
      requires Valid()
      reads buffer, buffer.buf
    {
      Conn(buffer.Value(), sessionData)
    }

    constructor (buffer: Buffer, sessionData: SessionData)
      ensures this.buffer == buffer && this.sessionData == sessionData
    {
      this.buffer, this.sessionData := buffer, sessionData;
    }

    function SerializedSize(): nat
      requires Valid()
      reads buffer
    {
      buffer.SerializedSize() + (4 + |sessionData.data|)
    }

    /** Writes the encoding at the front of `dst` and nothing behind it. */
    method Serialize(dst: array<byte>)
      requires Valid() && dst != buffer.buf && SerializedSize() <= dst.Length
      modifies dst
      ensures dst[..] == EncodeConn(Value()) + old(dst[SerializedSize()..])
    {
      hide EncodeU32;
      hide EncodeSession;
      hide EncodeBuffer;
      ghost var c := Value();
      var split := buffer.SerializedSize();
      ghost var behind := dst[split..];
      buffer.Serialize(dst, 0, split);
      assert dst[..split] == EncodeBuffer(c.buffer.data) && dst[split..] == behind;
      SerializeSession(sessionData, dst, split);
      Assoc(EncodeBuffer(c.buffer.data), EncodeSession(sessionData), behind[4 + |sessionData.data|..]);
      assert behind[4 + |sessionData.data|..] == old(dst[SerializedSize()..]);
    }

    static method Deserialize(src: seq<byte>) returns (state: ConnectionState)
      requires DecodeConn(src).Some?
      ensures fresh(state) && fresh(state.buffer) && fresh(state.buffer.buf)
      ensures state.Valid() && state.Value() == DecodeConn(src).value
    {
      hide DecodeBuffer;
      hide DecodeSession;
      var buffer := Buffer.Deserialize(src);
      var sessionData := DeserializeSession(src[buffer.SerializedSize()..]);
      state := new ConnectionState(buffer, sessionData);
    }
  }

  /** `SessionData::serialize` into the slice that starts at `lo`. */
  method SerializeSession(s: SessionData, dst: array<byte>, lo: nat)
    requires lo + 4 + |s.data| <= dst.Length
    modifies dst
    ensures dst[..] == old(dst[..lo]) + EncodeSession(s) + old(dst[lo + 4 + |s.data|..])
  {
    hide EncodeU32;
    var size := EncodeU32(|s.data|);
    forall i | 0 <= i < 4 {
      dst[lo + i] := size[i];
    }
    forall i | 0 <= i < |s.data| {
      dst[lo + 4 + i] := s.data[i];
    }
  }

  method DeserializeSession(src: seq<byte>) returns (s: SessionData)
    requires DecodeSession(src).Some?
    ensures Some(s) == DecodeSession(src)
  {
    var size := DecodeU32(src[0..4]);
    s := SessionData(src[4..4 + size]);
  }
}
