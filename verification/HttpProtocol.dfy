/** The HTTP server's event loop as a state machine over completions of outstanding operations. */
module HttpProtocol {
  import opened Bytes
  import opened Framing
  import opened StreamBuffer
  import opened Connection
  import opened Tokens

  type Qd = nat

  /** An outstanding operation. */
  datatype Token = Accept | Pop(qd: Qd) | Push(qd: Qd)

  /** What the LibOS reports for one operation; `Migrated` is the failure `ETCPMIG`. */
  datatype Result = Accepted(newQd: Qd, migrated: Option<seq<byte>>) | Pushed | Popped(data: seq<byte>) | Migrated

  /** A reported completion: the position of its token in the vector, the operation, what came of it. */
  datatype Completion = Completion(index: nat, token: Token, result: Result)

  const I32_MIN: int := -0x8000_0000

  /** Build features and environment: manual migration, `MIG_PER_N` (an `i32`), `SESSION_DATA_SIZE`. */
  datatype Config = Config(manual: bool, migrationPerN: int, sessionSize: nat) {
    predicate Valid() {
      I32_MIN <= migrationPerN < 0x8000_0000
    }
  }

  /** History of one connection since it was accepted: bytes it came with, bytes received, requests
      answered, pops completed, calls of `initiate_migration`, whether its pop failed. */
  datatype History = History(origin: seq<byte>, received: seq<byte>, answered: seq<seq<byte>>,
                             pops: nat, migrations: nat, failed: bool)

  datatype Server = Server(cfg: Config, qts: seq<Token>, conns: map<Qd, Conn>, remaining: map<Qd, int>, log: map<Qd, History>)

  function Init(cfg: Config): Server {
    Server(cfg, [Accept], map[], map[], map[])
  }

  /** `*remaining -= 1` on an `i32` without overflow checks. */
  function WrappingDec(x: int): int {
    if x == I32_MIN then 0x7FFF_FFFF else x - 1
  }

  /** The application state of a newly accepted connection; `None` is a panic. */
  function NewConn(cfg: Config, migrated: Option<seq<byte>>): Option<Conn> {
    if migrated.Some? then DecodeConn(migrated.value) else Some(Conn(EMPTY_BUFFER, NewSession(cfg.sessionSize)))
  }

  function HandleAccept(s: Server, newQd: Qd, migrated: Option<seq<byte>>): (r: Option<Server>)
    ensures r.Some? ==> |r.value.qts| >= |s.qts|
  {
    var conn := NewConn(s.cfg, migrated);
    if conn == None || (s.cfg.manual && newQd in s.remaining) then None
    else Some(s.(qts := s.qts + [Pop(newQd), Accept],
                 conns := s.conns[newQd := conn.value],
                 remaining := if s.cfg.manual then s.remaining[newQd := s.cfg.migrationPerN] else s.remaining,
                 log := s.log[newQd := History(conn.value.buffer.data, [], [], 0, 0, false)]))
  }

  function Pushes(qd: Qd, n: nat): (p: seq<Token>)
    ensures |p| == n
  {
    seq(n, _ => Push(qd))
  }

  /** After the responses to a chunk went out: pop again, or hand the connection over. */
  function Rearm(s: Server, qd: Qd): (r: Server)
    requires qd in s.log
    ensures |r.qts| >= |s.qts|
  {
    if !s.cfg.manual then s.(qts := s.qts + [Pop(qd)])
    else if qd !in s.remaining then s
    else
      var left := WrappingDec(s.remaining[qd]);
      if left > 0 then s.(qts := s.qts + [Pop(qd)], remaining := s.remaining[qd := left])
      else s.(remaining := s.remaining - {qd}, log := s.log[qd := s.log[qd].(migrations := s.log[qd].migrations + 1)])
  }

  /** A chunk went through the connection's buffer, and a response to each request is under way. */
  function Absorb(s: Server, qd: Qd, data: seq<byte>, buffer: BufState, answered: seq<seq<byte>>): (r: Server)
    requires qd in s.conns && qd in s.log
    ensures |r.qts| >= |s.qts| && qd in r.log
  {
    var h := s.log[qd];
    s.(qts := s.qts + Pushes(qd, |answered|),
       conns := s.conns[qd := s.conns[qd].(buffer := buffer)],
       log := s.log[qd := h.(received := h.received + data, answered := h.answered + answered, pops := h.pops + 1)])
  }

  function HandlePop(s: Server, qd: Qd, data: seq<byte>): (r: Option<Server>)
    ensures r.Some? ==> |r.value.qts| >= |s.qts|
  {
    if qd !in s.conns || qd !in s.log || |s.conns[qd].buffer.data| > s.conns[qd].buffer.head then None
    else
      match PushStep(s.conns[qd].buffer, data)
      case None => None
      case Some((buffer, answered)) =>
        Some(Rearm(Absorb(s, qd, data, buffer, answered), qd))
  }

  /** One completion, its token already taken out; `None` is a panic. */
  function Handle(s: Server, token: Token, result: Result): (r: Option<Server>)
    ensures r.Some? ==> |r.value.qts| >= |s.qts|
  {
    match result
    case Accepted(newQd, migrated) => HandleAccept(s, newQd, migrated)
    case Pushed => Some(s)
    case Popped(data) => if token.Pop? then HandlePop(s, token.qd, data) else None
    case Migrated =>
      if token.Pop? && token.qd in s.log then Some(s.(log := s.log[token.qd := s.log[token.qd].(failed := true)])) else Some(s)
  }

  /** A connection with an outstanding pop. */
  ghost predicate Live(s: Server, qd: Qd) {
    qd in s.log && !s.log[qd].failed && s.log[qd].migrations == 0
  }

  /** What the LibOS guarantees of a result: it fits the operation, a new descriptor is not in use, and
      migrated state is what a server of this kind sends. */
  ghost predicate Legal(s: Server, token: Token, result: Result) {
    match result
    case Accepted(newQd, migrated) =>
      && token == Accept && !Live(s, newQd)
      && (migrated.Some? && DecodeConn(migrated.value).Some? ==> Unfinished(DecodeConn(migrated.value).value.buffer.data))
    case Pushed => token.Push?
    case Popped(_) => token.Pop?
    case Migrated => token != Accept
  }

  function Indices(comps: seq<Completion>): (r: seq<nat>)
    ensures |r| == |comps|
  {
    seq(|comps|, k requires 0 <= k < |comps| => comps[k].index)
  }

  function TakeToken(s: Server, index: nat): (r: Server)
    requires index < |s.qts|
    ensures |r.qts| == |s.qts| - 1
  {
    s.(qts := SwapRemove(s.qts, index))
  }

  /** The batch loop: the last completion first. */
  function RunBatch(s: Server, comps: seq<Completion>): Option<Server>
    requires Ascending(Indices(comps), |s.qts|)
    decreases |comps|
  {
    if comps == [] then Some(s)
    else
      var n := |comps| - 1;
      assert Indices(comps)[n] == comps[n].index;
      match Handle(TakeToken(s, comps[n].index), s.qts[comps[n].index], comps[n].result)
      case None => None
      case Some(t) => ShorterBatch(comps, |s.qts|, |t.qts|); RunBatch(t, comps[..n])
  }

  lemma ShorterBatch(comps: seq<Completion>, n: nat, m: nat)
    requires comps != [] && Ascending(Indices(comps), n) && m + 1 >= n
    ensures Ascending(Indices(comps[..|comps| - 1]), m)
  {
    var k := |comps| - 1;
    assert forall i :: 0 <= i < k ==> Indices(comps[..k])[i] == Indices(comps)[i];
    assert forall i :: 0 <= i < k ==> Indices(comps)[i] < Indices(comps)[k];
  }

  /** Every completion of the batch is legal when it is handled. */
  ghost predicate LegalBatch(s: Server, comps: seq<Completion>)
    requires Ascending(Indices(comps), |s.qts|)
    decreases |comps|
  {
    if comps == [] then true
    else
      var n := |comps| - 1;
      assert Indices(comps)[n] == comps[n].index;
      var t := TakeToken(s, comps[n].index);
      var token, result := s.qts[comps[n].index], comps[n].result;
      && token == comps[n].token && Legal(t, token, result)
      && (Handle(t, token, result).Some? ==>
            (ShorterBatch(comps, |s.qts|, |Handle(t, token, result).value.qts|);
             LegalBatch(Handle(t, token, result).value, comps[..n])))
  }

  // ----- what every step keeps

  /** Pops a connection completes before it is handed over. */
  function PopLimit(n: int): (k: nat)
    ensures k >= 1
  {
    if n > 0 then n else if n == I32_MIN then 0x8000_0000 else 1
  }

  /** The counter after `pops` decrements. */
  function Countdown(n: int, pops: nat): int {
    if pops == 0 then n else if n == I32_MIN then 0x8000_0000 - pops else n - pops
  }

  /** A connection's bytes: the answered requests are the greedy split of all it received. */
  ghost predicate ConnOk(c: Conn, h: History) {
    && c.buffer.Settled()
    && h.answered == Frames(h.origin + h.received)
    && c.buffer.data == Rest(h.origin + h.received)
  }

  /** A connection's place in the manual migration mode; `left` is its entry in `remaining`. */
  ghost predicate CounterOk(cfg: Config, h: History, left: Option<int>) {
    var n := cfg.migrationPerN;
    if !cfg.manual then h.migrations == 0 && left == None
    else if left.Some? then h.migrations == 0 && h.pops < PopLimit(n) && left.value == Countdown(n, h.pops)
    else h.migrations == 1 && h.pops == PopLimit(n) && !h.failed
  }

  function Left(s: Server, qd: Qd): Option<int> {
    if qd in s.remaining then Some(s.remaining[qd]) else None
  }

  /** How often an operation is outstanding; pushes do not matter. */
  ghost function Expected(s: Server, token: Token): nat {
    match token
    case Accept => 1
    case Pop(qd) => if Live(s, qd) then 1 else 0
    case Push(_) => 0
  }

  ghost predicate TokensOk(s: Server, qts: multiset<Token>) {
    forall token: Token :: !token.Push? ==> qts[token] == Expected(s, token)
  }

  /** All but the tokens. */
  ghost predicate StateOk(s: Server) {
    && s.cfg.Valid() && s.conns.Keys == s.log.Keys && s.remaining.Keys <= s.log.Keys
    && forall qd :: qd in s.log ==> EntryOk(s, qd)
  }

  ghost predicate EntryOk(s: Server, qd: Qd)
    requires qd in s.log && qd in s.conns
  {
    ConnOk(s.conns[qd], s.log[qd]) && CounterOk(s.cfg, s.log[qd], Left(s, qd))
  }

  ghost predicate Inv(s: Server) {
    StateOk(s) && TokensOk(s, multiset(s.qts))
  }

  /** The invariant while the completion of `token` is handled. */
  ghost predicate InvWithout(s: Server, token: Token) {
    StateOk(s) && TokensOk(s, multiset(s.qts) + multiset{token})
  }

  lemma TakeKeepsInv(s: Server, index: nat)
    requires Inv(s) && index < |s.qts|
    ensures InvWithout(TakeToken(s, index), s.qts[index])
  {
    SwapRemoveCounts(s.qts, index);
    var t := TakeToken(s, index);
    assert forall token :: Expected(t, token) == Expected(s, token);
    assert forall qd :: qd in s.log ==> EntryOk(s, qd) && EntryOk(t, qd);
  }

  lemma AcceptKeepsState(s: Server, newQd: Qd, migrated: Option<seq<byte>>)
    requires StateOk(s) && Legal(s, Accept, Accepted(newQd, migrated)) && HandleAccept(s, newQd, migrated).Some?
    ensures StateOk(HandleAccept(s, newQd, migrated).value)
  {
    var t := HandleAccept(s, newQd, migrated).value;
    var c := NewConn(s.cfg, migrated).value;
    assert ConnOk(c, t.log[newQd]) by {
      UnfinishedSplit(c.buffer.data);
      assert c.buffer.data + [] == c.buffer.data;
    }
    forall qd | qd in t.log ensures EntryOk(t, qd) {
      if qd != newQd {
        assert EntryOk(s, qd);
      }
    }
  }

  lemma AcceptKeepsTokens(s: Server, newQd: Qd, migrated: Option<seq<byte>>)
    requires TokensOk(s, multiset(s.qts) + multiset{Accept}) && !Live(s, newQd) && HandleAccept(s, newQd, migrated).Some?
    ensures var t := HandleAccept(s, newQd, migrated).value; TokensOk(t, multiset(t.qts))
  {
    var t := HandleAccept(s, newQd, migrated).value;
    assert multiset(t.qts) == multiset(s.qts) + multiset{Accept} + multiset{Pop(newQd)};
    forall token: Token | !token.Push? ensures multiset(t.qts)[token] == Expected(t, token) {
      assert (multiset(s.qts) + multiset{Accept})[token] == Expected(s, token);
    }
  }

  lemma PushesCounts(qd: Qd, n: nat, token: Token)
    ensures multiset(Pushes(qd, n))[token] == if token == Push(qd) then n else 0
  {
    if n > 0 {
      PushesCounts(qd, n - 1, token);
      assert Pushes(qd, n) == Pushes(qd, n - 1) + [Push(qd)];
    }
  }

  /** A chunk's bytes extend the split. */
  lemma ChunkKeepsConn(c: Conn, h: History, data: seq<byte>)
    requires ConnOk(c, h) && PushStep(c.buffer, data).Some?
    ensures var (buffer, answered) := PushStep(c.buffer, data).value;
            ConnOk(c.(buffer := buffer), h.(received := h.received + data, answered := h.answered + answered, pops := h.pops + 1))
  {
    PushStepIsGreedySplit(c.buffer, data);
    Assoc(h.origin, h.received, data);
    SplitAppend(h.origin + h.received, data);
  }

  lemma CountdownStep(n: int, pops: nat)
    requires I32_MIN <= n < 0x8000_0000 && pops < PopLimit(n)
    ensures WrappingDec(Countdown(n, pops)) == Countdown(n, pops + 1)
    ensures Countdown(n, pops + 1) > 0 <==> pops + 1 < PopLimit(n)
  {
  }

  lemma PopKeepsConn(s: Server, qd: Qd, data: seq<byte>)
    requires qd in s.log && qd in s.conns && ConnOk(s.conns[qd], s.log[qd]) && HandlePop(s, qd, data).Some?
    ensures var t := HandlePop(s, qd, data).value; qd in t.log && qd in t.conns && ConnOk(t.conns[qd], t.log[qd])
  {
    ChunkKeepsConn(s.conns[qd], s.log[qd], data);
    hide PushStep;
    hide ConnOk;
  }

  lemma PopKeepsCounter(s: Server, qd: Qd, data: seq<byte>)
    requires s.cfg.Valid() && qd in s.log && Live(s, qd) && CounterOk(s.cfg, s.log[qd], Left(s, qd))
    requires HandlePop(s, qd, data).Some?
    ensures var t := HandlePop(s, qd, data).value; qd in t.log && CounterOk(t.cfg, t.log[qd], Left(t, qd))
  {
    hide PushStep;
    if s.cfg.manual {
      CountdownStep(s.cfg.migrationPerN, s.log[qd].pops);
    }
  }

  lemma PopKeepsEntry(s: Server, qd: Qd, data: seq<byte>)
    requires s.cfg.Valid() && qd in s.log && qd in s.conns && EntryOk(s, qd) && Live(s, qd) && HandlePop(s, qd, data).Some?
    ensures EntryOk(HandlePop(s, qd, data).value, qd)
  {
    hide HandlePop;
    hide ConnOk;
    hide CounterOk;
    PopKeepsConn(s, qd, data);
    PopKeepsCounter(s, qd, data);
  }

  lemma PopKeepsState(s: Server, qd: Qd, data: seq<byte>)
    requires StateOk(s) && Live(s, qd) && HandlePop(s, qd, data).Some?
    ensures StateOk(HandlePop(s, qd, data).value)
  {
    var t := HandlePop(s, qd, data).value;
    PopKeepsEntry(s, qd, data);
    forall q | q in t.log ensures EntryOk(t, q) {
      if q != qd {
        assert EntryOk(s, q);
      }
    }
  }

  /** Handling a completed pop panics only when the chunk does not fit: the connection is always known. */
  lemma PopPanicsOnlyOnOverflow(s: Server, qd: Qd, data: seq<byte>)
    requires InvWithout(s, Pop(qd))
    ensures qd in s.conns && s.conns[qd].buffer.Settled()
    ensures HandlePop(s, qd, data) == None
       <==> !(s.conns[qd].buffer.data == [] && IsFrame(data)) && s.conns[qd].buffer.head + |data| > BUFSZ
  {
    OutstandingIsLive(s, Pop(qd));
    assert EntryOk(s, qd);
    PushStepIsGreedySplit(s.conns[qd].buffer, data);
  }

  /** Handling a completed accept panics exactly when the migrated state does not decode, or, in manual
      mode, when the descriptor's last connection failed before it had completed its pops: its counter is
      still there. */
  lemma AcceptPanicsIff(s: Server, newQd: Qd, migrated: Option<seq<byte>>)
    requires InvWithout(s, Accept) && Legal(s, Accept, Accepted(newQd, migrated))
    ensures HandleAccept(s, newQd, migrated) == None
       <==> || (migrated.Some? && DecodeConn(migrated.value) == None)
            || (s.cfg.manual && newQd in s.log && s.log[newQd].failed && s.log[newQd].pops < PopLimit(s.cfg.migrationPerN))
  {
    hide DecodeConn;
    if newQd in s.log {
      assert EntryOk(s, newQd);
    }
  }

  /** A connection that migrated in continues where its origin left it; any other starts with an empty
      buffer and a session of the configured size. */
  lemma AcceptedConnection(s: Server, newQd: Qd, migrated: Option<seq<byte>>, c: Conn)
    requires HandleAccept(s, newQd, migrated).Some?
    requires |c.buffer.data| <= BUFSZ && |c.session.data| < TWO_32
    ensures var t := HandleAccept(s, newQd, migrated).value;
            && t.conns.Keys == s.conns.Keys + {newQd}
            && (forall qd :: qd in s.conns && qd != newQd ==> t.conns[qd] == s.conns[qd])
            && (migrated == Some(EncodeConn(c)) ==> t.conns[newQd] == Compacted(c))
            && (migrated == None ==> && t.conns[newQd].buffer == BufState(0, [])
                                     && |t.conns[newQd].session.data| == s.cfg.sessionSize
                                     && forall i :: 0 <= i < s.cfg.sessionSize ==> t.conns[newQd].session.data[i] == 5)
  {
    ConnRoundTrip(c, []);
    assert EncodeConn(c) + [] == EncodeConn(c);
    hide EncodeConn;
    hide DecodeConn;
  }

  lemma PopTokenList(s: Server, qd: Qd, data: seq<byte>)
    requires StateOk(s) && Live(s, qd) && HandlePop(s, qd, data).Some?
    ensures var t, n := HandlePop(s, qd, data).value, |PushStep(s.conns[qd].buffer, data).value.1|;
            t.qts == s.qts + Pushes(qd, n) + if Live(t, qd) then [Pop(qd)] else []
  {
    assert EntryOk(s, qd);
  }

  lemma PopKeepsTokens(s: Server, qd: Qd, data: seq<byte>)
    requires StateOk(s) && Live(s, qd) && HandlePop(s, qd, data).Some? && TokensOk(s, multiset(s.qts) + multiset{Pop(qd)})
    ensures var t := HandlePop(s, qd, data).value; TokensOk(t, multiset(t.qts))
  {
    var t, n := HandlePop(s, qd, data).value, |PushStep(s.conns[qd].buffer, data).value.1|;
    var more := if Live(t, qd) then [Pop(qd)] else [];
    PopTokenList(s, qd, data);
    assert multiset(t.qts) == multiset(s.qts) + multiset(Pushes(qd, n)) + multiset(more);
    forall token: Token | !token.Push? ensures multiset(t.qts)[token] == Expected(t, token) {
      PushesCounts(qd, n, token);
      assert (multiset(s.qts) + multiset{Pop(qd)})[token] == Expected(s, token);
      if token != Pop(qd) {
        OthersLive(s, qd, data, token);
      }
    }
  }

  lemma OthersLive(s: Server, qd: Qd, data: seq<byte>, token: Token)
    requires HandlePop(s, qd, data).Some? && token != Pop(qd)
    ensures Expected(HandlePop(s, qd, data).value, token) == Expected(s, token)
  {
  }

  lemma FailureKeepsState(s: Server, token: Token)
    requires StateOk(s) && token != Accept && (token.Pop? ==> Live(s, token.qd))
    ensures StateOk(Handle(s, token, Migrated).value)
  {
    var t := Handle(s, token, Migrated).value;
    forall q | q in t.log ensures EntryOk(t, q) {
      assert EntryOk(s, q);
    }
  }

  lemma FailureKeepsTokens(s: Server, token: Token)
    requires TokensOk(s, multiset(s.qts) + multiset{token}) && token != Accept && (token.Pop? ==> Live(s, token.qd))
    ensures var t := Handle(s, token, Migrated).value; TokensOk(t, multiset(t.qts))
  {
    var t := Handle(s, token, Migrated).value;
    forall other: Token | !other.Push? ensures multiset(t.qts)[other] == Expected(t, other) {
      assert (multiset(s.qts) + multiset{token})[other] == Expected(s, other);
    }
  }

  lemma OutstandingIsLive(s: Server, token: Token)
    requires TokensOk(s, multiset(s.qts) + multiset{token})
    ensures token.Pop? ==> Live(s, token.qd)
  {
    if token.Pop? {
      assert (multiset(s.qts) + multiset{token})[token] == Expected(s, token);
    }
  }

  lemma HandleKeepsInv(s: Server, token: Token, result: Result)
    requires InvWithout(s, token) && Legal(s, token, result) && Handle(s, token, result).Some?
    ensures Inv(Handle(s, token, result).value)
  {
    OutstandingIsLive(s, token);
    match result
    case Accepted(newQd, migrated) =>
      AcceptKeepsState(s, newQd, migrated);
      AcceptKeepsTokens(s, newQd, migrated);
    case Pushed =>
      PushKeepsInv(s, token);
    case Popped(data) =>
      PopKeepsState(s, token.qd, data);
      PopKeepsTokens(s, token.qd, data);
    case Migrated =>
      FailureKeepsState(s, token);
      FailureKeepsTokens(s, token);
  }

  lemma PushKeepsInv(s: Server, token: Token)
    requires InvWithout(s, token) && token.Push?
    ensures Inv(s)
  {
    forall other: Token | !other.Push? ensures multiset(s.qts)[other] == Expected(s, other) {
      assert (multiset(s.qts) + multiset{token})[other] == Expected(s, other);
    }
  }

  /** Every batch of legal completions keeps the invariant. */
  lemma {:induction false} BatchKeepsInv(s: Server, comps: seq<Completion>)
    requires Inv(s) && Ascending(Indices(comps), |s.qts|) && LegalBatch(s, comps) && RunBatch(s, comps).Some?
    ensures Inv(RunBatch(s, comps).value)
    decreases |comps|
  {
    if comps != [] {
      var n := |comps| - 1;
      assert Indices(comps)[n] == comps[n].index;
      var token, t := s.qts[comps[n].index], TakeToken(s, comps[n].index);
      TakeKeepsInv(s, comps[n].index);
      HandleKeepsInv(t, token, comps[n].result);
      var u := Handle(t, token, comps[n].result).value;
      ShorterBatch(comps, |s.qts|, |u.qts|);
      BatchKeepsInv(u, comps[..n]);
    }
  }

  // ----- whole runs

  /** States reached from the start by legal batches. */
  ghost predicate Reachable(cfg: Config, s: Server, batches: seq<seq<Completion>>)
    decreases |batches|
  {
    if batches == [] then s == Init(cfg)
    else
      var n := |batches| - 1;
      exists t: Server ::
        && Reachable(cfg, t, batches[..n]) && Ascending(Indices(batches[n]), |t.qts|)
        && LegalBatch(t, batches[n]) && RunBatch(t, batches[n]) == Some(s)
  }

  lemma {:induction false} ReachableInv(cfg: Config, s: Server, batches: seq<seq<Completion>>)
    requires cfg.Valid() && Reachable(cfg, s, batches)
    ensures Inv(s) && s.cfg == cfg
    decreases |batches|
  {
    if batches != [] {
      var n := |batches| - 1;
      var t: Server :| && Reachable(cfg, t, batches[..n]) && Ascending(Indices(batches[n]), |t.qts|)
                       && LegalBatch(t, batches[n]) && RunBatch(t, batches[n]) == Some(s);
      ReachableInv(cfg, t, batches[..n]);
      BatchKeepsInv(t, batches[n]);
      BatchKeepsConfig(t, batches[n]);
    } else {
      assert multiset(s.qts) == multiset{Accept};
      assert forall token: Token :: !token.Push? ==> multiset{Accept}[token] == Expected(s, token);
    }
  }

  lemma {:induction false} BatchKeepsConfig(s: Server, comps: seq<Completion>)
    requires Ascending(Indices(comps), |s.qts|) && RunBatch(s, comps).Some?
    ensures RunBatch(s, comps).value.cfg == s.cfg
    decreases |comps|
  {
    if comps != [] {
      var n := |comps| - 1;
      assert Indices(comps)[n] == comps[n].index;
      var u := Handle(TakeToken(s, comps[n].index), s.qts[comps[n].index], comps[n].result).value;
      ShorterBatch(comps, |s.qts|, |u.qts|);
      BatchKeepsConfig(u, comps[..n]);
    }
  }

  // ----- what the completions alone say

  /** A connection since it was last accepted: the unread bytes it came with, the bytes popped, the pops
      completed, whether its pop failed. */
  datatype Past = Past(origin: seq<byte>, received: seq<byte>, pops: nat, failed: bool)

  /** The past of a connection, and how many responses are owed to its descriptor. */
  datatype Ledger = Ledger(past: Option<Past>, owed: int)

  /** The unread bytes in migrated state. */
  function Unread(migrated: Option<seq<byte>>): seq<byte> {
    if migrated.Some? && DecodeBuffer(migrated.value).Some? then DecodeBuffer(migrated.value).value.data else []
  }

  /** What one completion means for the descriptor `qd`. */
  function Note(l: Ledger, token: Token, result: Result, qd: Qd): Ledger {
    match result
    case Accepted(newQd, migrated) =>
      if newQd == qd then l.(past := Some(Past(Unread(migrated), [], 0, false))) else l
    case Popped(data) =>
      if token == Pop(qd) && l.past.Some? then
        var p := l.past.value;
        var all := p.origin + p.received;
        Ledger(Some(p.(received := p.received + data, pops := p.pops + 1)), l.owed + |Frames(all + data)| - |Frames(all)|)
      else l
    case Pushed => if token == Push(qd) then l.(owed := l.owed - 1) else l
    case Migrated =>
      if token == Push(qd) then l.(owed := l.owed - 1)
      else if token == Pop(qd) && l.past.Some? then l.(past := Some(l.past.value.(failed := true)))
      else l
  }

  /** The completions of a batch, the last one first. */
  function NoteBatch(l: Ledger, comps: seq<Completion>, qd: Qd): Ledger
    decreases |comps|
  {
    if comps == [] then l
    else
      var last := comps[|comps| - 1];
      NoteBatch(Note(l, last.token, last.result, qd), comps[..|comps| - 1], qd)
  }

  function NoteAll(batches: seq<seq<Completion>>, qd: Qd): Ledger {
    if batches == [] then Ledger(None, 0)
    else NoteBatch(NoteAll(batches[..|batches| - 1], qd), batches[|batches| - 1], qd)
  }

  /** The same, as the server's state has it. */
  function PastIn(s: Server, qd: Qd): Option<Past> {
    if qd in s.log then
      var h := s.log[qd]; Some(Past(h.origin, h.received, h.pops, h.failed))
    else None
  }

  ghost predicate LedgerOk(s: Server, qts: multiset<Token>, l: Ledger, qd: Qd) {
    l.past == PastIn(s, qd) && qts[Push(qd)] == l.owed
  }

  lemma PopPushes(s: Server, q: Qd, data: seq<byte>, qd: Qd)
    requires StateOk(s) && Live(s, q) && HandlePop(s, q, data).Some?
    ensures multiset(HandlePop(s, q, data).value.qts)[Push(qd)]
         == multiset(s.qts)[Push(qd)] + if q == qd then |PushStep(s.conns[q].buffer, data).value.1| else 0
  {
    var n, t := |PushStep(s.conns[q].buffer, data).value.1|, HandlePop(s, q, data).value;
    var more := if Live(t, q) then [Pop(q)] else [];
    PopTokenList(s, q, data);
    PushesCounts(q, n, Push(qd));
    hide HandlePop;
    hide StateOk;
    hide Live;
    assert multiset(t.qts) == multiset(s.qts) + multiset(Pushes(q, n)) + multiset(more);
  }

  lemma PopAnswers(c: Conn, h: History, data: seq<byte>)
    requires ConnOk(c, h) && PushStep(c.buffer, data).Some?
    ensures var all := h.origin + h.received;
            |PushStep(c.buffer, data).value.1| == |Frames(all + data)| - |Frames(all)|
  {
    hide PushStep;
    hide Frames;
    hide Rest;
    PushStepIsGreedySplit(c.buffer, data);
    SplitAppend(h.origin + h.received, data);
  }

  lemma PopOwes(s: Server, q: Qd, data: seq<byte>, qd: Qd)
    requires InvWithout(s, Pop(q)) && HandlePop(s, q, data).Some?
    ensures q in s.log
    ensures multiset(HandlePop(s, q, data).value.qts)[Push(qd)]
         == multiset(s.qts)[Push(qd)]
            + if q == qd then var all := s.log[q].origin + s.log[q].received; |Frames(all + data)| - |Frames(all)| else 0
  {
    OutstandingIsLive(s, Pop(q));
    hide HandlePop;
    hide PushStep;
    hide Frames;
    PopPushes(s, q, data, qd);
    EntryOf(s, q);
    PopAnswers(s.conns[q], s.log[q], data);
  }

  lemma EntryOf(s: Server, q: Qd)
    requires StateOk(s) && q in s.log
    ensures q in s.conns && ConnOk(s.conns[q], s.log[q])
  {
    assert EntryOk(s, q);
  }

  lemma PopNoted(s: Server, q: Qd, data: seq<byte>, l: Ledger, qd: Qd)
    requires InvWithout(s, Pop(q)) && HandlePop(s, q, data).Some? && LedgerOk(s, multiset(s.qts) + multiset{Pop(q)}, l, qd)
    ensures var t := HandlePop(s, q, data).value; LedgerOk(t, multiset(t.qts), Note(l, Pop(q), Popped(data), qd), qd)
  {
    hide HandlePop;
    hide InvWithout;
    hide Frames;
    PopOwes(s, q, data, qd);
    PopHistory(s, q, data);
    assert (multiset(s.qts) + multiset{Pop(q)})[Push(qd)] == multiset(s.qts)[Push(qd)];
  }

  /** One popped chunk extends the history of its connection by its bytes, and no other history. */
  lemma PopHistory(s: Server, q: Qd, data: seq<byte>)
    requires HandlePop(s, q, data).Some?
    ensures var t := HandlePop(s, q, data).value;
            && q in s.log && t.log.Keys == s.log.Keys
            && t.log[q].received == s.log[q].received + data && t.log[q].pops == s.log[q].pops + 1
            && t.log[q].origin == s.log[q].origin && t.log[q].failed == s.log[q].failed
            && forall qd :: qd in s.log && qd != q ==> t.log[qd] == s.log[qd]
  {
    hide PushStep;
  }

  lemma HandleNoted(s: Server, token: Token, result: Result, l: Ledger, qd: Qd)
    requires InvWithout(s, token) && Legal(s, token, result) && Handle(s, token, result).Some?
    requires LedgerOk(s, multiset(s.qts) + multiset{token}, l, qd)
    ensures var t := Handle(s, token, result).value; LedgerOk(t, multiset(t.qts), Note(l, token, result, qd), qd)
  {
    match result
    case Accepted(newQd, migrated) =>
      AcceptNoted(s, newQd, migrated, l, qd);
    case Pushed =>
    case Popped(data) =>
      PopNoted(s, token.qd, data, l, qd);
    case Migrated =>
      OutstandingIsLive(s, token);
  }

  lemma AcceptNoted(s: Server, newQd: Qd, migrated: Option<seq<byte>>, l: Ledger, qd: Qd)
    requires HandleAccept(s, newQd, migrated).Some? && LedgerOk(s, multiset(s.qts) + multiset{Accept}, l, qd)
    ensures var t := HandleAccept(s, newQd, migrated).value;
            LedgerOk(t, multiset(t.qts), Note(l, Accept, Accepted(newQd, migrated), qd), qd)
  {
    var t := HandleAccept(s, newQd, migrated).value;
    assert multiset(t.qts) == multiset(s.qts) + multiset{Pop(newQd)} + multiset{Accept};
    assert NewConn(s.cfg, migrated).value.buffer.data == Unread(migrated);
    hide NewConn;
    hide Unread;
  }

  lemma {:induction false} BatchNoted(s: Server, comps: seq<Completion>, l: Ledger, qd: Qd)
    requires Inv(s) && Ascending(Indices(comps), |s.qts|) && LegalBatch(s, comps) && RunBatch(s, comps).Some?
    requires LedgerOk(s, multiset(s.qts), l, qd)
    ensures var t := RunBatch(s, comps).value; LedgerOk(t, multiset(t.qts), NoteBatch(l, comps, qd), qd)
    decreases |comps|
  {
    hide Inv;
    hide InvWithout;
    hide Handle;
    hide Legal;
    hide Note;
    hide LedgerOk;
    if comps != [] {
      var n := |comps| - 1;
      assert Indices(comps)[n] == comps[n].index;
      var token, t := s.qts[comps[n].index], TakeToken(s, comps[n].index);
      TakeKeepsInv(s, comps[n].index);
      TakeKeepsLedger(s, comps[n].index, l, qd);
      HandleKeepsInv(t, token, comps[n].result);
      HandleNoted(t, token, comps[n].result, l, qd);
      var u := Handle(t, token, comps[n].result).value;
      ShorterBatch(comps, |s.qts|, |u.qts|);
      BatchNoted(u, comps[..n], Note(l, token, comps[n].result, qd), qd);
    }
  }

  lemma TakeKeepsLedger(s: Server, index: nat, l: Ledger, qd: Qd)
    requires index < |s.qts| && LedgerOk(s, multiset(s.qts), l, qd)
    ensures var t := TakeToken(s, index); LedgerOk(t, multiset(t.qts) + multiset{s.qts[index]}, l, qd)
  {
    SwapRemoveCounts(s.qts, index);
  }

  /** In every reachable state the server knows of each connection exactly what the completions say, and
      as many responses are being pushed to a descriptor as requests were received on it and not yet
      answered. */
  lemma {:induction false} ReachableNoted(cfg: Config, s: Server, batches: seq<seq<Completion>>, qd: Qd)
    requires cfg.Valid() && Reachable(cfg, s, batches)
    ensures PastIn(s, qd) == NoteAll(batches, qd).past
    ensures multiset(s.qts)[Push(qd)] == NoteAll(batches, qd).owed
    decreases |batches|
  {
    if batches != [] {
      var n := |batches| - 1;
      var t: Server :| && Reachable(cfg, t, batches[..n]) && Ascending(Indices(batches[n]), |t.qts|)
                       && LegalBatch(t, batches[n]) && RunBatch(t, batches[n]) == Some(s);
      ReachableInv(cfg, t, batches[..n]);
      ReachableNoted(cfg, t, batches[..n], qd);
      BatchNoted(t, batches[n], NoteAll(batches[..n], qd), qd);
    }
  }

  /** Over every run: each connection has been answered the greedy split of the bytes it came with and
      those popped from it, and holds the rest. */
  lemma EveryConnectionAnswered(cfg: Config, s: Server, batches: seq<seq<Completion>>, qd: Qd)
    requires cfg.Valid() && Reachable(cfg, s, batches)
    ensures qd in s.conns <==> NoteAll(batches, qd).past.Some?
    ensures qd in s.conns ==>
              var p := NoteAll(batches, qd).past.value;
              && qd in s.log && s.log[qd].answered == Frames(p.origin + p.received)
              && s.conns[qd].buffer.data == Rest(p.origin + p.received)
  {
    ReachableInv(cfg, s, batches);
    ReachableNoted(cfg, s, batches, qd);
    if qd in s.log {
      assert EntryOk(s, qd);
    }
  }

  /** Manual mode, over every run: one accept is outstanding; a connection whose pops all completed has
      one outstanding pop until it completed `PopLimit` of them, then `initiate_migration` is called
      once and no pop follows. */
  lemma ManualMigrationAfterLimit(cfg: Config, s: Server, batches: seq<seq<Completion>>, qd: Qd)
    requires cfg.Valid() && cfg.manual && Reachable(cfg, s, batches)
    requires NoteAll(batches, qd).past.Some? && !NoteAll(batches, qd).past.value.failed
    ensures multiset(s.qts)[Accept] == 1
    ensures multiset(s.qts)[Pop(qd)] == if qd in s.remaining then 1 else 0
    ensures var pops, limit := NoteAll(batches, qd).past.value.pops, PopLimit(cfg.migrationPerN);
            && (qd in s.remaining <==> pops < limit) && pops <= limit
            && qd in s.log && s.log[qd].migrations == if pops == limit then 1 else 0
  {
    ReachableInv(cfg, s, batches);
    ReachableNoted(cfg, s, batches, qd);
    assert EntryOk(s, qd);
    assert multiset(s.qts)[Accept] == Expected(s, Accept) && multiset(s.qts)[Pop(qd)] == Expected(s, Pop(qd));
  }

  lemma OneMore(cfg: Config, s: Server, t: Server, before: seq<seq<Completion>>, batch: seq<Completion>)
    requires Reachable(cfg, s, before) && Ascending(Indices(batch), |s.qts|) && LegalBatch(s, batch) && RunBatch(s, batch) == Some(t)
    ensures Reachable(cfg, t, before + [batch])
  {
    assert (before + [batch])[..|before|] == before;
  }

  lemma OneCompletion(s: Server, index: nat, result: Result)
    requires index < |s.qts| && Legal(TakeToken(s, index), s.qts[index], result)
    ensures var batch := [Completion(index, s.qts[index], result)];
            && Ascending(Indices(batch), |s.qts|) && LegalBatch(s, batch)
            && RunBatch(s, batch) == Handle(TakeToken(s, index), s.qts[index], result)
  {
    hide Handle;
    var batch := [Completion(index, s.qts[index], result)];
    assert batch[..0] == [] && Indices(batch)[0] == index;
  }

  lemma StartReachable(cfg: Config)
    ensures Reachable(cfg, Init(cfg), [])
  {
  }

  /** In manual mode a connection is accepted, its pop fails, and the LibOS hands out the descriptor
      again: the second accept panics. */
  lemma ReusedDescriptorPanics(cfg: Config) returns (s: Server, batches: seq<seq<Completion>>)
    requires cfg.Valid() && cfg.manual
    ensures Reachable(cfg, s, batches) && s.qts == [Accept] && Legal(TakeToken(s, 0), Accept, Accepted(5, Option.None))
    ensures HandleAccept(TakeToken(s, 0), 5, Option.None) == Option.None
  {
    hide RunBatch;
    hide LegalBatch;
    hide Reachable;
    hide Ascending;
    hide DecodeConn;
    var a := Init(cfg);
    StartReachable(cfg);
    OneCompletion(a, 0, Accepted(5, Option.None));
    var b := HandleAccept(TakeToken(a, 0), 5, Option.None).value;
    assert b.qts == [Pop(5), Accept];
    OneMore(cfg, a, b, [], [Completion(0, Accept, Accepted(5, Option.None))]);
    OneCompletion(b, 0, Migrated);
    s := Handle(TakeToken(b, 0), Pop(5), Migrated).value;
    batches := [] + [[Completion(0, Accept, Accepted(5, Option.None))]] + [[Completion(0, Pop(5), Migrated)]];
    OneMore(cfg, b, s, [] + [[Completion(0, Accept, Accepted(5, Option.None))]], [Completion(0, Pop(5), Migrated)]);
  }
}
