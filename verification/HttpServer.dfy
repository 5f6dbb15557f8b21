/** The HTTP server's event loop over its mutable state. */
module HttpServer {
  import opened Bytes
  import opened StreamBuffer
  import opened Connection
  import opened Tokens
  import opened HttpProtocol

  /** How often `initiate_migration` was called for each connection. */
  function Initiated(s: Server): map<Qd, nat> {
    map qd | qd in s.log :: s.log[qd].migrations
  }

  class EventLoop {
    const cfg: Config
    var qts: seq<Token>
    var connstate: map<Qd, ConnectionState>
    var requestsRemaining: map<Qd, int>
    var initiated: map<Qd, nat> // calls of `initiate_migration` since a descriptor was last accepted

    ghost var model: Server          // the state of the protocol
    ghost var home: map<object, Qd>  // which connection a buffer, or its array, belongs to

    /** The connection's buffer is its own, and holds `c`. */
    ghost predicate Holds(q: Qd, c: Conn)
      requires q in connstate
      reads this`connstate, this`home, home.Keys
    {
      var buffer := connstate[q].buffer;
      && buffer in home && home[buffer] == q && buffer.buf in home && home[buffer.buf] == q
      && connstate[q].Valid() && connstate[q].Value() == c
    }

    ghost predicate Held(conns: map<Qd, Conn>)
      reads this`connstate, this`home, home.Keys
    {
      conns.Keys == connstate.Keys && forall q :: q in connstate ==> Holds(q, conns[q])
    }

    ghost predicate Valid()
      reads this, home.Keys
    {
      model.cfg == cfg && model.qts == qts && model.remaining == requestsRemaining && Held(model.conns)
      && initiated == Initiated(model)
    }

    constructor (cfg: Config)
      ensures Valid() && home == map[] && model == Init(cfg)
    {
      this.cfg := cfg;
      qts := [Accept];
      connstate, requestsRemaining, initiated, home := map[], map[], map[], map[];
      model := Init(cfg);
    }

    method NewConnection(migrated: Option<seq<byte>>) returns (state: ConnectionState)
      requires NewConn(cfg, migrated).Some?
      ensures fresh(state) && fresh(state.buffer) && fresh(state.buffer.buf)
      ensures state.Valid() && state.Value() == NewConn(cfg, migrated).value
    {
      match migrated {
        case Some(data) =>
          state := ConnectionState.Deserialize(data);
        case None =>
          var buffer := new Buffer();
          state := new ConnectionState(buffer, NewSession(cfg.sessionSize));
      }
    }

    /** `connstate.insert`. */
    method Insert(newQd: Qd, state: ConnectionState, ghost conns: map<Qd, Conn>)
      requires Held(conns) && state.Valid() && state.buffer !in home && state.buffer.buf !in home
      modifies this`connstate, this`home
      ensures Held(conns[newQd := state.Value()])
      ensures home.Keys == old(home.Keys) + {state.buffer, state.buffer.buf}
    {
      connstate := connstate[newQd := state];
      home := home[state.buffer := newQd][state.buffer.buf := newQd];
      forall q | q in connstate ensures Holds(q, conns[newQd := state.Value()][q]) {
        assert q != newQd ==> old(Holds(q, conns[q]));
      }
    }

    /** `push_data_and_run` on the connection's buffer. */
    method Feed(qd: Qd, data: seq<byte>, ghost conns: map<Qd, Conn>) returns (requests: seq<seq<byte>>)
      requires Held(conns) && qd in conns && |conns[qd].buffer.data| <= conns[qd].buffer.head
      requires PushStep(conns[qd].buffer, data).Some?
      modifies connstate[qd].buffer, connstate[qd].buffer.buf
      ensures var (buffer, answered) := PushStep(conns[qd].buffer, data).value;
              requests == answered && Held(conns[qd := conns[qd].(buffer := buffer)])
    {
      hide PushStep;
      assert Holds(qd, conns[qd]);
      requests := connstate[qd].buffer.PushDataAndRun(data);
      var (buffer, answered) := PushStep(conns[qd].buffer, data).value;
      forall q | q in connstate ensures Holds(q, conns[qd := conns[qd].(buffer := buffer)][q]) {
        assert old(Holds(q, conns[q]));
      }
    }

    /** Puts down the tokens, counters and calls of a handled completion. */
    method Commit(tokens: seq<Token>, remaining: map<Qd, int>, calls: map<Qd, nat>, ghost next: Server)
      requires Held(next.conns) && next.cfg == cfg && next.qts == tokens && next.remaining == remaining
      requires calls == Initiated(next)
      modifies this`qts, this`requestsRemaining, this`initiated, this`model
      ensures Valid() && model == next
    {
      hide ConnectionState.Valid;
      hide ConnectionState.Value;
      qts, requestsRemaining, initiated, model := tokens, remaining, calls, next;
    }

    method OnAccept(newQd: Qd, migrated: Option<seq<byte>>)
      requires Valid() && HandleAccept(model, newQd, migrated).Some?
      modifies this
      ensures Valid() && fresh(home.Keys - old(home.Keys))
      ensures Some(model) == HandleAccept(old(model), newQd, migrated)
    {
      hide NewConn;
      hide HandleAccept;
      hide ConnectionState.Valid;
      hide ConnectionState.Value;
      AcceptEffect(model, newQd, migrated);
      var state := NewConnection(migrated);
      var tokens := qts + [Pop(newQd)];
      var remaining := requestsRemaining;
      if cfg.manual {
        remaining := remaining[newQd := cfg.migrationPerN];
      }
      Insert(newQd, state, model.conns);
      tokens := tokens + [Accept];
      Commit(tokens, remaining, initiated[newQd := 0], HandleAccept(model, newQd, migrated).value);
    }

    method OnPop(qd: Qd, data: seq<byte>)
      requires Valid() && HandlePop(model, qd, data).Some?
      modifies this`qts, this`requestsRemaining, this`initiated, this`model, connstate[qd].buffer, connstate[qd].buffer.buf
      ensures Valid() && Some(model) == HandlePop(old(model), qd, data)
    {
      hide PushStep;
      hide HandlePop;
      hide ConnectionState.Valid;
      hide ConnectionState.Value;
      PopEffect(model, qd, data);
      var requests := Feed(qd, data, model.conns);
      var tokens := qts + Pushes(qd, |requests|);
      var remaining, calls := requestsRemaining, initiated;
      if cfg.manual {
        if qd in remaining {
          var left := WrappingDec(remaining[qd]);
          if left > 0 {
            remaining := remaining[qd := left];
            tokens := tokens + [Pop(qd)];
          } else {
            calls := calls[qd := calls[qd] + 1]; // the LibOS is told to migrate the connection
            remaining := remaining - {qd};
          }
        }
      } else {
        tokens := tokens + [Pop(qd)];
      }
      Commit(tokens, remaining, calls, HandlePop(model, qd, data).value);
    }

    /** One reported completion, its token taken out. */
    method OnCompletion(token: Token, result: Result)
      requires Valid() && Handle(model, token, result).Some?
      modifies this, home.Keys
      ensures Valid() && fresh(home.Keys - old(home.Keys))
      ensures Some(model) == Handle(old(model), token, result)
    {
      hide HandleAccept;
      hide HandlePop;
      hide ConnectionState.Valid;
      hide ConnectionState.Value;
      match result {
        case Accepted(newQd, migrated) =>
          OnAccept(newQd, migrated);
        case Pushed =>
        case Popped(data) =>
          PopEffect(model, token.qd, data);
          assert Holds(token.qd, model.conns[token.qd]);
          OnPop(token.qd, data);
        case Migrated =>
          Commit(qts, requestsRemaining, initiated, Handle(model, token, result).value);
      }
    }

    /** One turn of the event loop: the reported completions, last one first. */
    method ProcessBatch(comps: seq<Completion>)
      requires Valid() && Ascending(Indices(comps), |qts|) && RunBatch(model, comps).Some?
      modifies this, home.Keys
      ensures Valid() && fresh(home.Keys - old(home.Keys))
      ensures Some(model) == RunBatch(old(model), comps)
    {
      hide Handle;
      hide RunBatch;
      ghost var goal := RunBatch(model, comps);
      var k := |comps|;
      assert comps[..k] == comps;
      while k > 0
        invariant k <= |comps| && Valid() && fresh(home.Keys - old(home.Keys))
        invariant Ascending(Indices(comps[..k]), |model.qts|) && RunBatch(model, comps[..k]) == goal
      {
        k := k - 1;
        BatchStep(model, comps[..k + 1]);
        assert comps[..k + 1][..k] == comps[..k];
        var index := comps[k].index;
        var token := qts[index];
        Commit(SwapRemove(qts, index), requestsRemaining, initiated, TakeToken(model, index));
        OnCompletion(token, comps[k].result);
      }
      BatchDone(model);
    }
  }

  // ----- what one completion changes, field by field

  lemma AcceptEffect(s: Server, newQd: Qd, migrated: Option<seq<byte>>)
    requires HandleAccept(s, newQd, migrated).Some?
    ensures NewConn(s.cfg, migrated).Some?
    ensures var t := HandleAccept(s, newQd, migrated).value;
            && t.cfg == s.cfg && t.qts == s.qts + [Pop(newQd)] + [Accept]
            && t.conns == s.conns[newQd := NewConn(s.cfg, migrated).value]
            && t.remaining == (if s.cfg.manual then s.remaining[newQd := s.cfg.migrationPerN] else s.remaining)
            && Initiated(t) == Initiated(s)[newQd := 0]
  {
    hide NewConn;
    assert s.qts + [Pop(newQd)] + [Accept] == s.qts + [Pop(newQd), Accept];
  }

  lemma PopEffect(s: Server, qd: Qd, data: seq<byte>)
    requires HandlePop(s, qd, data).Some?
    ensures qd in s.log && qd in s.conns && |s.conns[qd].buffer.data| <= s.conns[qd].buffer.head && PushStep(s.conns[qd].buffer, data).Some?
    ensures var t := HandlePop(s, qd, data).value;
            var (buffer, answered) := PushStep(s.conns[qd].buffer, data).value;
            var pushed := s.qts + Pushes(qd, |answered|);
            && t.cfg == s.cfg && t.conns == s.conns[qd := s.conns[qd].(buffer := buffer)]
            && (if s.cfg.manual && qd !in s.remaining then t.qts == pushed && t.remaining == s.remaining
                else if !s.cfg.manual then t.qts == pushed + [Pop(qd)] && t.remaining == s.remaining
                else if WrappingDec(s.remaining[qd]) > 0 then
                  t.qts == pushed + [Pop(qd)] && t.remaining == s.remaining[qd := WrappingDec(s.remaining[qd])]
                else t.qts == pushed && t.remaining == s.remaining - {qd})
            && Initiated(t) == (if s.cfg.manual && qd in s.remaining && WrappingDec(s.remaining[qd]) <= 0 then
                                  Initiated(s)[qd := Initiated(s)[qd] + 1] else Initiated(s))
  {
    hide PushStep;
  }

  lemma BatchDone(s: Server)
    ensures Ascending(Indices([]), |s.qts|) && RunBatch(s, []) == Some(s)
  {
  }

  lemma BatchStep(s: Server, comps: seq<Completion>)
    requires comps != [] && Ascending(Indices(comps), |s.qts|) && RunBatch(s, comps).Some?
    ensures var last := comps[|comps| - 1];
            && last.index < |s.qts|
            && Handle(TakeToken(s, last.index), s.qts[last.index], last.result).Some?
            && var t := Handle(TakeToken(s, last.index), s.qts[last.index], last.result).value;
               Ascending(Indices(comps[..|comps| - 1]), |t.qts|) && RunBatch(t, comps[..|comps| - 1]) == RunBatch(s, comps)
  {
    var n := |comps| - 1;
    assert Indices(comps)[n] == comps[n].index;
    ShorterBatch(comps, |s.qts|, |Handle(TakeToken(s, comps[n].index), s.qts[comps[n].index], comps[n].result).value.qts|);
  }
}
