/** The multi-connection server: it answers each request in turn and gives up a connection only
    while that connection waits for a new request. */
module MultiServer {
  import opened Bytes
  import opened Tokens

  type Qd = nat

  datatype Op = Accept | Pop(qd: Qd) | Push(qd: Qd)

  /** A token of the LibOS, which numbers the operations it is asked for. */
  datatype Token = Token(id: nat, op: Op)

  datatype Result = Accepted(newQd: Qd) | Pushed | Popped

  /** A reported completion: the position of its token, the operation, what came of it. */
  datatype Completion = Completion(index: nat, op: Op, result: Result)

  /** History of a connection: requests popped, responses completed, whether it was released. */
  datatype History = History(pops: nat, pushes: nat, released: bool)

  datatype Server = Server(qts: seq<Token>, next: nat, migratable: map<Qd, Token>, log: map<Qd, History>)

  function Init(): Server {
    Server([Token(0, Accept)], 1, map[], map[])
  }

  /** One completion; `None` is the unreachable case. */
  function Handle(s: Server, op: Op, result: Result): Option<Server> {
    match result
    case Accepted(newQd) =>
      Some(Server(s.qts + [Token(s.next, Pop(newQd)), Token(s.next + 1, Accept)], s.next + 2, s.migratable,
                  s.log[newQd := History(0, 0, false)]))
    case Pushed =>
      if !op.Push? || op.qd !in s.log then None else
      var t, h := Token(s.next, Pop(op.qd)), s.log[op.qd];
      Some(Server(s.qts + [t], s.next + 1, s.migratable[op.qd := t], s.log[op.qd := h.(pushes := h.pushes + 1)]))
    case Popped =>
      if !op.Pop? || op.qd !in s.log then None else
      var h := s.log[op.qd];
      Some(Server(s.qts + [Token(s.next, Push(op.qd))], s.next + 1, s.migratable - {op.qd}, s.log[op.qd := h.(pops := h.pops + 1)]))
  }

  /** The completions in the order reported; `done` are their tokens. */
  function HandleAll(s: Server, done: seq<Token>, comps: seq<Completion>): Option<Server>
    requires |done| == |comps|
    decreases |comps|
  {
    if comps == [] then Some(s)
    else
      match Handle(s, done[0].op, comps[0].result)
      case None => None
      case Some(t) => HandleAll(t, done[1..], comps[1..])
  }

  function Indices(comps: seq<Completion>): (r: seq<nat>)
    ensures |r| == |comps|
  {
    seq(|comps|, k requires 0 <= k < |comps| => comps[k].index)
  }

  /** Takes the completed tokens out by position, then handles the completions. */
  function RunBatch(s: Server, comps: seq<Completion>): Option<Server>
    requires Distinct(Indices(comps), |s.qts|)
  {
    HandleAll(s.(qts := Filtered(s.qts, Indices(comps))), Picked(s.qts, Indices(comps)), comps)
  }

  /** First position of a token. */
  function Position(qts: seq<Token>, t: Token): (r: Option<nat>)
    ensures r.Some? ==> r.value < |qts| && qts[r.value] == t && forall j :: 0 <= j < r.value ==> qts[j] != t
    ensures r == None ==> t !in qts
  {
    if qts == [] then None
    else if qts[0] == t then Some(0)
    else
      match Position(qts[1..], t)
      case None => None
      case Some(i) => Some(i + 1)
  }

  /** The LibOS finds a migratable connection safe to migrate; `None` is the failing `expect`. */
  function Release(s: Server, qd: Qd): Option<Server>
    requires qd in s.migratable && qd in s.log
  {
    match Position(s.qts, s.migratable[qd])
    case None => None
    case Some(i) => Some(s.(qts := SwapRemove(s.qts, i), migratable := s.migratable - {qd},
                            log := s.log[qd := s.log[qd].(released := true)]))
  }

  // ----- what every step keeps

  ghost predicate Live(s: Server, qd: Qd) {
    qd in s.log && !s.log[qd].released
  }

  /** How often an operation is outstanding: one accept; for a live connection one pop while it waits
      for a request, one push while a response is under way. */
  ghost function Expected(s: Server, op: Op): nat {
    match op
    case Accept => 1
    case Pop(qd) => if Live(s, qd) && s.log[qd].pops == s.log[qd].pushes then 1 else 0
    case Push(qd) => if Live(s, qd) && s.log[qd].pops == s.log[qd].pushes + 1 then 1 else 0
  }

  function Ops(qts: seq<Token>): (r: seq<Op>)
    ensures |r| == |qts|
  {
    seq(|qts|, i requires 0 <= i < |qts| => qts[i].op)
  }

  /** Requests and responses alternate, and a released connection had answered all it popped, at
      least one request. */
  ghost predicate HistoryOk(h: History) {
    && (h.pops == h.pushes || h.pops == h.pushes + 1)
    && (h.released ==> h.pops == h.pushes >= 1)
  }

  /** A connection is migratable exactly while it waits for a request and has answered one before;
      its entry is the outstanding pop. */
  ghost predicate MigratableOk(s: Server, outstanding: multiset<Token>, qd: Qd) {
    && (qd in s.migratable <==> Live(s, qd) && s.log[qd].pops == s.log[qd].pushes >= 1)
    && (qd in s.migratable ==> s.migratable[qd].op == Pop(qd) && s.migratable[qd] in outstanding)
  }

  ghost predicate OpsOk(s: Server, ops: multiset<Op>) {
    forall op: Op :: ops[op] == Expected(s, op)
  }

  /** The invariant with the completions of `pending` still to be handled. */
  ghost predicate InvWith(s: Server, pending: seq<Token>) {
    && (forall qd :: qd in s.log ==> HistoryOk(s.log[qd]))
    && OpsOk(s, multiset(Ops(s.qts)) + multiset(Ops(pending)))
    && forall qd :: MigratableOk(s, multiset(s.qts) + multiset(pending), qd)
  }

  ghost predicate Inv(s: Server) {
    InvWith(s, [])
  }

  /** What the LibOS guarantees of a result. */
  ghost predicate Legal(s: Server, op: Op, result: Result) {
    match result
    case Accepted(newQd) => op == Accept && !Live(s, newQd)
    case Pushed => op.Push?
    case Popped => op.Pop?
  }

  ghost predicate LegalAll(s: Server, done: seq<Token>, comps: seq<Completion>)
    requires |done| == |comps|
    decreases |comps|
  {
    comps == [] ||
    (&& done[0].op == comps[0].op && Legal(s, done[0].op, comps[0].result)
     && (Handle(s, done[0].op, comps[0].result).Some? ==>
           LegalAll(Handle(s, done[0].op, comps[0].result).value, done[1..], comps[1..])))
  }

  lemma OpsAppend(a: seq<Token>, b: seq<Token>)
    ensures multiset(Ops(a + b)) == multiset(Ops(a)) + multiset(Ops(b))
  {
    assert Ops(a + b) == Ops(a) + Ops(b);
  }

  /** An operation whose completion is pending is expected to be outstanding. */
  lemma PendingExpected(s: Server, pending: seq<Token>)
    requires InvWith(s, pending) && pending != []
    ensures Expected(s, pending[0].op) >= 1
  {
    assert Ops(pending)[0] == pending[0].op;
    assert pending[0].op in multiset(Ops(pending));
    assert (multiset(Ops(s.qts)) + multiset(Ops(pending)))[pending[0].op] == Expected(s, pending[0].op);
  }

  lemma {:induction false} OpsFiltered(v: seq<Token>, indices: seq<nat>)
    ensures Ops(Filtered(v, indices)) == Filtered(Ops(v), indices)
    decreases |v|
  {
    if v != [] {
      var n := |v| - 1;
      OpsFiltered(v[..n], indices);
      assert Ops(v)[..n] == Ops(v[..n]);
      if n !in indices {
        assert Ops(Filtered(v[..n], indices) + [v[n]]) == Ops(Filtered(v[..n], indices)) + [v[n].op];
      }
    }
  }

  lemma TakeKeepsOps(s: Server, indices: seq<nat>)
    requires Distinct(indices, |s.qts|) && OpsOk(s, multiset(Ops(s.qts)))
    ensures OpsOk(s.(qts := Filtered(s.qts, indices)),
                  multiset(Ops(Filtered(s.qts, indices))) + multiset(Ops(Picked(s.qts, indices))))
  {
    FilteredCounts(Ops(s.qts), indices);
    OpsFiltered(s.qts, indices);
    assert Ops(Picked(s.qts, indices)) == Picked(Ops(s.qts), indices);
    forall op: Op ensures multiset(Ops(s.qts))[op] == Expected(s.(qts := Filtered(s.qts, indices)), op) {
      assert multiset(Ops(s.qts))[op] == Expected(s, op);
    }
  }

  lemma NothingPending(s: Server)
    ensures multiset(Ops(s.qts)) + multiset(Ops([])) == multiset(Ops(s.qts))
    ensures multiset(s.qts) + multiset([]) == multiset(s.qts)
  {
    assert Ops([]) == [];
  }

  /** Filtering by position splits the outstanding operations into those left and those completed. */
  lemma TakeKeepsInv(s: Server, indices: seq<nat>)
    requires Inv(s) && Distinct(indices, |s.qts|)
    ensures InvWith(s.(qts := Filtered(s.qts, indices)), Picked(s.qts, indices))
  {
    var t, done := s.(qts := Filtered(s.qts, indices)), Picked(s.qts, indices);
    NothingPending(s);
    TakeKeepsOps(s, indices);
    FilteredCounts(s.qts, indices);
    forall qd ensures MigratableOk(t, multiset(t.qts) + multiset(done), qd) {
      assert MigratableOk(s, multiset(s.qts), qd);
    }
  }

  function Issued(s: Server, op: Op, result: Result): seq<Token> {
    match result
    case Accepted(newQd) => [Token(s.next, Pop(newQd)), Token(s.next + 1, Accept)]
    case Pushed => if op.Push? then [Token(s.next, Pop(op.qd))] else []
    case Popped => if op.Pop? then [Token(s.next, Push(op.qd))] else []
  }

  /** The operations a handler issues make up for the completed one. */
  lemma IssuedOps(s: Server, op: Op, result: Result, o: Op)
    requires Legal(s, op, result) && Handle(s, op, result).Some? && Expected(s, op) >= 1
    ensures Expected(Handle(s, op, result).value, o) + multiset{op}[o] == Expected(s, o) + multiset(Ops(Issued(s, op, result)))[o]
  {
    match result
    case Accepted(newQd) => assert Ops(Issued(s, op, result)) == [Pop(newQd), Accept];
    case Pushed => assert Ops(Issued(s, op, result)) == [Pop(op.qd)];
    case Popped => assert Ops(Issued(s, op, result)) == [Push(op.qd)];
  }

  lemma HandleKeepsOps(s: Server, done: seq<Token>, result: Result)
    requires done != [] && Legal(s, done[0].op, result) && Handle(s, done[0].op, result).Some?
    requires Expected(s, done[0].op) >= 1 && OpsOk(s, multiset(Ops(s.qts)) + multiset(Ops(done)))
    ensures var t := Handle(s, done[0].op, result).value; OpsOk(t, multiset(Ops(t.qts)) + multiset(Ops(done[1..])))
  {
    var op := done[0].op;
    var t, issued := Handle(s, op, result).value, Issued(s, op, result);
    OpsAppend(s.qts, issued);
    OpsAppend([done[0]], done[1..]);
    assert t.qts == s.qts + issued && done == [done[0]] + done[1..] && Ops([done[0]]) == [op];
    forall o: Op ensures (multiset(Ops(t.qts)) + multiset(Ops(done[1..])))[o] == Expected(t, o) {
      assert (multiset(Ops(s.qts)) + multiset(Ops(done)))[o] == Expected(s, o);
      IssuedOps(s, op, result, o);
    }
  }

  lemma HandleKeepsMigratable(s: Server, done: seq<Token>, result: Result, qd: Qd)
    requires done != [] && Legal(s, done[0].op, result) && Handle(s, done[0].op, result).Some?
    requires Expected(s, done[0].op) >= 1 && MigratableOk(s, multiset(s.qts) + multiset(done), qd)
    requires qd in s.log ==> HistoryOk(s.log[qd])
    ensures var t := Handle(s, done[0].op, result).value; MigratableOk(t, multiset(t.qts) + multiset(done[1..]), qd)
  {
    var op := done[0].op;
    var t := Handle(s, op, result).value;
    assert t.qts == s.qts + Issued(s, op, result) && done == [done[0]] + done[1..];
    assert multiset(t.qts) == multiset(s.qts) + multiset(Issued(s, op, result));
    assert multiset(done) == multiset{done[0]} + multiset(done[1..]);
    if result.Pushed? && op.qd == qd {
      assert t.migratable[qd] in Issued(s, op, result);
    } else if qd in s.migratable && t.migratable == s.migratable {
      assert s.migratable[qd] != done[0];
    }
  }

  /** Handling one completion never fails. */
  lemma HandleKeepsInv(s: Server, done: seq<Token>, result: Result)
    requires done != [] && InvWith(s, done) && Legal(s, done[0].op, result)
    ensures Handle(s, done[0].op, result).Some? && InvWith(Handle(s, done[0].op, result).value, done[1..])
  {
    PendingExpected(s, done);
    HandleKeepsOps(s, done, result);
    forall qd ensures MigratableOk(Handle(s, done[0].op, result).value,
                                   multiset(Handle(s, done[0].op, result).value.qts) + multiset(done[1..]), qd) {
      HandleKeepsMigratable(s, done, result, qd);
    }
  }

  lemma {:induction false} HandleAllKeepsInv(s: Server, done: seq<Token>, comps: seq<Completion>)
    requires |done| == |comps| && InvWith(s, done) && LegalAll(s, done, comps)
    ensures HandleAll(s, done, comps).Some? && Inv(HandleAll(s, done, comps).value)
    decreases |comps|
  {
    if comps == [] {
      assert done == [];
    } else {
      HandleKeepsInv(s, done, comps[0].result);
      HandleAllKeepsInv(Handle(s, done[0].op, comps[0].result).value, done[1..], comps[1..]);
    }
  }

  ghost predicate LegalBatch(s: Server, comps: seq<Completion>)
    requires Distinct(Indices(comps), |s.qts|)
  {
    LegalAll(s.(qts := Filtered(s.qts, Indices(comps))), Picked(s.qts, Indices(comps)), comps)
  }

  /** A batch of completions, in any order, is handled without reaching the unreachable case. */
  lemma BatchKeepsInv(s: Server, comps: seq<Completion>)
    requires Inv(s) && Distinct(Indices(comps), |s.qts|) && LegalBatch(s, comps)
    ensures RunBatch(s, comps).Some? && Inv(RunBatch(s, comps).value)
  {
    TakeKeepsInv(s, Indices(comps));
    HandleAllKeepsInv(s.(qts := Filtered(s.qts, Indices(comps))), Picked(s.qts, Indices(comps)), comps);
  }

  /** The token of a migratable connection is found, and it is the only operation outstanding for it. */
  lemma ReleaseKeepsInv(s: Server, qd: Qd)
    requires Inv(s) && qd in s.migratable
    ensures qd in s.log && Release(s, qd).Some? && Inv(Release(s, qd).value)
  {
    NothingPending(s);
    assert MigratableOk(s, multiset(s.qts), qd);
    assert s.migratable[qd] in s.qts;
    var i := Position(s.qts, s.migratable[qd]).value;
    var t := Release(s, qd).value;
    NothingPending(t);
    ReleaseKeepsOps(s, qd, i);
    SwapRemoveCounts(s.qts, i);
    forall q ensures MigratableOk(t, multiset(t.qts), q) {
      assert MigratableOk(s, multiset(s.qts), q);
    }
  }

  lemma ReleaseKeepsOps(s: Server, qd: Qd, i: nat)
    requires OpsOk(s, multiset(Ops(s.qts))) && qd in s.migratable && qd in s.log && Expected(s, Pop(qd)) >= 1
    requires Position(s.qts, s.migratable[qd]) == Some(i) && s.qts[i].op == Pop(qd)
    ensures OpsOk(Release(s, qd).value, multiset(Ops(Release(s, qd).value.qts)))
  {
    var t := Release(s, qd).value;
    assert Ops(t.qts) == SwapRemove(Ops(s.qts), i);
    SwapRemoveCounts(Ops(s.qts), i);
    forall o: Op ensures multiset(Ops(t.qts))[o] == Expected(t, o) {
      ReleaseExpected(s, qd, o);
      assert multiset(Ops(s.qts))[Pop(qd)] == Expected(s, Pop(qd)) >= 1;
      assert multiset(Ops(s.qts))[o] == Expected(s, o);
    }
  }

  lemma ReleaseExpected(s: Server, qd: Qd, o: Op)
    requires qd in s.migratable && qd in s.log && Release(s, qd).Some? && Expected(s, Pop(qd)) >= 1
    ensures Expected(Release(s, qd).value, o) == if o == Pop(qd) then 0 else Expected(s, o)
  {
  }

  // ----- whole runs

  /** A batch of completions, or a migratable connection given up. */
  datatype Step = Batch(comps: seq<Completion>) | GiveUp(qd: Qd)

  ghost predicate Legitimate(s: Server, step: Step) {
    match step
    case Batch(comps) => Distinct(Indices(comps), |s.qts|) && LegalBatch(s, comps)
    case GiveUp(qd) => qd in s.migratable && qd in s.log
  }

  function Apply(s: Server, step: Step): Option<Server> {
    match step
    case Batch(comps) => if Distinct(Indices(comps), |s.qts|) then RunBatch(s, comps) else None
    case GiveUp(qd) => if qd in s.migratable && qd in s.log then Release(s, qd) else None
  }

  /** States reached from the start by legitimate steps that do not fail. */
  ghost predicate Reachable(s: Server, steps: seq<Step>)
    decreases |steps|
  {
    if steps == [] then s == Init()
    else
      var n := |steps| - 1;
      exists t: Server :: Reachable(t, steps[..n]) && Legitimate(t, steps[n]) && Apply(t, steps[n]) == Some(s)
  }

  lemma StepKeepsInv(s: Server, step: Step)
    requires Inv(s) && Legitimate(s, step)
    ensures Apply(s, step).Some? && Inv(Apply(s, step).value)
  {
    match step
    case Batch(comps) => BatchKeepsInv(s, comps);
    case GiveUp(qd) => ReleaseKeepsInv(s, qd);
  }

  lemma {:induction false} ReachableInv(s: Server, steps: seq<Step>)
    requires Reachable(s, steps)
    ensures Inv(s)
    decreases |steps|
  {
    if steps == [] {
      assert Ops(s.qts) == [Accept] && Ops([]) == [];
    } else {
      var n := |steps| - 1;
      var t: Server :| Reachable(t, steps[..n]) && Legitimate(t, steps[n]) && Apply(t, steps[n]) == Some(s);
      ReachableInv(t, steps[..n]);
      StepKeepsInv(t, steps[n]);
    }
  }

  // ----- what the completions alone say

  /** What one completion means for the connection `qd`. */
  function Note(h: Option<History>, op: Op, result: Result, qd: Qd): Option<History> {
    match result
    case Accepted(newQd) => if newQd == qd then Some(History(0, 0, false)) else h
    case Popped => if op == Pop(qd) && h.Some? then Some(h.value.(pops := h.value.pops + 1)) else h
    case Pushed => if op == Push(qd) && h.Some? then Some(h.value.(pushes := h.value.pushes + 1)) else h
  }

  function NoteBatch(h: Option<History>, comps: seq<Completion>, qd: Qd): Option<History>
    decreases |comps|
  {
    if comps == [] then h else NoteBatch(Note(h, comps[0].op, comps[0].result, qd), comps[1..], qd)
  }

  /** A connection since it was last accepted: requests popped, responses completed, whether it was given up. */
  function NoteAll(steps: seq<Step>, qd: Qd): Option<History> {
    if steps == [] then None
    else
      var h := NoteAll(steps[..|steps| - 1], qd);
      match steps[|steps| - 1]
      case Batch(comps) => NoteBatch(h, comps, qd)
      case GiveUp(q) => if q == qd && h.Some? then Some(h.value.(released := true)) else h
  }

  /** The same, as the server's state has it. */
  function PastIn(s: Server, qd: Qd): Option<History> {
    if qd in s.log then Some(s.log[qd]) else None
  }

  lemma {:induction false} HandleAllNoted(s: Server, done: seq<Token>, comps: seq<Completion>, qd: Qd)
    requires |done| == |comps| && InvWith(s, done) && LegalAll(s, done, comps)
    ensures HandleAll(s, done, comps).Some?
    ensures PastIn(HandleAll(s, done, comps).value, qd) == NoteBatch(PastIn(s, qd), comps, qd)
    decreases |comps|
  {
    hide InvWith;
    if comps != [] {
      HandleKeepsInv(s, done, comps[0].result);
      HandleAllNoted(Handle(s, done[0].op, comps[0].result).value, done[1..], comps[1..], qd);
    }
  }

  /** In every reachable state the server knows of each connection exactly what the completions say. */
  lemma {:induction false} ReachableNoted(s: Server, steps: seq<Step>, qd: Qd)
    requires Reachable(s, steps)
    ensures PastIn(s, qd) == NoteAll(steps, qd)
    decreases |steps|
  {
    hide Inv;
    if steps != [] {
      var n := |steps| - 1;
      var t: Server :| Reachable(t, steps[..n]) && Legitimate(t, steps[n]) && Apply(t, steps[n]) == Some(s);
      ReachableInv(t, steps[..n]);
      ReachableNoted(t, steps[..n], qd);
      match steps[n]
      case Batch(comps) =>
        TakeKeepsInv(t, Indices(comps));
        HandleAllNoted(t.(qts := Filtered(t.qts, Indices(comps))), Picked(t.qts, Indices(comps)), comps, qd);
      case GiveUp(q) =>
    }
  }

  /** Over every run: one accept is outstanding, so the loop never runs out of tokens; a connection not
      given up has one pop outstanding while it has answered all it popped, else one push; one that was
      given up has neither; and no next step fails. */
  lemma OneOperationPerConnection(s: Server, steps: seq<Step>, qd: Qd)
    requires Reachable(s, steps)
    ensures multiset(Ops(s.qts))[Accept] == 1 && s.qts != []
    ensures var h := NoteAll(steps, qd);
            && (h.Some? ==> h.value.pops == h.value.pushes || h.value.pops == h.value.pushes + 1)
            && multiset(Ops(s.qts))[Pop(qd)]
               == (if h.Some? && !h.value.released && h.value.pops == h.value.pushes then 1 else 0)
            && multiset(Ops(s.qts))[Push(qd)]
               == (if h.Some? && !h.value.released && h.value.pops == h.value.pushes + 1 then 1 else 0)
    ensures forall step :: Legitimate(s, step) ==> Apply(s, step).Some?
  {
    ReachableInv(s, steps);
    ReachableNoted(s, steps, qd);
    NothingPending(s);
    assert forall op: Op :: multiset(Ops(s.qts))[op] == Expected(s, op);
    assert multiset(Ops(s.qts))[Accept] == Expected(s, Accept) == 1;
    assert multiset(Ops(s.qts))[Pop(qd)] == Expected(s, Pop(qd)) && multiset(Ops(s.qts))[Push(qd)] == Expected(s, Push(qd));
    assert Accept in Ops(s.qts);
    forall step | Legitimate(s, step) ensures Apply(s, step).Some? {
      StepKeepsInv(s, step);
    }
  }

  /** Over every run: a connection is migratable exactly if it was not given up, has answered all it popped
      and at least one request, and its entry is its outstanding pop; what was given up had answered all
      it popped. */
  lemma MigratableIsIdle(s: Server, steps: seq<Step>, qd: Qd)
    requires Reachable(s, steps)
    ensures var h := NoteAll(steps, qd);
            && (qd in s.migratable <==> h.Some? && !h.value.released && h.value.pops == h.value.pushes >= 1)
            && (h.Some? && h.value.released ==> h.value.pops == h.value.pushes >= 1)
    ensures qd in s.migratable ==> s.migratable[qd] in s.qts && s.migratable[qd].op == Pop(qd)
  {
    ReachableInv(s, steps);
    ReachableNoted(s, steps, qd);
    NothingPending(s);
    assert MigratableOk(s, multiset(s.qts), qd);
  }

  // ----- the code

  class EventLoop {
    var qts: seq<Token>
    var migratableQds: map<Qd, Token>
    var next: nat // the number of the LibOS's next token
    ghost var log: map<Qd, History>

    ghost function State(): Server
      reads this
    {
      Server(qts, next, migratableQds, log)
    }

    constructor ()
      ensures State() == Init()
    {
      qts, next, migratableQds, log := [Token(0, Accept)], 1, map[], map[];
    }

    method Issue(op: Op) returns (qt: Token)
      modifies this`next
      ensures qt == Token(old(next), op) && next == old(next) + 1
    {
      qt := Token(next, op);
      next := next + 1;
    }

    method OnCompletion(op: Op, result: Result)
      requires Handle(State(), op, result).Some?
      modifies this
      ensures Some(State()) == Handle(old(State()), op, result)
    {
      match result {
        case Accepted(newQd) =>
          var qt := Issue(Pop(newQd));
          qts := qts + [qt];
          var again := Issue(Accept);
          qts := qts + [again];
          log := log[newQd := History(0, 0, false)];
          assert qts == old(qts) + [qt, again];
        case Pushed =>
          var qt := Issue(Pop(op.qd));
          qts := qts + [qt];
          migratableQds := migratableQds[op.qd := qt];
          log := log[op.qd := log[op.qd].(pushes := log[op.qd].pushes + 1)];
        case Popped =>
          migratableQds := migratableQds - {op.qd};
          var qt := Issue(Push(op.qd));
          qts := qts + [qt];
          log := log[op.qd := log[op.qd].(pops := log[op.qd].pops + 1)];
      }
    }

    /** The completions of one poll. */
    method ProcessBatch(comps: seq<Completion>)
      requires Distinct(Indices(comps), |qts|) && RunBatch(State(), comps).Some?
      modifies this
      ensures Some(State()) == RunBatch(old(State()), comps)
    {
      hide Handle;
      ghost var goal := RunBatch(State(), comps);
      var done := Picked(qts, Indices(comps));
      qts := Filtered(qts, Indices(comps));
      for k := 0 to |comps|
        invariant HandleAll(State(), done[k..], comps[k..]) == goal
      {
        HandleAllStep(State(), done[k..], comps[k..]);
        assert done[k..][1..] == done[k + 1..] && comps[k..][1..] == comps[k + 1..];
        OnCompletion(done[k].op, comps[k].result);
      }
    }

    /** Asks the LibOS about migratable connections until one is safe to migrate; gives up that one. */
    method PollMigrations(safe: set<Qd>) returns (given: Option<Qd>)
      requires Inv(State())
      modifies this
      ensures Inv(State())
      ensures given == None ==> State() == old(State()) && migratableQds.Keys !! safe
      ensures given.Some? ==> given.value in safe && given.value in old(migratableQds)
                              && given.value in old(log) && Some(State()) == Release(old(State()), given.value)
    {
      var left := migratableQds.Keys;
      while left != {}
        invariant left <= migratableQds.Keys && (migratableQds.Keys - left) !! safe && State() == old(State())
        decreases |left|
      {
        var qd :| qd in left;
        if qd in safe {
          ReleaseKeepsInv(State(), qd);
          var index := Position(qts, migratableQds[qd]).value;
          qts := SwapRemove(qts, index);
          migratableQds := migratableQds - {qd};
          log := log[qd := log[qd].(released := true)];
          return Some(qd);
        }
        left := left - {qd};
      }
      return None;
    }
  }

  lemma HandleAllStep(s: Server, done: seq<Token>, comps: seq<Completion>)
    requires |done| == |comps| > 0 && HandleAll(s, done, comps).Some?
    ensures Handle(s, done[0].op, comps[0].result).Some?
    ensures HandleAll(Handle(s, done[0].op, comps[0].result).value, done[1..], comps[1..]) == HandleAll(s, done, comps)
  {
  }
}
