/** The front end's queue of backends: a request goes to the one in front, which moves to the end;
    a backend that registers joins at the end. */
module RoundRobin {

  type Qd = nat

  datatype Op = Join(backend: Qd) | Dispatch

  /** The queue after one operation. */
  function Next(q: seq<Qd>, op: Op): (r: seq<Qd>)
    requires op.Dispatch? ==> q != []
    ensures r != []
  {
    match op
    case Join(b) => q + [b]
    case Dispatch => q[1..] + [q[0]]
  }

  /** No request arrives before the first backend. */
  predicate Serves(q: seq<Qd>, ops: seq<Op>) {
    q != [] || ops == [] || ops[0].Join?
  }

  function After(q: seq<Qd>, ops: seq<Op>): (r: seq<Qd>)
    requires Serves(q, ops)
    ensures q != [] ==> r != []
    decreases |ops|
  {
    if ops == [] then q else After(Next(q, ops[0]), ops[1..])
  }

  /** The backends requests were dispatched to, in order. */
  function Log(q: seq<Qd>, ops: seq<Op>): seq<Qd>
    requires Serves(q, ops)
    decreases |ops|
  {
    if ops == [] then []
    else (if ops[0].Dispatch? then [q[0]] else []) + Log(Next(q, ops[0]), ops[1..])
  }

  lemma {:induction false} TurnsBefore(x: seq<Qd>, b: Qd, z: seq<Qd>, ops: seq<Op>)
    requires b !in x && Serves(x + [b] + z, ops)
    requires b !in Log(x + [b] + z, ops) && After(x + [b] + z, ops)[0] == b
    ensures Log(x + [b] + z, ops) == x
    decreases |ops|
  {
    var q := x + [b] + z;
    if ops == [] {
      assert q[0] == b;
      assert x == [];
    } else {
      var r := Next(q, ops[0]);
      match ops[0]
      case Join(c) =>
        assert r == x + [b] + (z + [c]);
        TurnsBefore(x, b, z + [c], ops[1..]);
      case Dispatch =>
        assert Log(q, ops) == [q[0]] + Log(r, ops[1..]);
        assert q[0] in Log(q, ops);
        assert r == x[1..] + [b] + (z + [x[0]]);
        TurnsBefore(x[1..], b, z + [x[0]], ops[1..]);
        assert x == [x[0]] + x[1..];
    }
  }

  /** Between two dispatches to a backend come exactly the backends that were queued with it, once each
      and in their order, whatever backends join in between. */
  lemma BetweenDispatches(q: seq<Qd>, ops: seq<Op>)
    requires q != [] && q[0] !in q[1..]
    requires q[0] !in Log(Next(q, Dispatch), ops) && After(Next(q, Dispatch), ops)[0] == q[0]
    ensures Log(Next(q, Dispatch), ops) == q[1..]
  {
    assert q[1..] + [q[0]] + [] == Next(q, Dispatch);
    TurnsBefore(q[1..], q[0], [], ops);
  }

  // ----- balance

  function Count(log: seq<Qd>, b: Qd): nat {
    if log == [] then 0 else (if log[0] == b then 1 else 0) + Count(log[1..], b)
  }

  /** `a` and `b` are queued once each, `a` in front of `b`. */
  ghost predicate Ahead(q: seq<Qd>, a: Qd, b: Qd) {
    exists u, v, w :: q == u + [a] + v + [b] + w && a !in u + v + w && b !in u + v + w && a != b
  }

  /** No operation registers `a` or `b` again. */
  predicate Fresh(ops: seq<Op>, a: Qd, b: Qd) {
    forall i :: 0 <= i < |ops| && ops[i].Join? ==> ops[i].backend != a && ops[i].backend != b
  }

  lemma AheadNext(q: seq<Qd>, a: Qd, b: Qd, op: Op)
    requires Ahead(q, a, b) && (op.Join? ==> op.backend != a && op.backend != b)
    ensures q != []
    ensures if op.Dispatch? && q[0] == a then Ahead(Next(q, op), b, a)
            else Ahead(Next(q, op), a, b) && (op.Dispatch? ==> q[0] != b)
  {
    var u, v, w :| q == u + [a] + v + [b] + w && a !in u + v + w && b !in u + v + w && a != b;
    var r := Next(q, op);
    match op
    case Join(c) =>
      assert r == u + [a] + v + [b] + (w + [c]);
    case Dispatch =>
      if u == [] {
        assert r == v + [b] + w + [a] + [];
        assert a !in v + w + [];
      } else {
        assert r == u[1..] + [a] + v + [b] + (w + [u[0]]);
        assert u[0] in u + v + w;
        assert forall x :: x in u[1..] + v + (w + [u[0]]) ==> x in u + v + w;
      }
  }

  function FirstIndex(q: seq<Qd>, x: Qd): nat {
    if q == [] || q[0] == x then 0 else 1 + FirstIndex(q[1..], x)
  }

  lemma {:induction false} IndexAt(u: seq<Qd>, x: Qd, w: seq<Qd>)
    requires x !in u
    ensures FirstIndex(u + [x] + w, x) == |u|
  {
    if u != [] {
      IndexAt(u[1..], x, w);
      assert (u + [x] + w)[1..] == u[1..] + [x] + w;
    }
  }

  lemma AheadIndex(q: seq<Qd>, a: Qd, b: Qd)
    ensures Ahead(q, a, b) ==> FirstIndex(q, a) < FirstIndex(q, b)
  {
    if Ahead(q, a, b) {
      var u, v, w :| q == u + [a] + v + [b] + w && a !in u + v + w && b !in u + v + w && a != b;
      assert q == u + [a] + (v + [b] + w) && q == (u + [a] + v) + [b] + w;
      IndexAt(u, a, v + [b] + w);
      IndexAt(u + [a] + v, b, w);
    }
  }

  lemma AheadOneWay(q: seq<Qd>, a: Qd, b: Qd)
    ensures !(Ahead(q, a, b) && Ahead(q, b, a))
  {
    AheadIndex(q, a, b);
    AheadIndex(q, b, a);
  }

  /** Of two registered backends, the one in front has been dispatched as often as the other, or once
      less if it has fallen behind it; so their dispatch counts never differ by more than one. */
  lemma {:induction false} DispatchesBalanced(q: seq<Qd>, ops: seq<Op>, a: Qd, b: Qd)
    requires Ahead(q, a, b) && Serves(q, ops) && Fresh(ops, a, b)
    ensures Ahead(After(q, ops), a, b) || Ahead(After(q, ops), b, a)
    ensures Count(Log(q, ops), a) - Count(Log(q, ops), b) == if Ahead(After(q, ops), a, b) then 0 else 1
    decreases |ops|
  {
    if ops != [] {
      var r := Next(q, ops[0]);
      AheadNext(q, a, b, ops[0]);
      assert Fresh(ops[1..], a, b) && Fresh(ops[1..], b, a);
      if ops[0].Dispatch? {
        assert Log(q, ops)[1..] == Log(r, ops[1..]);
      } else {
        assert Log(q, ops) == Log(r, ops[1..]);
      }
      if Ahead(r, a, b) {
        AheadOneWay(r, a, b);
        DispatchesBalanced(r, ops[1..], a, b);
      } else {
        DispatchesBalanced(r, ops[1..], b, a);
        AheadOneWay(After(q, ops), a, b);
      }
    }
  }

  predicate NoDuplicates(q: seq<Qd>) {
    forall i, j :: 0 <= i < j < |q| ==> q[i] != q[j]
  }

  lemma OneIsAhead(q: seq<Qd>, i: nat, j: nat)
    requires NoDuplicates(q) && i < j < |q|
    ensures Ahead(q, q[i], q[j])
  {
    var u, v, w := q[..i], q[i + 1..j], q[j + 1..];
    assert q == u + [q[i]] + v + [q[j]] + w;
    assert q[i] !in u + v + w && q[j] !in u + v + w && q[i] != q[j];
  }

  /** Dispatch counts of two registered backends, counted from any moment, differ by at most one. */
  lemma DispatchCountsWithinOne(q: seq<Qd>, ops: seq<Op>, a: Qd, b: Qd)
    requires NoDuplicates(q) && a in q && b in q && Serves(q, ops) && Fresh(ops, a, b)
    ensures -1 <= Count(Log(q, ops), a) - Count(Log(q, ops), b) <= 1
  {
    var i :| 0 <= i < |q| && q[i] == a;
    var j :| 0 <= j < |q| && q[j] == b;
    if i < j {
      OneIsAhead(q, i, j);
      DispatchesBalanced(q, ops, a, b);
    } else if j < i {
      OneIsAhead(q, j, i);
      DispatchesBalanced(q, ops, b, a);
    }
  }
}
