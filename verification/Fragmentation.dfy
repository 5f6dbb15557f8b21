/** Cutting a migration payload into packets and putting it together again
    (`TcpMigFragmenter`, `TcpMigDefragmenter`). */
module Fragmentation {
  import opened Bytes

  const MAX_FRAGMENT_SIZE: nat := 1500 - 20 - 28
  const U16_COUNT: nat := 0x1_0000

  /** A packet: `fragment_offset`, the negation of `flag_next_fragment`, and the payload. */
  datatype Fragment = Fragment(offset: nat, last: bool, data: seq<byte>)

  /** The packets a fragmenter still has to produce. The packet number is a `u16` and wraps. */
  function Fragments(data: seq<byte>, current: nat): (fs: seq<Fragment>)
    requires current < U16_COUNT
    decreases |data|, if current == 0 then 1 else 0
  {
    if data == [] && current != 0 then []
    else if |data| <= MAX_FRAGMENT_SIZE then
      [Fragment(current, true, data)] + Fragments([], (current + 1) % U16_COUNT)
    else [Fragment(current, false, data[..MAX_FRAGMENT_SIZE])] + Fragments(data[MAX_FRAGMENT_SIZE..], (current + 1) % U16_COUNT)
  }

  function Datas(fs: seq<Fragment>): (r: seq<seq<byte>>)
    ensures |r| == |fs|
  {
    seq(|fs|, i requires 0 <= i < |fs| => fs[i].data)
  }

  lemma FirstPacket(data: seq<byte>, current: nat)
    requires current < U16_COUNT && Fragments(data, current) != []
    ensures var rest := if |data| <= MAX_FRAGMENT_SIZE then [] else data[MAX_FRAGMENT_SIZE..];
            var f := Fragments(data, current)[0];
            && Fragments(data, current) == [f] + Fragments(rest, (current + 1) % U16_COUNT)
            && f.data + rest == data && |f.data| <= 1452 && (!f.last ==> |f.data| == 1452) && f.offset == current
  {
  }

  /** What is sent fits the network's frames: no packet carries more than 1452 bytes, all but those that
      say they are the last carry exactly as many, and they are numbered in order. */
  lemma {:induction false} PacketSizes(data: seq<byte>, current: nat)
    requires current < U16_COUNT
    ensures forall i :: 0 <= i < |Fragments(data, current)| ==>
              var f := Fragments(data, current)[i];
              |f.data| <= 1452 && (!f.last ==> |f.data| == 1452) && f.offset == (current + i) % 65536
    decreases |data|, if current == 0 then 1 else 0
  {
    var fs := Fragments(data, current);
    if fs != [] {
      FirstPacket(data, current);
      var next := (current + 1) % U16_COUNT;
      var rest := if |data| <= MAX_FRAGMENT_SIZE then [] else data[MAX_FRAGMENT_SIZE..];
      PacketSizes(rest, next);
      var more := Fragments(rest, next);
      forall i | 0 <= i < |fs|
        ensures |fs[i].data| <= 1452 && (!fs[i].last ==> |fs[i].data| == 1452) && fs[i].offset == (current + i) % 65536
      {
        if i > 0 {
          assert fs[i] == more[i - 1];
          NextNumber(current, i - 1);
        }
      }
    }
  }

  /** The packets' bytes, one after the other, are the payload. */
  lemma {:induction false} PacketsCarry(data: seq<byte>, current: nat)
    requires current < U16_COUNT
    ensures Flatten(Datas(Fragments(data, current))) == data
    decreases |data|, if current == 0 then 1 else 0
  {
    var fs := Fragments(data, current);
    if fs != [] {
      FirstPacket(data, current);
      var rest := if |data| <= MAX_FRAGMENT_SIZE then [] else data[MAX_FRAGMENT_SIZE..];
      var more := Fragments(rest, (current + 1) % U16_COUNT);
      PacketsCarry(rest, (current + 1) % U16_COUNT);
      assert Datas([fs[0]] + more) == [fs[0].data] + Datas(more);
      FlattenCons(fs[0].data, Datas(more));
    }
  }

  lemma NextNumber(current: nat, i: nat)
    requires current < U16_COUNT
    ensures ((current + 1) % U16_COUNT + i) % U16_COUNT == (current + (i + 1)) % U16_COUNT
  {
  }

  class Fragmenter {
    var data: seq<byte>
    var current: nat

    ghost predicate Valid()
      reads this
    {
      current < U16_COUNT
    }

    constructor (payload: seq<byte>)
      ensures Valid() && data == payload && current == 0
    {
      data, current := payload, 0;
    }

    /** `Iterator::next`. */
    method Next() returns (r: Option<Fragment>)
      requires Valid()
      modifies this
      ensures Valid()
      ensures r == None <==> Fragments(old(data), old(current)) == []
      ensures r.Some? ==> Fragments(old(data), old(current)) == [r.value] + Fragments(data, current)
    {
      if |data| == 0 && current != 0 {
        return None;
      }
      var last := |data| <= MAX_FRAGMENT_SIZE;
      var size := if last then |data| else MAX_FRAGMENT_SIZE;
      assert last ==> data[..size] == data && data[size..] == [];
      r := Some(Fragment(current, last, data[..size]));
      data := data[size..];
      current := (current + 1) % U16_COUNT;
    }
  }

  // ----- the packets of one payload

  /** The payload cut into full packets and a last one. */
  function Pieces(p: seq<byte>): (ps: seq<seq<byte>>)
    ensures ps != []
  {
    if |p| <= MAX_FRAGMENT_SIZE then [p] else [p[..MAX_FRAGMENT_SIZE]] + Pieces(p[MAX_FRAGMENT_SIZE..])
  }

  function Numbered(ps: seq<seq<byte>>, from: nat): (fs: seq<Fragment>)
    ensures |fs| == |ps|
  {
    seq(|ps|, i requires 0 <= i < |ps| => Fragment(from + i, i == |ps| - 1, ps[i]))
  }

  lemma {:induction false} PiecesJoin(p: seq<byte>)
    ensures Flatten(Pieces(p)) == p
  {
    if |p| <= MAX_FRAGMENT_SIZE {
      FlattenCons(p, []);
    } else {
      FlattenCons(p[..MAX_FRAGMENT_SIZE], Pieces(p[MAX_FRAGMENT_SIZE..]));
      PiecesJoin(p[MAX_FRAGMENT_SIZE..]);
    }
  }

  lemma {:induction false} PieceCount(p: seq<byte>)
    ensures (|Pieces(p)| - 1) * MAX_FRAGMENT_SIZE <= |p| <= |Pieces(p)| * MAX_FRAGMENT_SIZE
    ensures |Pieces(p)| > 1 ==> (|Pieces(p)| - 1) * MAX_FRAGMENT_SIZE < |p|
  {
    if |p| > MAX_FRAGMENT_SIZE {
      PieceCount(p[MAX_FRAGMENT_SIZE..]);
    }
  }

  lemma LastFragment(p: seq<byte>, current: nat)
    requires current < U16_COUNT && |p| <= MAX_FRAGMENT_SIZE && (p != [] || current == 0)
    ensures Fragments(p, current)
         == [Fragment(current, true, p)] + (if current + 1 == U16_COUNT then [Fragment(0, true, [])] else [])
  {
    var next := (current + 1) % U16_COUNT;
    assert Fragments(p, current) == [Fragment(current, true, p)] + Fragments([], next);
    if next == 0 {
      assert Fragments([], 0) == [Fragment(0, true, [])] + Fragments([], 1);
      assert Fragments([], 1) == [];
    } else {
      assert Fragments([], next) == [];
    }
  }

  lemma NumberedCons(piece: seq<byte>, ps: seq<seq<byte>>, from: nat)
    requires ps != []
    ensures Numbered([piece] + ps, from) == [Fragment(from, false, piece)] + Numbered(ps, from + 1)
  {
  }

  lemma {:induction false} FragmentsFrom(p: seq<byte>, current: nat)
    requires current < U16_COUNT && current + |Pieces(p)| <= U16_COUNT && (p != [] || current == 0)
    ensures Fragments(p, current) ==
            Numbered(Pieces(p), current) + (if current + |Pieces(p)| == U16_COUNT then [Fragment(0, true, [])] else [])
  {
    if |p| <= MAX_FRAGMENT_SIZE {
      LastFragment(p, current);
      assert Numbered([p], current) == [Fragment(current, true, p)];
    } else {
      var rest, ps := p[MAX_FRAGMENT_SIZE..], Pieces(p[MAX_FRAGMENT_SIZE..]);
      var stray := if current + 1 + |ps| == U16_COUNT then [Fragment(0, true, [])] else [];
      FragmentsFrom(rest, current + 1);
      NumberedCons(p[..MAX_FRAGMENT_SIZE], ps, current);
      hide Numbered;
      assert Fragments(p, current) == [Fragment(current, false, p[..MAX_FRAGMENT_SIZE])] + (Numbered(ps, current + 1) + stray);
    }
  }

  /** A payload that passes the size check of `ActiveMigration::send` becomes one packet per piece,
      except that the packet number wraps when there are exactly 65536 of them: a stray empty packet
      follows, which claims to be a complete payload. */
  lemma FragmentsOfPayload(p: seq<byte>)
    requires |p| / MAX_FRAGMENT_SIZE <= U16_COUNT - 1
    ensures Fragments(p, 0) == Numbered(Pieces(p), 0) <==> |p| <= (U16_COUNT - 1) * MAX_FRAGMENT_SIZE
    ensures Fragments(p, 0) != Numbered(Pieces(p), 0) ==> Fragments(p, 0) == Numbered(Pieces(p), 0) + [Fragment(0, true, [])]
  {
    PieceCount(p);
    assert |Pieces(p)| <= U16_COUNT;
    FragmentsFrom(p, 0);
    if |Pieces(p)| == U16_COUNT {
      assert |Fragments(p, 0)| == |Numbered(Pieces(p), 0)| + 1;
    } else {
      assert Numbered(Pieces(p), 0) + [] == Numbered(Pieces(p), 0);
    }
  }

  // ----- putting the packets together

  /** State of a reassembly: received pieces by packet number, the number of packets once it is known,
      packets and bytes counted so far. */
  datatype Partial = Partial(pieces: seq<seq<byte>>, total: Option<nat>, count: nat, size: nat)

  datatype Outcome = Panic | Pending(next: Partial) | Complete(after: Partial, payload: seq<byte>)

  /** After `reset`, which leaves the byte count alone. */
  function Reset(size: nat): Partial {
    Partial([], None, 0, size)
  }

  function Zeros(n: nat): (z: seq<byte>)
    ensures |z| == n
  {
    seq(n, _ => 0)
  }

  function Padded(pieces: seq<seq<byte>>, n: nat): (r: seq<seq<byte>>)
    ensures |pieces| <= n ==> |r| == n
    ensures |r| >= |pieces| && r[..|pieces|] == pieces && forall i :: |pieces| <= i < |r| ==> r[i] == []
  {
    if |pieces| < n then pieces + seq(n - |pieces|, _ => []) else pieces
  }

  /** One received packet. */
  function Defragment(d: Partial, f: Fragment): Outcome {
    if f.last && f.offset == 0 then Complete(Reset(d.size), f.data)
    else if f.last && f.offset + 1 < |d.pieces| then Panic // the capacity to reserve would be negative
    else
      var total := if f.last then Some(f.offset + 1) else d.total;
      var pieces := Padded(d.pieces, f.offset + 1)[f.offset := f.data];
      var next := Partial(pieces, total, d.count + 1, d.size + |f.data|);
      if total == None || total.value != next.count then Pending(next)
      else if next.size == 0 || |Flatten(pieces)| > next.size then Panic
      else Complete(Reset(next.size), Flatten(pieces) + Zeros(next.size - |Flatten(pieces)|))
  }

  /** Feeds packets until the first complete payload. */
  function Receive(d: Partial, fs: seq<Fragment>): Outcome
    decreases |fs|
  {
    if fs == [] then Pending(d)
    else
      match Defragment(d, fs[0])
      case Pending(next) => Receive(next, fs[1..])
      case o => o
  }

  // ----- packets may arrive in any order, and more than once

  /** Numbers of packets of an `n`-packet payload. */
  predicate Numbers(order: seq<nat>, n: nat) {
    forall i :: 0 <= i < |order| ==> order[i] < n
  }

  /** The first `k` entries are pairwise different. */
  predicate NoRepeat(order: seq<nat>, k: nat)
    requires k <= |order|
  {
    forall i, j :: 0 <= i < j < k ==> order[i] != order[j]
  }

  function Arrivals(fs: seq<Fragment>, order: seq<nat>): (r: seq<Fragment>)
    requires Numbers(order, |fs|)
    ensures |r| == |order|
  {
    seq(|order|, i requires 0 <= i < |order| => fs[order[i]])
  }

  ghost predicate Arrived(order: seq<nat>, k: nat, o: int)
    requires k <= |order|
  {
    exists j :: 0 <= j < k && order[j] == o
  }

  lemma ArrivedNext(order: seq<nat>, k: nat)
    requires k < |order|
    ensures forall o :: Arrived(order, k + 1, o) <==> Arrived(order, k, o) || o == order[k]
    ensures NoRepeat(order, k + 1) <==> NoRepeat(order, k) && !Arrived(order, k, order[k])
  {
    assert order[k] == order[k];
    assert Arrived(order, k, order[k]) <==> exists j :: 0 <= j < k && order[j] == order[k];
    assert NoRepeat(order, k + 1) ==> NoRepeat(order, k) && forall j :: 0 <= j < k ==> order[j] != order[k];
  }

  lemma {:induction false} AtMost(order: seq<nat>, n: nat)
    requires Numbers(order, n) && NoRepeat(order, |order|)
    ensures |order| <= n
    decreases n
  {
    if order != [] {
      assert order[0] < n;
      if m: nat :| m < |order| && order[m] == n - 1 {
        AtMost(order[..m] + order[m + 1..], n - 1);
      } else {
        AtMost(order, n - 1);
      }
    }
  }

  /** As many different numbers as there are packets: all of them. */
  lemma Pigeonhole(order: seq<nat>, n: nat)
    requires |order| == n && Numbers(order, n) && NoRepeat(order, n)
    ensures forall o :: 0 <= o < n ==> o in order
  {
    forall o: nat | o < n ensures o in order {
      if o !in order {
        AtMost(order + [o], n);
      }
    }
  }

  lemma {:induction false} PaddedFlatten(pieces: seq<seq<byte>>, n: nat)
    ensures Flatten(Padded(pieces, n)) == Flatten(pieces)
    decreases n
  {
    if |pieces| < n {
      PaddedFlatten(pieces, n - 1);
      assert Padded(pieces, n) == Padded(pieces, n - 1) + [[]];
      FlattenAppend(Padded(pieces, n - 1), [[]]);
      FlattenCons([], []);
    }
  }

  lemma FillSlot(pieces: seq<seq<byte>>, o: nat, data: seq<byte>)
    requires o < |pieces| && pieces[o] == []
    ensures |Flatten(pieces[o := data])| == |Flatten(pieces)| + |data|
  {
    FlattenAppend(pieces[..o], [data] + pieces[o + 1..]);
    FlattenAppend(pieces[..o], [[]] + pieces[o + 1..]);
    FlattenCons(data, pieces[o + 1..]);
    FlattenCons([], pieces[o + 1..]);
    assert pieces[o := data] == pieces[..o] + ([data] + pieces[o + 1..]);
    assert pieces == pieces[..o] + ([[]] + pieces[o + 1..]);
  }

  /** A payload of several packets, none of them empty. */
  predicate Several(ps: seq<seq<byte>>) {
    |ps| >= 2 && forall i :: 0 <= i < |ps| ==> ps[i] != []
  }

  function NextPartial(ps: seq<seq<byte>>, o: nat, d: Partial): Partial
    requires o < |ps|
  {
    Partial(Padded(d.pieces, o + 1)[o := ps[o]], if o == |ps| - 1 then Some(|ps|) else d.total, d.count + 1, d.size + |ps[o]|)
  }

  /** What `k` arrivals leave behind. */
  function AfterArrivals(ps: seq<seq<byte>>, order: seq<nat>, k: nat, stale: nat): Partial
    requires k <= |order| && Numbers(order, |ps|)
  {
    if k == 0 then Reset(stale) else NextPartial(ps, order[k - 1], AfterArrivals(ps, order, k - 1, stale))
  }

  /** A slot holds its piece if that has arrived and nothing otherwise. */
  ghost predicate SlotsOk(ps: seq<seq<byte>>, order: seq<nat>, k: nat, d: Partial)
    requires k <= |order|
  {
    && |d.pieces| <= |ps|
    && (forall o :: 0 <= o < |d.pieces| ==> d.pieces[o] == if Arrived(order, k, o) then ps[o] else [])
    && (forall j :: 0 <= j < k ==> order[j] < |d.pieces|)
    && d.total == (if Arrived(order, k, |ps| - 1) then Some(|ps|) else None)
    && d.count == k
  }

  /** A repeated arrival's bytes are counted although they fill no slot. */
  ghost predicate BytesOk(order: seq<nat>, k: nat, stale: nat, d: Partial)
    requires k <= |order|
  {
    && d.size >= stale + |Flatten(d.pieces)|
    && (d.size == stale + |Flatten(d.pieces)| <==> NoRepeat(order, k))
  }

  ghost predicate Heard(ps: seq<seq<byte>>, order: seq<nat>, k: nat, stale: nat, d: Partial)
    requires k <= |order|
  {
    SlotsOk(ps, order, k, d) && BytesOk(order, k, stale, d)
  }

  lemma SlotBytes(ps: seq<seq<byte>>, o: nat, d: Partial)
    requires o < |ps|
    ensures o < |d.pieces| && d.pieces[o] == ps[o] ==> NextPartial(ps, o, d).pieces == d.pieces
    ensures (o < |d.pieces| ==> d.pieces[o] == []) ==>
              |Flatten(NextPartial(ps, o, d).pieces)| == |Flatten(d.pieces)| + |ps[o]|
  {
    if o < |d.pieces| ==> d.pieces[o] == [] {
      PaddedFlatten(d.pieces, o + 1);
      FillSlot(Padded(d.pieces, o + 1), o, ps[o]);
    }
  }

  lemma SlotsNext(ps: seq<seq<byte>>, order: seq<nat>, k: nat, d: Partial)
    requires Numbers(order, |ps|) && k < |order| && SlotsOk(ps, order, k, d)
    ensures SlotsOk(ps, order, k + 1, NextPartial(ps, order[k], d))
  {
    var o, next := order[k], NextPartial(ps, order[k], d);
    ArrivedNext(order, k);
    forall q | |d.pieces| <= q ensures !Arrived(order, k, q) {
    }
    var padded := Padded(d.pieces, o + 1);
    assert forall q :: 0 <= q < |padded| ==> padded[q] == if Arrived(order, k, q) then ps[q] else [];
  }

  lemma HeardNext(ps: seq<seq<byte>>, order: seq<nat>, k: nat, stale: nat, d: Partial)
    requires Several(ps) && Numbers(order, |ps|) && k < |order| && Heard(ps, order, k, stale, d)
    ensures Heard(ps, order, k + 1, stale, NextPartial(ps, order[k], d))
  {
    var o := order[k];
    SlotsNext(ps, order, k, d);
    ArrivedNext(order, k);
    SlotBytes(ps, o, d);
    assert Arrived(order, k, o) ==> o < |d.pieces| && d.pieces[o] == ps[o];
    assert !Arrived(order, k, o) && o < |d.pieces| ==> d.pieces[o] == [];
    assert NextPartial(ps, o, d).size == d.size + |ps[o]| > d.size;
    hide SlotsOk;
    hide Flatten;
    hide NoRepeat;
    hide NextPartial;
    hide Arrived;
  }

  lemma {:induction false} HeardAfter(ps: seq<seq<byte>>, order: seq<nat>, k: nat, stale: nat)
    requires Several(ps) && Numbers(order, |ps|) && k <= |order|
    ensures Heard(ps, order, k, stale, AfterArrivals(ps, order, k, stale))
  {
    if k > 0 {
      HeardAfter(ps, order, k - 1, stale);
      HeardNext(ps, order, k - 1, stale, AfterArrivals(ps, order, k - 1, stale));
    }
  }

  /** What is handed over after `n` arrivals of an `n`-packet payload. */
  function Joined(d: Partial): seq<byte>
    requires |Flatten(d.pieces)| <= d.size
  {
    Flatten(d.pieces) + Zeros(d.size - |Flatten(d.pieces)|)
  }

  lemma DefragmentNext(ps: seq<seq<byte>>, o: nat, d: Partial)
    requires Several(ps) && o < |ps| && |d.pieces| <= |ps| && |Flatten(NextPartial(ps, o, d).pieces)| <= NextPartial(ps, o, d).size
    ensures var next := NextPartial(ps, o, d);
            Defragment(d, Fragment(o, o == |ps| - 1, ps[o]))
              == if next.total == Some(next.count) then Complete(Reset(next.size), Joined(next)) else Pending(next)
  {
    hide Flatten;
  }

  lemma DefragmentStep(ps: seq<seq<byte>>, order: seq<nat>, k: nat, stale: nat)
    requires Several(ps) && Numbers(order, |ps|) && k < |order|
    ensures var next := AfterArrivals(ps, order, k + 1, stale);
            && |Flatten(next.pieces)| <= next.size
            && Defragment(AfterArrivals(ps, order, k, stale), Fragment(order[k], order[k] == |ps| - 1, ps[order[k]]))
               == if k + 1 == |ps| && Arrived(order, |ps|, |ps| - 1) then Complete(Reset(next.size), Joined(next)) else Pending(next)
  {
    HeardAfter(ps, order, k, stale);
    HeardAfter(ps, order, k + 1, stale);
    DefragmentNext(ps, order[k], AfterArrivals(ps, order, k, stale));
    hide Flatten;
    hide Defragment;
    hide NextPartial;
    hide Arrived;
    hide NoRepeat;
    hide Several;
  }

  /** Packets of one payload in any order, some perhaps more than once: the reassembly completes with
      the arrival whose number is the number of packets, if the last packet is among the arrivals up to
      then, and never otherwise. */
  lemma {:induction false} ReceiveOutcome(ps: seq<seq<byte>>, order: seq<nat>, k: nat, stale: nat, fs: seq<Fragment>)
    requires Several(ps) && Numbers(order, |ps|) && k <= |order|
    requires |fs| == |order| - k && forall i :: 0 <= i < |fs| ==> fs[i] == Numbered(ps, 0)[order[k + i]]
    ensures |order| >= |ps| ==>
              var d := AfterArrivals(ps, order, |ps|, stale); |Flatten(d.pieces)| <= d.size
    ensures Receive(AfterArrivals(ps, order, k, stale), fs)
         == if k < |ps| <= |order| && Arrived(order, |ps|, |ps| - 1) then
              var d := AfterArrivals(ps, order, |ps|, stale); Complete(Reset(d.size), Joined(d))
            else Pending(AfterArrivals(ps, order, |order|, stale))
    decreases |order| - k
  {
    hide AfterArrivals;
    hide Defragment;
    hide Flatten;
    if |order| >= |ps| { HeardAfter(ps, order, |ps|, stale); }
    if k < |order| {
      assert fs[0] == Fragment(order[k], order[k] == |ps| - 1, ps[order[k]]);
      DefragmentStep(ps, order, k, stale);
      if !(k + 1 == |ps| && Arrived(order, |ps|, |ps| - 1)) {
        ReceiveOutcome(ps, order, k + 1, stale, fs[1..]);
      }
    }
  }

  lemma {:induction false} PiecesNotEmpty(p: seq<byte>)
    requires |p| > MAX_FRAGMENT_SIZE
    ensures Several(Pieces(p))
  {
    var rest := p[MAX_FRAGMENT_SIZE..];
    if |rest| > MAX_FRAGMENT_SIZE {
      PiecesNotEmpty(rest);
    }
  }

  lemma PayloadOutcome(p: seq<byte>, order: seq<nat>, stale: nat)
    requires MAX_FRAGMENT_SIZE < |p| <= (U16_COUNT - 1) * MAX_FRAGMENT_SIZE && Numbers(order, |Pieces(p)|)
    ensures Several(Pieces(p)) && |Fragments(p, 0)| == |Pieces(p)|
    ensures var ps := Pieces(p);
            && (|order| >= |ps| ==> Heard(ps, order, |ps|, stale, AfterArrivals(ps, order, |ps|, stale)))
            && Receive(Reset(stale), Arrivals(Fragments(p, 0), order))
               == if |ps| <= |order| && Arrived(order, |ps|, |ps| - 1) then
                    var d := AfterArrivals(ps, order, |ps|, stale); Complete(Reset(d.size), Joined(d))
                  else Pending(AfterArrivals(ps, order, |order|, stale))
  {
    var ps := Pieces(p);
    FragmentsOfPayload(p);
    PiecesNotEmpty(p);
    hide Pieces;
    hide Fragments;
    hide AfterArrivals;
    hide Receive;
    hide Several;
    hide Heard;
    hide Flatten;
    if |order| >= |ps| { HeardAfter(ps, order, |ps|, stale); }
    StartsReset(ps, order, stale);
    ReceiveOutcome(ps, order, 0, stale, Arrivals(Numbered(ps, 0), order));
  }

  lemma StartsReset(ps: seq<seq<byte>>, order: seq<nat>, stale: nat)
    requires Numbers(order, |ps|)
    ensures AfterArrivals(ps, order, 0, stale) == Reset(stale)
  {
  }

  lemma AllHeard(ps: seq<seq<byte>>, order: seq<nat>, stale: nat, d: Partial)
    requires |ps| <= |order| && Numbers(order, |ps|) && NoRepeat(order, |ps|) && Heard(ps, order, |ps|, stale, d)
    ensures d.pieces == ps && d.size == stale + |Flatten(ps)| && (ps != [] ==> Arrived(order, |ps|, |ps| - 1))
  {
    var first := order[..|ps|];
    Pigeonhole(first, |ps|);
    forall o | 0 <= o < |ps| ensures Arrived(order, |ps|, o) && o < |d.pieces| {
      assert o in first;
    }
    assert d.pieces == ps;
  }

  lemma OnePacket(p: seq<byte>, order: seq<nat>, stale: nat)
    requires |p| <= MAX_FRAGMENT_SIZE && Numbers(order, |Pieces(p)|) && order != []
    ensures |Fragments(p, 0)| == |Pieces(p)| == 1
    ensures Receive(Reset(stale), Arrivals(Fragments(p, 0), order)) == Complete(Reset(stale), p)
  {
    FragmentsOfPayload(p);
    assert order[0] == 0;
  }

  /** The first as many packets as the payload has are pairwise different. */
  predicate Delivers(order: seq<nat>, n: nat) {
    Numbers(order, n) && |order| >= n && NoRepeat(order, n)
  }

  /** The packets of a payload of at most 65535 pieces, arriving in any order, yield the payload; a
      reassembly that follows earlier ones on the same defragmenter appends as many zero bytes as
      those brought, because `reset` keeps the byte count. */
  lemma ReassemblyInAnyOrder(p: seq<byte>, order: seq<nat>, stale: nat)
    requires |p| <= (U16_COUNT - 1) * MAX_FRAGMENT_SIZE && Delivers(order, |Pieces(p)|)
    ensures |Fragments(p, 0)| == |Pieces(p)|
    ensures Receive(Reset(stale), Arrivals(Fragments(p, 0), order))
         == if |p| <= MAX_FRAGMENT_SIZE then Complete(Reset(stale), p)
            else Complete(Reset(stale + |p|), p + Zeros(stale))
  {
    if |p| <= MAX_FRAGMENT_SIZE {
      OnePacket(p, order, stale);
    } else {
      SeveralPackets(p, order, stale);
    }
  }

  lemma SeveralPackets(p: seq<byte>, order: seq<nat>, stale: nat)
    requires MAX_FRAGMENT_SIZE < |p| <= (U16_COUNT - 1) * MAX_FRAGMENT_SIZE && Delivers(order, |Pieces(p)|)
    ensures |Fragments(p, 0)| == |Pieces(p)|
    ensures Receive(Reset(stale), Arrivals(Fragments(p, 0), order)) == Complete(Reset(stale + |p|), p + Zeros(stale))
  {
    hide Receive;
    hide AfterArrivals;
    hide Pieces;
    hide Fragments;
    hide Heard;
    hide Several;
    hide Flatten;
    hide NoRepeat;
    hide Arrived;
    var ps := Pieces(p);
    PayloadOutcome(p, order, stale);
    PiecesJoin(p);
    AllHeard(ps, order, stale, AfterArrivals(ps, order, |ps|, stale));
  }

  /** Exactly then: whatever packets of a payload arrive, how often and in whatever order, the payload is
      handed over if and only if no packet comes twice before the last missing one. (The condition on
      the last byte: a repeat adds zero bytes at the end, which a payload may happen to end with.) */
  lemma ReassemblyIff(p: seq<byte>, order: seq<nat>, stale: nat)
    requires MAX_FRAGMENT_SIZE < |p| <= (U16_COUNT - 1) * MAX_FRAGMENT_SIZE && p[|p| - 1] != 0
    requires Numbers(order, |Pieces(p)|)
    ensures |Fragments(p, 0)| == |Pieces(p)|
    ensures var r := Receive(Reset(stale), Arrivals(Fragments(p, 0), order));
            (r.Complete? && r.payload == p + Zeros(stale)) <==> Delivers(order, |Pieces(p)|)
  {
    var ps := Pieces(p);
    PayloadOutcome(p, order, stale);
    if Delivers(order, |ps|) {
      ReassemblyInAnyOrder(p, order, stale);
    } else if |order| >= |ps| {
      RepeatLeavesZero(p, stale, AfterArrivals(ps, order, |ps|, stale));
    }
  }

  lemma RepeatLeavesZero(p: seq<byte>, stale: nat, d: Partial)
    requires p != [] && p[|p| - 1] != 0 && d.size > stale + |Flatten(d.pieces)|
    ensures Joined(d) != p + Zeros(stale)
  {
    var f, n := Flatten(d.pieces), |p|;
    if d.size == n + stale {
      assert Joined(d)[n - 1] == 0;
      assert (p + Zeros(stale))[n - 1] == p[n - 1];
    }
  }

  /** A packet delivered twice is counted twice: of any two-packet payload, the second packet alone
      completes the reassembly, with a payload that lacks the first. */
  lemma DuplicateCompletesEarly(p: seq<byte>)
    requires MAX_FRAGMENT_SIZE < |p| < 2 * MAX_FRAGMENT_SIZE
    ensures |Fragments(p, 0)| == 2
    ensures var f := Fragments(p, 0)[1];
            Receive(Reset(0), [f, f]) == Complete(Reset(2 * |f.data|), f.data + Zeros(|f.data|))
            && f.data + Zeros(|f.data|) != p
  {
    var b, order: seq<nat> := p[MAX_FRAGMENT_SIZE..], [1, 1];
    assert Pieces(p) == [p[..MAX_FRAGMENT_SIZE], b];
    hide Pieces;
    hide Fragments;
    hide AfterArrivals;
    hide Receive;
    hide Heard;
    FragmentsOfPayload(p);
    PayloadOutcome(p, order, 0);
    assert Arrivals(Fragments(p, 0), order) == [Fragments(p, 0)[1], Fragments(p, 0)[1]];
    TwiceTheSecond(p[..MAX_FRAGMENT_SIZE], b);
    assert |b + Zeros(|b|)| == 2 * |b|;
  }

  lemma TwiceTheSecond(a: seq<byte>, b: seq<byte>)
    ensures var ps, order: seq<nat> := [a, b], [1, 1];
            && Arrived(order, 2, 1)
            && var d := AfterArrivals(ps, order, 2, 0); d.size == 2 * |b| && Flatten(d.pieces) == b
  {
    var ps, order: seq<nat> := [a, b], [1, 1];
    assert order[0] == 1;
    var once := AfterArrivals(ps, order, 1, 0);
    StartsReset(ps, order, 0);
    assert once == NextPartial(ps, 1, Reset(0)) && AfterArrivals(ps, order, 2, 0) == NextPartial(ps, 1, once);
    hide AfterArrivals;
    assert once.pieces == [[], b] && NextPartial(ps, 1, once).pieces == [[], b];
    hide NextPartial;
    FlattenCons([], [b]);
    FlattenCons(b, []);
  }

  // ----- the code

  /** `ActiveMigration::send`: transmits every packet; a payload that is too long panics. */
  method Send(payload: seq<byte>) returns (sent: seq<Fragment>)
    requires |payload| / MAX_FRAGMENT_SIZE <= U16_COUNT - 1
    ensures sent == Fragments(payload, 0)
  {
    var fragmenter := new Fragmenter(payload);
    sent := [];
    while true
      invariant fragmenter.Valid() && fresh(fragmenter)
      invariant sent + Fragments(fragmenter.data, fragmenter.current) == Fragments(payload, 0)
      decreases |Fragments(fragmenter.data, fragmenter.current)|
    {
      var fragment := fragmenter.Next();
      if fragment == None {
        return;
      }
      sent := sent + [fragment.value];
    }
  }

  class Defragmenter {
    var fragments: seq<seq<byte>>
    var totalFragments: Option<nat>
    var currentFragments: nat
    var currentSize: nat

    ghost function Value(): Partial
      reads this
    {
      Partial(fragments, totalFragments, currentFragments, currentSize)
    }

    constructor ()
      ensures Value() == Reset(0)
    {
      fragments, totalFragments, currentFragments, currentSize := [], None, 0, 0;
    }

    method Clear()
      modifies this
      ensures Value() == Reset(old(currentSize))
    {
      fragments, totalFragments, currentFragments := [], None, 0;
    }

    method Receive(f: Fragment) returns (payload: Option<seq<byte>>)
      requires !Defragment(Value(), f).Panic?
      modifies this
      ensures payload == None ==> Defragment(old(Value()), f) == Pending(Value())
      ensures payload.Some? ==> Defragment(old(Value()), f) == Complete(Value(), payload.value)
    {
      if f.last {
        if f.offset == 0 {
          Clear();
          return Some(f.data);
        }
        totalFragments := Some(f.offset + 1);
      }
      if f.offset >= |fragments| {
        Extend(f.offset + 1);
      }
      currentSize := currentSize + |f.data|;
      currentFragments := currentFragments + 1;
      fragments := fragments[f.offset := f.data];
      if totalFragments == None || totalFragments.value != currentFragments {
        return None;
      }
      var whole := Join();
      Clear();
      payload := Some(whole);
    }

    /** Pushes empty buffers until there are `n`. */
    method Extend(n: nat)
      requires |fragments| <= n
      modifies this`fragments
      ensures fragments == Padded(old(fragments), n)
    {
      ghost var was := fragments;
      for i := |fragments| to n
        invariant fragments == was + seq(i - |was|, _ => [])
      {
        fragments := fragments + [[]];
      }
    }

    /** Copies the pieces one after the other into a zeroed buffer of `currentSize` bytes. */
    method Join() returns (whole: seq<byte>)
      requires |Flatten(fragments)| <= currentSize
      ensures whole == Flatten(fragments) + Zeros(currentSize - |Flatten(fragments)|)
    {
      whole := Zeros(currentSize);
      var start := 0;
      for i := 0 to |fragments|
        invariant start == |Flatten(fragments[..i])| <= |Flatten(fragments)|
        invariant whole == Flatten(fragments[..i]) + Zeros(currentSize - start)
      {
        var piece := fragments[i];
        var end := start + |piece|;
        PrefixFlatten(fragments, i);
        whole := whole[..start] + piece + whole[end..];
        start := end;
      }
      assert fragments[..|fragments|] == fragments;
    }
  }

  lemma PrefixFlatten(parts: seq<seq<byte>>, i: nat)
    requires i < |parts|
    ensures Flatten(parts[..i + 1]) == Flatten(parts[..i]) + parts[i]
    ensures |Flatten(parts[..i + 1])| <= |Flatten(parts)|
  {
    assert parts[..i + 1] == parts[..i] + [parts[i]];
    FlattenAppend(parts[..i], [parts[i]]);
    FlattenCons(parts[i], []);
    assert parts == parts[..i + 1] + parts[i + 1..];
    FlattenAppend(parts[..i + 1], parts[i + 1..]);
  }
}
