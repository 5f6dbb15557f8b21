/** The switch's register table of backend ports, its initial fill, and the monitor loop that rewrites it. */
module Monitor {
  import opened Collections
  import opened SlotAllocator
  import opened Apportionment

  const NUM_PORTS: nat := 4
  const BASE_PORT: nat := 10000
  const TOTAL_SLOTS: nat := 16

  function Count(regs: seq<int>, port: int): nat {
    if regs == [] then 0 else (if regs[0] == port then 1 else 0) + Count(regs[1..], port)
  }

  /** How often the table holds the port of backend `p`. */
  function PortCount(regs: seq<int>, p: nat): nat {
    Count(regs, BASE_PORT + p)
  }

  lemma {:induction false} CountAppend(a: seq<int>, b: seq<int>, port: int)
    ensures Count(a + b, port) == Count(a, port) + Count(b, port)
  {
    if a == [] {
      assert a + b == b;
    } else {
      CountAppend(a[1..], b, port);
      assert (a + b)[1..] == a[1..] + b;
    }
  }

  lemma {:induction false} CountRepeat(port: int, n: nat, other: int)
    ensures Count(Repeat(port, n), other) == if port == other then n else 0
  {
    if n > 0 {
      CountRepeat(port, n - 1, other);
      assert Repeat(port, n)[1..] == Repeat(port, n - 1);
    }
  }

  /** The first ports of the table, each as often as it has slots. */
  function Table(slots: seq<int>, ports: nat): (t: seq<int>)
    requires ports <= |slots| && AllPositive(slots)
  {
    if ports == 0 then [] else Table(slots, ports - 1) + Repeat(BASE_PORT + ports - 1, slots[ports - 1])
  }

  lemma {:induction false} TableCounts(slots: seq<int>, ports: nat, p: nat)
    requires ports <= |slots| && AllPositive(slots)
    ensures PortCount(Table(slots, ports), p) == if p < ports then slots[p] else 0
    ensures |Table(slots, ports)| == Sum(slots[..ports])
  {
    if ports > 0 {
      TableCounts(slots, ports - 1, p);
      CountAppend(Table(slots, ports - 1), Repeat(BASE_PORT + ports - 1, slots[ports - 1]), BASE_PORT + p);
      CountRepeat(BASE_PORT + ports - 1, slots[ports - 1], BASE_PORT + p);
      SumLast(slots[..ports]);
      assert slots[..ports][..ports - 1] == slots[..ports - 1];
    }
  }

  /** The ports lie in blocks, in order of the ports. */
  lemma {:induction false} TableBlocks(slots: seq<int>, ports: nat, p: nat, r: nat)
    requires p < ports <= |slots| && AllPositive(slots) && Sum(slots[..p]) <= r < Sum(slots[..p + 1])
    ensures r < |Table(slots, ports)| && Table(slots, ports)[r] == 10000 + p
  {
    TableCounts(slots, ports, p);
    TableCounts(slots, ports - 1, p);
    if p + 1 < ports {
      TableBlocks(slots, ports - 1, p, r);
    }
  }

  lemma {:induction false} SumLast(s: seq<int>)
    requires s != []
    ensures Sum(s) == Sum(s[..|s| - 1]) + s[|s| - 1]
  {
    if |s| > 1 {
      SumLast(s[1..]);
      assert s[1..][..|s| - 2] == s[..|s| - 1][1..];
    }
  }

  /** The registers realise the slots: sixteen of them, each port as often as it has slots, none without. */
  ghost predicate Realises(regs: seq<int>, slots: seq<int>) {
    && |slots| == NUM_PORTS && AllPositive(slots) && Sum(slots) == TOTAL_SLOTS
    && |regs| == TOTAL_SLOTS
    && forall p: nat :: p < NUM_PORTS ==> PortCount(regs, p) == slots[p]
  }

  /** The setup script: four registers for each port, interleaved. */
  method FillRegisters(backendPort: array<int>)
    requires backendPort.Length >= TOTAL_SLOTS
    modifies backendPort
    ensures Realises(backendPort[..TOTAL_SLOTS], [4, 4, 4, 4])
    ensures backendPort[..16] == [10000, 10001, 10002, 10003, 10000, 10001, 10002, 10003,
                                  10000, 10001, 10002, 10003, 10000, 10001, 10002, 10003]
    ensures backendPort[16..] == old(backendPort[16..])
  {
    var idx := 0;
    for portOffset := 0 to 4
      invariant idx == 4 * portOffset
      invariant forall k :: 0 <= k < idx ==> backendPort[k] == BASE_PORT + k % 4
      invariant backendPort[16..] == old(backendPort[16..])
    {
      for slotOffset := 0 to 4
        invariant idx == 4 * portOffset + slotOffset
        invariant forall k :: 0 <= k < idx ==> backendPort[k] == BASE_PORT + k % 4
        invariant backendPort[16..] == old(backendPort[16..])
      {
        backendPort[idx] := BASE_PORT + slotOffset;
        idx := idx + 1;
      }
    }
    InterleavedCounts(backendPort[..TOTAL_SLOTS]);
  }

  class WrrMonitor {
    const backendPort: array<int>
    var currentSlots: seq<int>

    ghost predicate Valid()
      reads this, backendPort
    {
      backendPort.Length >= TOTAL_SLOTS && Realises(backendPort[..TOTAL_SLOTS], currentSlots)
    }

    /** The monitor starts on the table that the setup script left. */
    constructor (registers: array<int>)
      requires registers.Length >= TOTAL_SLOTS && Realises(registers[..TOTAL_SLOTS], [4, 4, 4, 4])
      ensures backendPort == registers && Valid() && currentSlots == [4, 4, 4, 4]
    {
      backendPort := registers;
      currentSlots := [4, 4, 4, 4];
    }

    /** Writes each port into as many consecutive registers as it has slots. */
    method UpdateBackendRegisters(slots: seq<int>)
      requires |slots| == NUM_PORTS && AllPositive(slots) && |Table(slots, NUM_PORTS)| <= backendPort.Length
      modifies backendPort
      ensures backendPort[..] == Table(slots, NUM_PORTS) + old(backendPort[|Table(slots, NUM_PORTS)|..])
    {
      var idx := 0;
      ghost var end := |Table(slots, NUM_PORTS)|;
      for portOffset := 0 to NUM_PORTS
        invariant idx == |Table(slots, portOffset)| <= end
        invariant backendPort[..idx] == Table(slots, portOffset)
        invariant backendPort[end..] == old(backendPort[end..])
      {
        TableGrows(slots, portOffset);
        ghost var start := idx;
        for k := 0 to slots[portOffset]
          invariant idx == start + k
          invariant backendPort[..idx] == Table(slots, portOffset) + Repeat(BASE_PORT + portOffset, k)
          invariant backendPort[end..] == old(backendPort[end..])
        {
          backendPort[idx] := BASE_PORT + portOffset;
          idx := idx + 1;
          assert backendPort[..idx] == backendPort[..idx - 1] + [BASE_PORT + portOffset];
          assert Repeat(BASE_PORT + portOffset, k + 1) == Repeat(BASE_PORT + portOffset, k) + [BASE_PORT + portOffset];
        }
      }
      assert backendPort[..] == backendPort[..end] + backendPort[end..];
    }

    /** One turn of the monitor loop on the loads it read. */
    method Poll(rps: seq<nat>)
      requires Valid() && |rps| == NUM_PORTS
      modifies this`currentSlots, backendPort
      ensures Valid() && Distributable(Weights(rps), TOTAL_SLOTS)
      ensures currentSlots == Distribute(Weights(rps), TOTAL_SLOTS)
      ensures backendPort[..] == if currentSlots == old(currentSlots) then old(backendPort[..])
                                 else Table(currentSlots, NUM_PORTS) + old(backendPort[TOTAL_SLOTS..])
    {
      var weights := CalculateWeights(rps);
      WeightsDistributable(rps, TOTAL_SLOTS);
      var newSlots := DistributeSlots(weights, TOTAL_SLOTS);
      DistributionNearShares(weights, TOTAL_SLOTS);
      TableCounts(newSlots, NUM_PORTS, 0);
      assert newSlots[..NUM_PORTS] == newSlots;
      if newSlots != currentSlots {
        UpdateBackendRegisters(newSlots);
        currentSlots := newSlots;
        forall p: nat | p < NUM_PORTS ensures PortCount(Table(newSlots, NUM_PORTS), p) == newSlots[p] {
          TableCounts(newSlots, NUM_PORTS, p);
        }
        assert backendPort[..] == backendPort[..TOTAL_SLOTS] + backendPort[TOTAL_SLOTS..];
      }
    }

    /** The monitor loop over any sequence of readings. */
    method Run(readings: seq<seq<nat>>)
      requires Valid() && forall i :: 0 <= i < |readings| ==> |readings[i]| == NUM_PORTS
      modifies this`currentSlots, backendPort
      ensures Valid()
      ensures var n := |readings|;
              if n == 0 then currentSlots == old(currentSlots)
              else Distributable(Weights(readings[n - 1]), TOTAL_SLOTS)
                   && currentSlots == Distribute(Weights(readings[n - 1]), TOTAL_SLOTS)
    {
      for i := 0 to |readings|
        invariant Valid()
        invariant if i == 0 then currentSlots == old(currentSlots)
                  else Distributable(Weights(readings[i - 1]), TOTAL_SLOTS)
                       && currentSlots == Distribute(Weights(readings[i - 1]), TOTAL_SLOTS)
      {
        Poll(readings[i]);
      }
    }
  }

  lemma TableGrows(slots: seq<int>, p: nat)
    requires p < NUM_PORTS == |slots| && AllPositive(slots)
    ensures Table(slots, p + 1) == Table(slots, p) + Repeat(BASE_PORT + p, slots[p])
    ensures |Table(slots, p + 1)| <= |Table(slots, NUM_PORTS)|
    decreases NUM_PORTS - p
  {
    if p + 1 < NUM_PORTS {
      TableGrows(slots, p + 1);
    }
  }

  lemma CountQuad(p: nat)
    requires p < NUM_PORTS
    ensures PortCount([BASE_PORT, BASE_PORT + 1, BASE_PORT + 2, BASE_PORT + 3], p) == 1
  {
    var a, b, c, d := BASE_PORT, BASE_PORT + 1, BASE_PORT + 2, BASE_PORT + 3;
    var q := [a, b, c, d];
    assert q == [a] + ([b] + ([c] + [d]));
    CountAppend([a], [b] + ([c] + [d]), BASE_PORT + p);
    CountAppend([b], [c] + [d], BASE_PORT + p);
    CountAppend([c], [d], BASE_PORT + p);
  }

  lemma InterleavedCounts(regs: seq<int>)
    requires |regs| == TOTAL_SLOTS && forall k :: 0 <= k < TOTAL_SLOTS ==> regs[k] == BASE_PORT + k % 4
    ensures Realises(regs, [4, 4, 4, 4])
  {
    var q := [BASE_PORT, BASE_PORT + 1, BASE_PORT + 2, BASE_PORT + 3];
    assert regs == q + (q + (q + q));
    Four([4, 4, 4, 4], [0.0, 0.0, 0.0, 0.0]);
    forall p: nat | p < NUM_PORTS ensures PortCount(regs, p) == 4 {
      CountQuad(p);
      CountAppend(q, q + (q + q), BASE_PORT + p);
      CountAppend(q, q + q, BASE_PORT + p);
      CountAppend(q, q, BASE_PORT + p);
    }
  }
}
