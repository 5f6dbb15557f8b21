/** What the slot distribution guarantees: conservation, closeness to the proportional share, fairness. */
module Apportionment {
  import opened Collections
  import opened SlotAllocator

  function Shares(w: seq<real>, total: nat): (q: seq<real>)
    requires RealSum(w) > 0.0
    ensures |q| == |w|
  {
    seq(|w|, i requires 0 <= i < |w| => Share(total, w[i], RealSum(w)))
  }

  function Scaled(w: seq<real>, k: real): (r: seq<real>)
    ensures |r| == |w|
  {
    seq(|w|, i requires 0 <= i < |w| => k * w[i])
  }

  lemma {:induction false} SumScaled(w: seq<real>, k: real)
    ensures RealSum(Scaled(w, k)) == k * RealSum(w)
  {
    if w != [] {
      var u := w[1..];
      SumScaled(u, k);
      forall i | 0 <= i < |u| ensures Scaled(w, k)[1..][i] == Scaled(u, k)[i] {
        assert u[i] == w[i + 1];
      }
      assert Scaled(w, k)[1..] == Scaled(u, k);
    }
  }

  lemma SharesSum(w: seq<real>, total: nat)
    requires RealSum(w) > 0.0
    ensures RealSum(Shares(w, total)) == total as real
  {
    var sum := RealSum(w);
    var k := Quotient(total as real, sum);
    SumScaled(w, k);
    forall i | 0 <= i < |w| ensures Shares(w, total)[i] == Scaled(w, k)[i] {
      MulDiv(total as real, w[i], sum);
    }
    assert Shares(w, total) == Scaled(w, k);
  }

  lemma Quotient(t: real, s: real) returns (k: real)
    requires s > 0.0
    ensures k == t / s && k * s == t
  {
    k := t / s;
  }

  lemma MulDiv(t: real, w: real, s: real)
    requires s > 0.0
    ensures t * w / s == t / s * w
  {
    var x, y := t * w / s, t / s;
    assert x * s == t * w && y * s == t;
    assert (x - y * w) * s == 0.0;
  }

  lemma SharePositive(total: nat, w: real, sum: real)
    requires total > 0 && w > 0.0 && sum > 0.0
    ensures Share(total, w, sum) > 0.0
  {
    assert total as real * w > 0.0;
  }

  lemma ShareOrder(total: nat, a: real, b: real, sum: real)
    requires sum > 0.0 && a <= b
    ensures Share(total, a, sum) <= Share(total, b, sum)
    ensures a >= 0.0 ==> Share(total, a, sum) >= 0.0
  {
    var x, y := Share(total, a, sum), Share(total, b, sum);
    assert x * sum == total as real * a && y * sum == total as real * b;
    assert total as real * (b - a) >= 0.0;
    assert (y - x) * sum >= 0.0;
    if a >= 0.0 {
      assert x * sum >= 0.0;
    }
  }

  lemma {:induction false} SumBelowCount(q: seq<real>)
    requires q != [] && forall i :: 0 <= i < |q| ==> q[i] < 1.0
    ensures RealSum(q) < |q| as real
  {
    if |q| > 1 {
      SumBelowCount(q[1..]);
    } else {
      assert q[1..] == [];
    }
  }

  /** The heaviest backend's share is at least one slot. */
  lemma HeaviestShare(w: seq<real>, total: nat)
    requires Distributable(w, total) && RealSum(w) > 0.0
    ensures Shares(w, total)[MaxIndex(w)] >= 1.0
  {
    var q, m := Shares(w, total), MaxIndex(w);
    forall i | 0 <= i < |w| ensures q[i] <= q[m] {
      ShareOrder(total, w[i], w[m], RealSum(w));
    }
    SharesSum(w, total);
    if q[m] < 1.0 {
      SumBelowCount(q);
      assert false;
    }
  }

  /** Slot counts `b` cut down from shares `q` or raised to one. */
  ghost predicate Rounded(b: seq<int>, q: seq<real>) {
    |b| == |q| && forall i {:trigger b[i]} {:trigger q[i]} :: 0 <= i < |b| ==>
      b[i] >= 1 && q[i] >= 0.0 && b[i] as real > q[i] - 1.0 && (b[i] as real <= q[i] || (b[i] == 1 && q[i] < 1.0))
  }

  lemma BaseRounded(w: seq<real>, total: nat)
    requires Distributable(w, total) && RealSum(w) > 0.0
    ensures Rounded(Base(w, total), Shares(w, total))
  {
    forall i | 0 <= i < |w| ensures Share(total, w[i], RealSum(w)) >= 0.0 {
      ShareOrder(total, w[i], w[i], RealSum(w));
    }
  }

  /** Rounding moves the sum by less than the number of backends, upwards by less still when some
      share is at least one slot. */
  lemma {:induction false} RoundedSum(b: seq<int>, q: seq<real>, m: nat)
    requires Rounded(b, q)
    ensures b != [] ==> Sum(b) as real > RealSum(q) - |b| as real
    ensures Sum(b) as real <= RealSum(q) + |b| as real
    ensures m < |b| && q[m] >= 1.0 ==> Sum(b) as real <= RealSum(q) + |b| as real - 1.0
  {
    if b != [] {
      assert Rounded(b[1..], q[1..]) by {
        forall i | 0 <= i < |b| - 1 ensures b[1..][i] == b[i + 1] && q[1..][i] == q[i + 1] {}
      }
      assert b[0] as real > q[0] - 1.0;
      RoundedSum(b[1..], q[1..], if m == 0 then |b| else m - 1);
    }
  }

  lemma {:induction false} TrimBounds(slots: seq<int>, lightest: nat, total: nat)
    requires lightest < |slots| <= total && AllPositive(slots)
    ensures var r := Trim(slots, lightest, total);
            && AllPositive(r)
            && (Sum(slots) >= total ==> Sum(r) == total)
            && (Sum(slots) <= total ==> r == slots)
            && (forall i :: 0 <= i < |r| ==> r[i] <= slots[i])
            && (Sum(slots) >= total ==> forall i :: 0 <= i < |r| ==> slots[i] - (Sum(slots) - total) <= r[i])
    decreases if Sum(slots) > total then Sum(slots) - total else 0
  {
    if Sum(slots) > total {
      TrimStepProgress(slots, lightest);
      TrimBounds(TrimStep(slots, lightest), lightest, total);
    }
  }

  lemma TopUpBounds(slots: seq<int>, heaviest: nat, total: nat)
    requires heaviest < |slots| && AllPositive(slots)
    ensures var r := TopUp(slots, heaviest, total);
            && AllPositive(r)
            && Sum(r) == (if Sum(slots) < total then total else Sum(slots))
            && (forall i :: 0 <= i < |r| && i != heaviest ==> r[i] == slots[i])
            && r[heaviest] == slots[heaviest] + (if Sum(slots) < total then total - Sum(slots) else 0)
  {
    SumUpdate(slots, heaviest, slots[heaviest] + total - Sum(slots));
  }

  /** Every slot is handed out and every backend gets one; no backend is further than the number of
      backends from its proportional share. */
  lemma DistributionNearShares(w: seq<real>, total: nat)
    requires Distributable(w, total) && RealSum(w) > 0.0
    ensures Sum(Distribute(w, total)) == total && AllPositive(Distribute(w, total))
    ensures forall i :: 0 <= i < |w| ==>
              -(|w| as real) < Distribute(w, total)[i] as real - Shares(w, total)[i] < |w| as real
  {
    var b, q, m := Base(w, total), Shares(w, total), MaxIndex(w);
    var t := TopUp(b, m, total);
    BaseRounded(w, total);
    HeaviestShare(w, total);
    SharesSum(w, total);
    RoundedSum(b, q, m);
    TopUpBounds(b, m, total);
    TrimBounds(t, MinIndex(w), total);
    forall i | 0 <= i < |w|
      ensures -(|w| as real) < Distribute(w, total)[i] as real - q[i] < |w| as real
    {
      var r := Distribute(w, total)[i];
      assert b[i] as real > q[i] - 1.0;
      if Sum(b) <= total {
        assert r == t[i] && (i == m ==> b[m] as real <= q[m]);
      } else {
        assert b[i] - (Sum(b) - total) <= r <= b[i];
        assert |w| >= 2;
      }
    }
  }

  // ----- fairness

  /** No backend with a strictly larger weight gets fewer slots. */
  ghost predicate Fair(w: seq<real>, slots: seq<int>)
    requires |w| == |slots|
  {
    forall i, j :: 0 <= i < |w| && 0 <= j < |w| && w[i] > w[j] ==> slots[i] >= slots[j]
  }

  ghost predicate FairSplit(w: seq<real>, total: nat) {
    Distributable(w, total) && Fair(w, Distribute(w, total))
  }

  ghost predicate FairFor(rps: seq<nat>, total: nat) {
    FairSplit(Weights(rps), total)
  }

  lemma Four(b: seq<int>, q: seq<real>)
    requires |b| == |q| == 4
    ensures Sum(b) == b[0] + b[1] + b[2] + b[3]
    ensures RealSum(q) == q[0] + q[1] + q[2] + q[3]
  {
    assert b[1..][1..] == b[2..] && b[2..][1..] == b[3..] && b[3..][1..] == [];
    assert Sum(b[3..]) == b[3] && Sum(b[2..]) == b[2] + Sum(b[3..]) && Sum(b[1..]) == b[1] + Sum(b[2..]);
    assert q[1..][1..] == q[2..] && q[2..][1..] == q[3..] && q[3..][1..] == [];
    assert RealSum(q[3..]) == q[3] && RealSum(q[2..]) == q[2] + RealSum(q[3..]) && RealSum(q[1..]) == q[1] + RealSum(q[2..]);
  }

  predicate Distinct(i: nat, j: nat, k: nat, l: nat) {
    i < 4 && j < 4 && k < 4 && l < 4 && i != j && i != k && i != l && j != k && j != l && k != l
  }

  lemma FourInAnyOrder(b: seq<int>, q: seq<real>, i: nat, j: nat, k: nat, l: nat)
    requires |b| == |q| == 4 && Distinct(i, j, k, l)
    ensures Sum(b) == b[i] + b[j] + b[k] + b[l]
    ensures RealSum(q) == q[i] + q[j] + q[k] + q[l]
  {
    Four(b, q);
  }

  /** When rounding overshoots an even total by giving two of four backends their one slot for free,
      the other two differ: their slots sum to an odd number. */
  lemma Parity(b: seq<int>, q: seq<real>, total: nat, i: nat, j: nat)
    requires |b| == 4 && Rounded(b, q) && RealSum(q) == total as real && (forall k :: 0 <= k < 4 ==> q[k] > 0.0)
    requires i < 4 && j < 4 && i != j && q[i] >= 1.0 && q[j] >= 1.0 && Sum(b) > total
    ensures Sum(b) == total + 1 && (total % 2 == 0 ==> b[i] != b[j])
  {
    var k: nat := if i != 0 && j != 0 then 0 else if i != 1 && j != 1 then 1 else 2;
    var l: nat := if i != 3 && j != 3 then 3 else if i != 2 && j != 2 then 2 else 1;
    assert Distinct(i, j, k, l);
    FourInAnyOrder(b, q, i, j, k, l);
    Overshoot(b[i], b[j], b[k], b[l], q[i], q[j], q[k], q[l], total);
  }

  lemma Overshoot(bi: int, bj: int, bk: int, bl: int, qi: real, qj: real, qk: real, ql: real, total: nat)
    requires bi as real <= qi && bj as real <= qj && qk > 0.0 && ql > 0.0
    requires bk as real <= qk || (bk == 1 && qk < 1.0)
    requires bl as real <= ql || (bl == 1 && ql < 1.0)
    requires qi + qj + qk + ql == total as real && bi + bj + bk + bl > total
    ensures bk == 1 && bl == 1 && bi + bj + bk + bl == total + 1
  {
    var bs := bi + bj + bk + bl;
    assert bs as real < total as real + 2.0;
    assert bk as real <= qk ==> bs as real < total as real + 1.0;
    assert bl as real <= ql ==> bs as real < total as real + 1.0;
  }

  lemma BaseOrder(w: seq<real>, total: nat, i: nat, j: nat)
    requires Distributable(w, total) && RealSum(w) > 0.0 && i < |w| && j < |w| && w[i] > w[j]
    ensures Shares(w, total)[i] >= Shares(w, total)[j] && Base(w, total)[i] >= Base(w, total)[j]
  {
    ShareOrder(total, w[j], w[i], RealSum(w));
  }

  lemma FairPair(w: seq<real>, total: nat, i: nat, j: nat)
    requires Distributable(w, total) && RealSum(w) > 0.0 && |w| == 4 && total % 2 == 0
    requires (forall k :: 0 <= k < 4 ==> w[k] > 0.0) && i < 4 && j < 4 && w[i] > w[j]
    ensures Distribute(w, total)[i] >= Distribute(w, total)[j]
  {
    var b, q, m := Base(w, total), Shares(w, total), MaxIndex(w);
    BaseOrder(w, total, i, j);
    TopUpBounds(b, m, total);
    TrimBounds(TopUp(b, m, total), MinIndex(w), total);
    if Sum(b) > total && q[j] >= 1.0 {
      BaseRounded(w, total);
      SharesSum(w, total);
      forall k | 0 <= k < 4 ensures q[k] > 0.0 {
        SharePositive(total, w[k], RealSum(w));
      }
      Parity(b, q, total, i, j);
    } else if Sum(b) > total {
      assert b[j] == 1;
    }
  }

  /** With four backends and an even number of slots, the shipped sixteen among them, a backend with
      a strictly larger weight never gets fewer slots, whatever the loads. */
  lemma FairWhenEven(rps: seq<nat>, total: nat)
    requires |rps| == 4 && total >= 4 && total % 2 == 0
    ensures FairFor(rps, total)
  {
    var w := Weights(rps);
    WeightsDistributable(rps, total);
    forall i, j | 0 <= i < 4 && 0 <= j < 4 && w[i] > w[j]
      ensures Distribute(w, total)[i] >= Distribute(w, total)[j]
    {
      FairPair(w, total, i, j);
    }
  }

  lemma {:induction false} PositiveSum(w: seq<real>)
    requires w != [] && forall i :: 0 <= i < |w| ==> w[i] > 0.0
    ensures RealSum(w) > 0.0
  {
    if |w| > 1 {
      PositiveSum(w[1..]);
    } else {
      assert w[1..] == [];
    }
  }

  /** The weights computed from any loads can be distributed. */
  lemma WeightsDistributable(rps: seq<nat>, total: nat)
    requires rps != [] && |rps| <= total
    ensures Distributable(Weights(rps), total) && RealSum(Weights(rps)) > 0.0
    ensures forall i :: 0 <= i < |rps| ==> Weights(rps)[i] > 0.0
  {
    forall i | 0 <= i < |rps| ensures Weights(rps)[i] > 0.0 {
      WeightsOrderLoads(rps, i, i);
    }
    PositiveSum(Weights(rps));
  }

  // ----- and unfairness

  lemma UnfairLoads(m: nat) returns (rps: seq<nat>)
    requires m >= 2
    ensures |rps| == 4 && Weights(rps) == [(4 * m + 2) as real, (4 * m) as real, 1.0, 1.0]
  {
    var x := 4 * m * (2 * m + 1);
    assert x == 2 * m * (4 * m + 2) && x == (2 * m + 1) * (4 * m) && x > 2 * m + 1;
    WeightsOf(2 * m, 2 * m + 1, x, 4 * m + 2, 4 * m);
    rps := [2 * m, 2 * m + 1, x, x];
  }

  lemma WeightsOf(a: nat, b: nat, x: nat, u: nat, v: nat)
    requires 0 < a < b < x && x == a * u && x == b * v
    ensures Weights([a, b, x, x]) == [u as real, v as real, 1.0, 1.0]
  {
    var r := [a, b, x, x];
    assert MaxOf(r) == x by { assert r[2] == x; }
    assert !AllZero(r) by { assert r[0] != 0; }
    ExactQuotient(x, a, u);
    ExactQuotient(x, b, v);
    ExactQuotient(x, x, 1);
  }

  lemma ExactQuotient(x: nat, a: nat, b: nat)
    requires a > 0 && x == a * b
    ensures x as real / a as real == b as real
  {
    assert x as real == a as real * b as real;
  }

  lemma UnfairBase(m: nat)
    requires m >= 2
    ensures var w := [(4 * m + 2) as real, (4 * m) as real, 1.0, 1.0];
            Distributable(w, 2 * m + 1) && RealSum(w) > 0.0 && Base(w, 2 * m + 1) == [m, m, 1, 1]
  {
    var w := [(4 * m + 2) as real, (4 * m) as real, 1.0, 1.0];
    var total, sum := 2 * m + 1, (8 * m + 4) as real;
    Four([0, 0, 0, 0], w);
    assert RealSum(w) == sum;
    forall x: real ensures Share(total, x, sum) == x / 4.0 {
      assert sum == 4.0 * total as real;
      Quarter(total, x);
    }
    assert ((4 * m + 2) as real / 4.0).Floor == m && ((4 * m) as real / 4.0).Floor == m;
    assert (1.0 / 4.0).Floor == 0;
  }

  lemma Quarter(total: nat, x: real)
    requires total > 0
    ensures Share(total, x, 4.0 * total as real) == x / 4.0
  {
    var t := total as real;
    assert t * x == (x / 4.0) * (4.0 * t);
  }

  /** The trim loop takes its slot from the first backend that can spare one, here the heaviest. */
  lemma UnfairWhenOdd(m: nat)
    requires m >= 2
    ensures var w := [(4 * m + 2) as real, (4 * m) as real, 1.0, 1.0];
            && Distributable(w, 2 * m + 1) && Distribute(w, 2 * m + 1) == [m - 1, m, 1, 1]
            && !FairSplit(w, 2 * m + 1)
  {
    UnfairBase(m);
    var w, total, b := [(4 * m + 2) as real, (4 * m) as real, 1.0, 1.0], 2 * m + 1, [m, m, 1, 1];
    Four(b, w);
    assert TopUp(b, MaxIndex(w), total) == b;
    assert MinIndex(w) == 2 by { assert w[2] == 1.0 && w[3] == 1.0 && w[0] > 1.0 && w[1] > 1.0; }
    assert FirstAboveOne(b, 0) == 0;
    assert TrimStep(b, 2) == [m - 1, m, 1, 1];
    Four([m - 1, m, 1, 1], w);
    assert Trim([m - 1, m, 1, 1], 2, total) == [m - 1, m, 1, 1];
    assert Trim(b, 2, total) == [m - 1, m, 1, 1];
    assert w[0] > w[1];
  }


  ghost predicate FairForAllLoads(total: nat) {
    forall rps: seq<nat> | |rps| == 4 :: FairFor(rps, total)
  }

  lemma UnfairSplit(m: nat, w: seq<real>, total: nat)
    requires m >= 2 && total == 2 * m + 1 && w == [(4 * m + 2) as real, (4 * m) as real, 1.0, 1.0]
    ensures !FairSplit(w, total)
  {
    UnfairWhenOdd(m);
  }

  lemma SometimesUnfairWhenOdd(m: nat, total: nat) returns (rps: seq<nat>)
    requires m >= 2 && total == 2 * m + 1
    ensures |rps| == 4 && !FairFor(rps, total)
  {
    rps := UnfairLoads(m);
    UnfairSplit(m, Weights(rps), total);
  }

  lemma AlwaysFairWhenEven(total: nat)
    requires total >= 4 && total % 2 == 0
    ensures FairForAllLoads(total)
  {
    forall rps: seq<nat> | |rps| == 4 ensures FairFor(rps, total) {
      FairWhenEven(rps, total);
    }
  }

  /** Four backends are treated fairly under all loads exactly when the number of slots is even. */
  lemma FairIffEven(total: nat)
    requires total >= 4
    ensures FairForAllLoads(total) <==> total % 2 == 0
  {
    if total % 2 == 0 {
      AlwaysFairWhenEven(total);
    } else {
      var rps := SometimesUnfairWhenOdd(total / 2, total);
    }
  }
}
