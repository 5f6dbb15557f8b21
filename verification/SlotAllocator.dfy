/** Apportionment of weighted-round-robin slots to backends (`calculate_weights`, `distribute_slots`),
    with exact real arithmetic for the weights. */
module SlotAllocator {
  import opened Collections

  function RealSum(xs: seq<real>): real {
    if xs == [] then 0.0 else xs[0] + RealSum(xs[1..])
  }

  // ----- weights

  function MaxOf(xs: seq<nat>): (m: nat)
    requires xs != []
    ensures m in xs && forall i :: 0 <= i < |xs| ==> xs[i] <= m
  {
    if |xs| == 1 then xs[0]
    else
      var m := MaxOf(xs[1..]);
      if xs[0] >= m then xs[0] else m
  }

  predicate AllZero(rps: seq<nat>) {
    forall i :: 0 <= i < |rps| ==> rps[i] == 0
  }

  function Weight(maxRps: nat, rps: nat): real {
    if rps == 0 then maxRps as real else maxRps as real / rps as real
  }

  /** Inverse proportion to the load; equal weights when there is no load at all. */
  function Weights(rps: seq<nat>): (w: seq<real>)
    ensures |w| == |rps|
  {
    if AllZero(rps) then seq(|rps|, _ => 1.0)
    else seq(|rps|, i requires 0 <= i < |rps| => Weight(MaxOf(rps), rps[i]))
  }

  method CalculateWeights(rps: seq<nat>) returns (weights: seq<real>)
    ensures weights == Weights(rps)
  {
    if forall i :: 0 <= i < |rps| ==> rps[i] == 0 {
      return seq(|rps|, _ => 1.0);
    }
    var maxRps := MaxOf(rps);
    weights := [];
    for i := 0 to |rps|
      invariant |weights| == i && forall k :: 0 <= k < i ==> weights[k] == Weight(maxRps, rps[k])
    {
      if rps[i] == 0 {
        weights := weights + [maxRps as real];
      } else {
        weights := weights + [maxRps as real / rps[i] as real];
      }
    }
  }

  lemma WeightTimesLoad(m: nat, a: nat)
    requires a > 0
    ensures Weight(m, a) * a as real == m as real
  {
  }

  lemma WeightAt(rps: seq<nat>, i: nat, j: nat)
    requires i < |rps| && j < |rps| && forall k :: 0 <= k < |rps| ==> rps[k] <= rps[j]
    ensures Weights(rps)[i] == if rps[j] == 0 then 1.0 else Weight(rps[j], rps[i])
  {
    hide Weight;
    if rps[j] > 0 {
      assert MaxOf(rps) == rps[j];
    }
  }

  /** A loaded backend's weight times its load is the greatest load; an idle one weighs as much as that;
      without any load all weigh one. */
  lemma WeightsAreInverse(rps: seq<nat>, i: nat, j: nat)
    requires i < |rps| && j < |rps| && forall k :: 0 <= k < |rps| ==> rps[k] <= rps[j]
    ensures rps[j] == 0 ==> Weights(rps)[i] == 1.0
    ensures rps[j] > 0 && rps[i] == 0 ==> Weights(rps)[i] == rps[j] as real
    ensures rps[i] > 0 ==> Weights(rps)[i] * rps[i] as real == rps[j] as real
  {
    hide Weights;
    WeightAt(rps, i, j);
    if rps[i] > 0 {
      WeightTimesLoad(rps[j], rps[i]);
    }
  }

  lemma QuotientOrder(m: real, a: real, b: real)
    requires m > 0.0 && 0.0 < a < b
    ensures m / a > m / b > 0.0
  {
    var x, y := m / a, m / b;
    assert x * a == m && y * b == m;
    assert y > 0.0 && x > 0.0;
    assert x * b > x * a;
    assert (x - y) * b > 0.0;
  }

  /** A backend weighs strictly more exactly when its load is strictly lower, loads 0 and 1 counting as
      equal; no weight is zero. */
  lemma WeightsOrderLoads(rps: seq<nat>, i: nat, j: nat)
    requires i < |rps| && j < |rps|
    ensures Weights(rps)[i] > 0.0
    ensures Weights(rps)[i] > Weights(rps)[j] <==> rps[i] < rps[j] && rps[j] > 1
  {
    if !AllZero(rps) {
      var m := MaxOf(rps);
      assert rps[i] <= m && rps[j] <= m && m > 0;
      WeightPositive(m, rps[i]);
      WeightOrder(m, rps[i], rps[j]);
    }
  }

  lemma WeightPositive(m: nat, a: nat)
    requires 0 < m && a <= m
    ensures Weight(m, a) > 0.0
  {
    if a > 0 {
      assert Weight(m, a) * a as real == m as real;
    }
  }

  lemma WeightOrder(m: nat, a: nat, b: nat)
    requires 0 < m && a <= m && b <= m
    ensures Weight(m, a) > Weight(m, b) <==> a < b && b > 1
  {
    var x, y := if a == 0 then 1 else a, if b == 0 then 1 else b;
    assert Weight(m, a) == m as real / x as real && Weight(m, b) == m as real / y as real;
    if x < y {
      QuotientOrder(m as real, x as real, y as real);
    } else if y < x {
      QuotientOrder(m as real, y as real, x as real);
    }
  }

  // ----- slots

  /** First index of a largest weight. */
  function MaxIndex(w: seq<real>): (m: nat)
    requires w != []
    ensures m < |w| && forall i :: 0 <= i < |w| ==> w[i] <= w[m]
    ensures forall i :: 0 <= i < m ==> w[i] < w[m]
  {
    if |w| == 1 then 0
    else
      var m := MaxIndex(w[1..]) + 1;
      if w[0] >= w[m] then 0 else m
  }

  /** First index of a smallest weight. */
  function MinIndex(w: seq<real>): (m: nat)
    requires w != []
    ensures m < |w| && forall i :: 0 <= i < |w| ==> w[i] >= w[m]
    ensures forall i :: 0 <= i < m ==> w[i] > w[m]
  {
    if |w| == 1 then 0
    else
      var m := MinIndex(w[1..]) + 1;
      if w[0] <= w[m] then 0 else m
  }

  function Share(total: nat, w: real, sum: real): real
    requires sum > 0.0
  {
    total as real * w / sum
  }

  /** The quotient cut to an integer, but at least one slot. */
  function BaseSlot(total: nat, w: real, sum: real): (b: int)
    requires sum > 0.0
    ensures b >= 1
  {
    var q := Share(total, w, sum).Floor;
    if q > 1 then q else 1
  }

  function Base(w: seq<real>, total: nat): (b: seq<int>)
    requires RealSum(w) > 0.0
    ensures |b| == |w| && AllPositive(b)
  {
    seq(|w|, i requires 0 <= i < |w| => BaseSlot(total, w[i], RealSum(w)))
  }

  predicate AllPositive(slots: seq<int>) {
    forall i :: 0 <= i < |slots| ==> slots[i] >= 1
  }

  /** What the top-up loop adds up to: everything missing goes to the heaviest backend. */
  function TopUp(slots: seq<int>, heaviest: nat, total: nat): (r: seq<int>)
    requires heaviest < |slots|
    ensures |r| == |slots|
  {
    if Sum(slots) < total then slots[heaviest := slots[heaviest] + total - Sum(slots)] else slots
  }

  /** First backend from `i` on with more than one slot. */
  function FirstAboveOne(slots: seq<int>, i: nat): (r: nat)
    requires i <= |slots|
    ensures i <= r <= |slots| && (r < |slots| ==> slots[r] > 1) && forall k :: i <= k < r ==> slots[k] <= 1
    decreases |slots| - i
  {
    if i == |slots| || slots[i] > 1 then i else FirstAboveOne(slots, i + 1)
  }

  /** One turn of the trim loop. */
  function TrimStep(slots: seq<int>, lightest: nat): (r: seq<int>)
    requires lightest < |slots|
    ensures |r| == |slots|
  {
    if slots[lightest] > 1 then slots[lightest := slots[lightest] - 1]
    else
      var i := FirstAboveOne(slots, 0);
      if i < |slots| then slots[i := slots[i] - 1] else slots
  }

  /** Who loses the slot: the lightest backend if it can spare one, else the first that can; nobody if
      nobody can. */
  lemma TrimStepTakes(slots: seq<int>, lightest: nat)
    requires lightest < |slots|
    ensures slots[lightest] > 1 ==> TrimStep(slots, lightest) == slots[lightest := slots[lightest] - 1]
    ensures slots[lightest] <= 1 ==>
              forall k :: 0 <= k < |slots| && slots[k] > 1 && (forall i :: 0 <= i < k ==> slots[i] <= 1) ==>
                TrimStep(slots, lightest) == slots[k := slots[k] - 1]
    ensures (forall k :: 0 <= k < |slots| ==> slots[k] <= 1) ==> TrimStep(slots, lightest) == slots
  {
  }

  /** Each backend starts with the integer part of its proportional share, but at least one slot. */
  lemma BaseIsFloor(w: seq<real>, total: nat, i: nat)
    requires RealSum(w) > 0.0 && i < |w|
    ensures var share, b := total as real * w[i] / RealSum(w), Base(w, total)[i];
            if share < 1.0 then b == 1 else b as real <= share < b as real + 1.0
  {
  }

  lemma {:induction false} SumUpdate(slots: seq<int>, i: nat, v: int)
    requires i < |slots|
    ensures Sum(slots[i := v]) == Sum(slots) - slots[i] + v
  {
    if i == 0 {
      assert slots[0 := v][1..] == slots[1..];
    } else {
      SumUpdate(slots[1..], i - 1, v);
      assert slots[i := v][1..] == slots[1..][i - 1 := v];
    }
  }

  lemma {:induction false} SumAtLeastLength(slots: seq<int>)
    requires AllPositive(slots)
    ensures Sum(slots) >= |slots|
    ensures Sum(slots) == |slots| <==> forall i :: 0 <= i < |slots| ==> slots[i] == 1
  {
    if slots != [] {
      SumAtLeastLength(slots[1..]);
      assert forall i :: 0 <= i < |slots| - 1 ==> slots[1..][i] == slots[i + 1];
      if forall i :: 0 <= i < |slots| - 1 ==> slots[1..][i] == 1 {
        assert forall i :: 1 <= i < |slots| ==> slots[i] == slots[1..][i - 1];
      }
    }
  }

  /** As long as slots outnumber backends, the trim loop finds a slot to take; otherwise it is stuck. */
  lemma TrimStepProgress(slots: seq<int>, lightest: nat)
    requires lightest < |slots| && AllPositive(slots)
    ensures AllPositive(TrimStep(slots, lightest))
    ensures Sum(slots) > |slots| ==> Sum(TrimStep(slots, lightest)) == Sum(slots) - 1
    ensures Sum(slots) <= |slots| ==> TrimStep(slots, lightest) == slots
    ensures forall k :: 0 <= k < |slots| ==> slots[k] - 1 <= TrimStep(slots, lightest)[k] <= slots[k]
  {
    SumAtLeastLength(slots);
    var i := if slots[lightest] > 1 then lightest else FirstAboveOne(slots, 0);
    if i < |slots| {
      SumUpdate(slots, i, slots[i] - 1);
      assert TrimStep(slots, lightest) == slots[i := slots[i] - 1];
    }
  }

  /** The trim loop. */
  function Trim(slots: seq<int>, lightest: nat, total: nat): (r: seq<int>)
    requires lightest < |slots| <= total && AllPositive(slots)
    ensures |r| == |slots|
    decreases if Sum(slots) > total then Sum(slots) - total else 0
  {
    if Sum(slots) <= total then slots
    else
      TrimStepProgress(slots, lightest);
      Trim(TrimStep(slots, lightest), lightest, total)
  }

  /** `k` turns of the trim loop. */
  function TrimSteps(slots: seq<int>, lightest: nat, k: nat): (r: seq<int>)
    requires lightest < |slots|
    ensures |r| == |slots|
  {
    if k == 0 then slots else TrimStep(TrimSteps(slots, lightest, k - 1), lightest)
  }

  /** Termination needs a slot for every backend: with fewer slots than backends, no number of turns
      of the trim loop brings the sum down to the total. */
  lemma {:induction false} TooFewSlotsNeverEnds(slots: seq<int>, lightest: nat, total: nat, k: nat)
    requires lightest < |slots| && AllPositive(slots) && total < |slots|
    ensures AllPositive(TrimSteps(slots, lightest, k)) && Sum(TrimSteps(slots, lightest, k)) > total
  {
    if k > 0 {
      TooFewSlotsNeverEnds(slots, lightest, total, k - 1);
      TrimStepProgress(TrimSteps(slots, lightest, k - 1), lightest);
    }
    SumAtLeastLength(TrimSteps(slots, lightest, k));
  }

  /** The inputs on which the function returns. */
  predicate Distributable(w: seq<real>, total: nat) {
    && w != [] && (forall i :: 0 <= i < |w| ==> w[i] >= 0.0)
    && (RealSum(w) > 0.0 ==> |w| <= total)
  }

  function Distribute(w: seq<real>, total: nat): (r: seq<int>)
    requires Distributable(w, total)
    ensures |r| == |w|
  {
    if RealSum(w) <= 0.0 then seq(|w|, _ => total / |w|)
    else
      var slots := TopUp(Base(w, total), MaxIndex(w), total);
      assert AllPositive(slots);
      Trim(slots, MinIndex(w), total)
  }

  lemma {:induction false} TurnFirst(slots: seq<int>, lightest: nat, k: nat)
    requires lightest < |slots|
    ensures TrimSteps(TrimStep(slots, lightest), lightest, k) == TrimSteps(slots, lightest, k + 1)
  {
    if k > 0 {
      TurnFirst(slots, lightest, k - 1);
    }
  }

  lemma {:induction false} TrimIsTurns(slots: seq<int>, lightest: nat, total: nat)
    requires lightest < |slots| <= total && AllPositive(slots)
    ensures Trim(slots, lightest, total) == TrimSteps(slots, lightest, if Sum(slots) > total then Sum(slots) - total else 0)
    decreases if Sum(slots) > total then Sum(slots) - total else 0
  {
    if Sum(slots) > total {
      TrimStepProgress(slots, lightest);
      TrimIsTurns(TrimStep(slots, lightest), lightest, total);
      TurnFirst(slots, lightest, Sum(slots) - total - 1);
    }
  }

  /** Missing slots go to `hi`; then turns of trimming, aimed at `lo`, for the slots that are too many. */
  function ByTurns(w: seq<real>, total: nat, lo: nat, hi: nat): seq<int>
    requires RealSum(w) > 0.0 && lo < |w| && hi < |w|
  {
    var base := Base(w, total);
    var filled := if Sum(base) < total then base[hi := base[hi] + (total - Sum(base))] else base;
    TrimSteps(filled, lo, if Sum(filled) > total then Sum(filled) - total else 0)
  }

  /** The whole distribution: shares cut down or raised to one, what is missing to the first heaviest
      backend, and as many turns of trimming, aimed at the first lightest, as there are slots too many. */
  lemma DistributeByTurns(w: seq<real>, total: nat, lo: nat, hi: nat)
    requires Distributable(w, total) && RealSum(w) > 0.0 && lo < |w| && hi < |w|
    requires (forall i :: 0 <= i < |w| ==> w[lo] <= w[i] <= w[hi])
    requires (forall i :: 0 <= i < lo ==> w[lo] < w[i]) && (forall i :: 0 <= i < hi ==> w[i] < w[hi])
    ensures Distribute(w, total) == ByTurns(w, total, lo, hi)
  {
    Extremes(w, lo, hi);
    DistributeIsTurns(w, total);
    hide *;
  }

  lemma DistributeIsTurns(w: seq<real>, total: nat)
    requires Distributable(w, total) && RealSum(w) > 0.0
    ensures Distribute(w, total) == ByTurns(w, total, MinIndex(w), MaxIndex(w))
  {
    hide MinIndex;
    hide MaxIndex;
    hide Base;
    hide Trim;
    hide TrimSteps;
    hide Sum;
    hide RealSum;
    var filled := TopUp(Base(w, total), MaxIndex(w), total);
    assert AllPositive(filled);
    TrimIsTurns(filled, MinIndex(w), total);
  }

  lemma Extremes(w: seq<real>, lo: nat, hi: nat)
    requires lo < |w| && hi < |w| && (forall i :: 0 <= i < |w| ==> w[lo] <= w[i] <= w[hi])
    requires (forall i :: 0 <= i < lo ==> w[lo] < w[i]) && (forall i :: 0 <= i < hi ==> w[i] < w[hi])
    ensures MinIndex(w) == lo && MaxIndex(w) == hi
  {
    var a, b := MinIndex(w), MaxIndex(w);
    hide MinIndex;
    hide MaxIndex;
    assert w[a] <= w[lo] <= w[a] && w[b] <= w[hi] <= w[b];
  }

  /** The first loop. */
  method FloorSlots(w: seq<real>, total: nat, totalWeight: real) returns (slots: seq<int>)
    requires totalWeight == RealSum(w) > 0.0
    ensures slots == Base(w, total)
  {
    slots := [];
    for i := 0 to |w|
      invariant |slots| == i && forall k :: 0 <= k < i ==> slots[k] == BaseSlot(total, w[k], totalWeight)
    {
      var quotient := (total as real * w[i] / totalWeight).Floor;
      assert quotient == Share(total, w[i], totalWeight).Floor;
      slots := slots + [if quotient > 1 then quotient else 1];
    }
  }

  /** The second loop. */
  method AddMissing(w: seq<real>, base: seq<int>, total: nat) returns (slots: seq<int>)
    requires |base| == |w| > 0
    ensures slots == TopUp(base, MaxIndex(w), total)
  {
    slots := base;
    ghost var m := MaxIndex(w);
    while Sum(slots) < total
      invariant |slots| == |w| && slots == base[m := slots[m]]
      invariant Sum(slots) - slots[m] == Sum(base) - base[m]
      invariant Sum(slots) <= total || slots == base
      decreases total - Sum(slots)
    {
      var maxWeightIdx := MaxIndex(w);
      SumUpdate(slots, maxWeightIdx, slots[maxWeightIdx] + 1);
      slots := slots[maxWeightIdx := slots[maxWeightIdx] + 1];
    }
    assert base[m := base[m]] == base;
  }

  /** The body of the third loop. */
  method TakeOne(w: seq<real>, before: seq<int>) returns (slots: seq<int>)
    requires |before| == |w| > 0
    ensures slots == TrimStep(before, MinIndex(w))
  {
    slots := before;
    var minWeightIdx := MinIndex(w);
    if slots[minWeightIdx] > 1 {
      slots := slots[minWeightIdx := slots[minWeightIdx] - 1];
    } else {
      for i := 0 to |slots|
        invariant slots == before && FirstAboveOne(before, 0) == FirstAboveOne(before, i)
      {
        if slots[i] > 1 {
          slots := slots[i := slots[i] - 1];
          break;
        }
      }
    }
  }

  method DistributeSlots(w: seq<real>, total: nat) returns (slots: seq<int>)
    requires Distributable(w, total)
    ensures slots == Distribute(w, total)
  {
    var totalWeight := RealSum(w);
    NonNegativeSum(w);
    if totalWeight == 0.0 {
      return seq(|w|, _ => total / |w|);
    }
    slots := FloorSlots(w, total, totalWeight);
    slots := AddMissing(w, slots, total);
    ghost var goal := Trim(slots, MinIndex(w), total);
    while Sum(slots) > total
      invariant |slots| == |w| && AllPositive(slots) && Trim(slots, MinIndex(w), total) == goal
      decreases Sum(slots) - total
    {
      TrimStepProgress(slots, MinIndex(w));
      slots := TakeOne(w, slots);
    }
  }

  lemma {:induction false} NonNegativeSum(w: seq<real>)
    requires forall i :: 0 <= i < |w| ==> w[i] >= 0.0
    ensures RealSum(w) >= 0.0
  {
    if w != [] {
      NonNegativeSum(w[1..]);
    }
  }
}
