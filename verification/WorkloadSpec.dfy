/** The generator of load schedules (workload_spec_generator.py); random choices are arbitrary choices
    within their limits, times are in milliseconds. */
module WorkloadSpec {
  import opened Collections

  /** A stretch at one rate, or a linear transition to the next rate. */
  datatype Segment = Level(rps: int, duration: int) | Transition(duration: int)

  datatype Config = Config(
    numBackends: nat, phaseInterval: int, totalTime: int, warmupRps: int, totalRpsMax: int, rpsLowerLimit: int,
    maxRpsLow: int, maxRpsHigh: int, durationLow: int, durationHigh: int, transitionLow: int, transitionHigh: int)
  {
    /** Every call of `randint` has a non-empty range, and every turn of the loops takes time. */
    predicate Valid() {
      && rpsLowerLimit <= maxRpsLow <= maxRpsHigh && rpsLowerLimit * numBackends <= totalRpsMax
      && durationLow <= durationHigh && transitionLow <= transitionHigh && transitionLow + durationLow > 0
    }

    /** Phases divide the time, and the shortest opening of a phase fits into it. */
    predicate Phased() {
      0 < phaseInterval <= totalTime && totalTime % phaseInterval == 0 && durationLow + durationHigh <= phaseInterval
    }
  }

  function Span(s: seq<Segment>): int {
    if s == [] then 0 else Span(s[..|s| - 1]) + s[|s| - 1].duration
  }

  /** Levels and transitions take turns. */
  predicate Alternates(s: seq<Segment>, levelFirst: bool) {
    forall i :: 0 <= i < |s| ==> (s[i].Level? <==> (i % 2 == 0) == levelFirst)
  }

  predicate Limited(s: seq<Segment>, limit: int) {
    forall i :: 0 <= i < |s| && s[i].Level? ==> s[i].rps <= limit
  }

  lemma {:induction false} SpanAppend(a: seq<Segment>, b: seq<Segment>)
    ensures Span(a + b) == Span(a) + Span(b)
    decreases |b|
  {
    if b == [] {
      assert a + b == a;
    } else {
      SpanAppend(a, b[..|b| - 1]);
      assert (a + b)[..|a + b| - 1] == a + b[..|b| - 1];
    }
  }

  /** What a phase looks like: it opens with a transition, ends with a level, and keeps to its limit. */
  predicate Phase(s: seq<Segment>, limit: int) {
    Alternates(s, false) && |s| % 2 == 0 && |s| > 0 && Limited(s, limit)
  }

  lemma SpanSnoc(s: seq<Segment>, last: Segment)
    ensures Span(s + [last]) == Span(s) + last.duration
  {
    assert (s + [last])[..|s|] == s;
  }

  lemma Opening(low: int, rps: int, duration: int, limit: int)
    requires rps <= limit
    ensures var s := [Transition(low), Level(rps, duration)]; Phase(s, limit) && Span(s) == low + duration
  {
    SpanSnoc([], Transition(low));
    SpanSnoc([Transition(low)], Level(rps, duration));
    assert [] + [Transition(low)] == [Transition(low)];
    assert [Transition(low)] + [Level(rps, duration)] == [Transition(low), Level(rps, duration)];
  }

  lemma AddPair(s: seq<Segment>, transition: int, rps: int, duration: int, limit: int)
    requires Phase(s, limit) && rps <= limit
    ensures var r := s + [Transition(transition)] + [Level(rps, duration)];
            Phase(r, limit) && Span(r) == Span(s) + transition + duration
  {
    SpanSnoc(s, Transition(transition));
    SpanSnoc(s + [Transition(transition)], Level(rps, duration));
  }

  lemma Prolong(s: seq<Segment>, extra: int, limit: int)
    requires Phase(s, limit)
    ensures var last := s[|s| - 1];
            && last.Level?
            && var r := s[..|s| - 1] + [Level(last.rps, last.duration + extra)];
               Phase(r, limit) && Span(r) == Span(s) + extra
  {
    var last := s[|s| - 1];
    SpanSnoc(s[..|s| - 1], Level(last.rps, last.duration + extra));
  }

  /** Rates a level may be given. */
  predicate RateOk(cfg: Config, rps: int, limit: int) {
    cfg.rpsLowerLimit - 1 <= rps && limit - 300 <= rps <= limit
  }

  /** A phase as it is drawn: it opens with the shortest transition and the start rate; all later rates
      and all transitions, and all levels but the last, are drawn from their ranges. */
  predicate Drawn(cfg: Config, s: seq<Segment>, startRps: int, opening: int, limit: int) {
    && |s| >= 2 && s[0] == Transition(cfg.durationLow) && s[1].Level? && s[1].rps == startRps && opening <= s[1].duration
    && forall i :: 2 <= i < |s| ==>
         if s[i].Level? then RateOk(cfg, s[i].rps, limit) else cfg.transitionLow <= s[i].duration <= cfg.transitionHigh
  }

  predicate DurationsOk(cfg: Config, s: seq<Segment>, n: nat)
    requires n <= |s|
  {
    forall i :: 0 <= i < n && s[i].Level? ==> cfg.durationLow <= s[i].duration <= cfg.durationHigh
  }

  /** One phase of a backend's schedule; `opening` is the duration drawn for its first level. The phase
      lasts exactly `totalTime` if its opening fits, and as long as its opening otherwise. */
  method Generate(cfg: Config, startRps: int, totalTime: int, rpsUpperLimit: int) returns (final: seq<Segment>, opening: int)
    requires cfg.Valid() && cfg.rpsLowerLimit <= rpsUpperLimit && startRps <= rpsUpperLimit
    ensures cfg.durationLow <= opening <= cfg.durationHigh && Phase(final, rpsUpperLimit)
    ensures Span(final) == if cfg.durationLow + opening <= totalTime then totalTime else cfg.durationLow + opening
    ensures Drawn(cfg, final, startRps, opening, rpsUpperLimit) && DurationsOk(cfg, final, |final| - 1)
    ensures var last := final[|final| - 1].duration;
            last <= cfg.durationHigh || last <= cfg.durationHigh + cfg.transitionHigh
  {
    hide Span;
    hide Phase;
    var startDuration: int :| cfg.durationLow <= startDuration <= cfg.durationHigh;
    opening := startDuration;
    var left := totalTime - startDuration - cfg.durationLow;
    final := [Transition(cfg.durationLow), Level(startRps, startDuration)];
    Opening(cfg.durationLow, startRps, startDuration, rpsUpperLimit);
    while left > 0
      invariant Drawn(cfg, final, startRps, opening, rpsUpperLimit) && DurationsOk(cfg, final, |final|)
      invariant Phase(final, rpsUpperLimit) && final[|final| - 1].Level?
      invariant if cfg.durationLow + opening <= totalTime then Span(final) + left == totalTime && left >= 0
                else Span(final) == cfg.durationLow + opening && left < 0
      decreases left
    {
      var transition: int :| cfg.transitionLow <= transition <= cfg.transitionHigh;
      var low := if cfg.rpsLowerLimit - 1 > rpsUpperLimit - 300 then cfg.rpsLowerLimit - 1 else rpsUpperLimit - 300;
      var rps: int :| low <= rps <= rpsUpperLimit;
      var duration: int :| cfg.durationLow <= duration <= cfg.durationHigh;
      if left - transition <= 0 {
        Prolong(final, left, rpsUpperLimit);
        PhaseNonempty(final, rpsUpperLimit);
        var last := final[|final| - 1];
        final := final[..|final| - 1] + [Level(last.rps, last.duration + left)];
        left := 0;
        break;
      }
      if left - (transition + duration) < 0 {
        AddPair(final, transition, rps, left - transition, rpsUpperLimit);
        final := final + [Transition(transition)];
        left := left - transition;
        if left != 0 {
          final := final + [Level(rps, left)];
          left := 0;
        }
        break;
      }
      AddPair(final, transition, rps, duration, rpsUpperLimit);
      final := final + [Transition(transition)];
      final := final + [Level(rps, duration)];
      left := left - (transition + duration);
    }
  }

  lemma PhaseNonempty(s: seq<Segment>, limit: int)
    requires Phase(s, limit)
    ensures |s| > 0
  {
  }

  // ----- rate limits of one phase

  lemma {:induction false} SumSplit(xs: seq<int>, i: nat)
    requires i < |xs|
    ensures Sum(xs) == xs[i] + Sum(xs[..i] + xs[i + 1..])
  {
    if i == 0 {
      assert xs[..0] + xs[1..] == xs[1..];
    } else {
      SumSplit(xs[1..], i - 1);
      var rest := xs[..i] + xs[i + 1..];
      assert rest[1..] == xs[1..][..i - 1] + xs[1..][i..];
    }
  }

  lemma {:induction false} SumPermuted(a: seq<int>, b: seq<int>)
    requires multiset(a) == multiset(b)
    ensures Sum(a) == Sum(b)
    decreases |a|
  {
    if a == [] {
      assert b == [] by { assert |multiset(b)| == |multiset(a)|; }
    } else {
      assert a[0] in multiset(a);
      var i := PositionOf(b, a[0]);
      Without(a, 0);
      Without(b, i);
      assert a[..0] + a[1..] == a[1..];
      SumPermuted(a[1..], b[..i] + b[i + 1..]);
      SumSplit(b, i);
    }
  }

  lemma {:induction false} SumRepeat(x: int, n: nat)
    ensures Sum(Repeat(x, n)) == x * n
  {
    if n > 0 {
      SumRepeat(x, n - 1);
      assert Repeat(x, n)[1..] == Repeat(x, n - 1);
    }
  }

  /** Each limit is within its bounds and together they never exceed the total; none is below the range it
      is drawn from unless the total is used up. */
  predicate LimitsOk(cfg: Config, limits: seq<int>) {
    && |limits| == cfg.numBackends && (cfg.numBackends > 0 ==> Sum(limits) <= cfg.totalRpsMax)
    && (forall i :: 0 <= i < |limits| ==> cfg.rpsLowerLimit <= limits[i] <= cfg.maxRpsHigh)
    && ((forall i :: 0 <= i < |limits| ==> limits[i] >= cfg.maxRpsLow) || Sum(limits) == cfg.totalRpsMax)
  }

  /** Upper limits of the backends' rates. */
  method GenerateRpsUpperLimits(cfg: Config) returns (limits: seq<int>)
    requires cfg.Valid()
    ensures LimitsOk(cfg, limits)
  {
    limits := Repeat(cfg.rpsLowerLimit, cfg.numBackends);
    SumRepeat(cfg.rpsLowerLimit, cfg.numBackends);
    var maxDelta := cfg.maxRpsHigh - cfg.rpsLowerLimit;
    var totalRps := cfg.totalRpsMax - cfg.rpsLowerLimit * cfg.numBackends;
    for i := 0 to cfg.numBackends
      invariant |limits| == cfg.numBackends && totalRps >= 0 && Sum(limits) + totalRps == cfg.totalRpsMax
      invariant forall k :: 0 <= k < |limits| ==> cfg.rpsLowerLimit <= limits[k] <= cfg.maxRpsHigh
      invariant forall k :: i <= k < |limits| ==> limits[k] == cfg.rpsLowerLimit
      invariant (forall k :: 0 <= k < i ==> limits[k] >= cfg.maxRpsLow) || totalRps == 0
    {
      var r: int :| cfg.maxRpsLow - cfg.rpsLowerLimit <= r <= maxDelta;
      var delta := if totalRps < r then totalRps else r;
      totalRps := totalRps - delta;
      SumSplit(limits, i);
      ghost var before := limits;
      limits := limits[i := limits[i] + delta];
      SumSplit(limits, i);
      assert limits[..i] + limits[i + 1..] == before[..i] + before[i + 1..];
      if totalRps < 0 {
        break;
      }
    }
    limits := Shuffle(limits);
  }

  method Shuffle(xs: seq<int>) returns (r: seq<int>)
    ensures |r| == |xs| && Sum(r) == Sum(xs) && forall i :: 0 <= i < |r| ==> r[i] in xs
  {
    assert multiset(xs) == multiset(xs);
    r :| multiset(r) == multiset(xs);
    SumPermuted(r, xs);
    assert |multiset(r)| == |r| && |multiset(xs)| == |xs|;
    assert forall i :: 0 <= i < |r| ==> r[i] in multiset(xs);
  }

  // ----- whole schedules

  /** After a level the schedule passes through the end of its `b`-th phase exactly. */
  ghost predicate MeetsBoundary(s: seq<Segment>, phase: int, b: int) {
    exists m :: 0 < m <= |s| && m % 2 == 1 && Span(s[..m]) == b * phase
  }

  /** A schedule of `n` phases: levels and transitions take turns from a level to a level, and every
      phase boundary is met exactly. */
  ghost predicate Schedule(s: seq<Segment>, phase: int, n: nat) {
    && Alternates(s, true) && |s| % 2 == 1 && Span(s) == n * phase
    && forall b: int :: 1 <= b <= n ==> MeetsBoundary(s, phase, b)
  }

  lemma BoundaryKept(s: seq<Segment>, gen: seq<Segment>, phase: int, b: int)
    requires MeetsBoundary(s, phase, b)
    ensures MeetsBoundary(s + gen, phase, b)
  {
    var m :| 0 < m <= |s| && m % 2 == 1 && Span(s[..m]) == b * phase;
    assert (s + gen)[..m] == s[..m];
  }

  lemma BoundaryAtEnd(s: seq<Segment>, phase: int, b: int)
    requires |s| % 2 == 1 && Span(s) == b * phase
    ensures MeetsBoundary(s, phase, b)
  {
    assert s[..|s|] == s;
  }

  lemma AlternatesAppend(s: seq<Segment>, gen: seq<Segment>)
    requires Alternates(s, true) && |s| % 2 == 1 && Alternates(gen, false) && |gen| % 2 == 0
    ensures Alternates(s + gen, true) && |s + gen| % 2 == 1
  {
    forall i | 0 <= i < |s + gen| ensures (s + gen)[i].Level? <==> i % 2 == 0 {
      if i >= |s| {
        OddPlus(|s|, i - |s|);
        assert (s + gen)[i] == gen[i - |s|];
      }
    }
    OddPlus(|s|, |gen|);
  }

  lemma OddPlus(a: nat, d: nat)
    requires a % 2 == 1
    ensures (a + d) % 2 == 0 <==> d % 2 == 1
  {
  }

  lemma ExtendSchedule(s: seq<Segment>, gen: seq<Segment>, phase: int, n: nat, limit: int)
    requires Schedule(s, phase, n) && Phase(gen, limit) && Span(gen) == phase
    ensures Schedule(s + gen, phase, n + 1)
  {
    hide MeetsBoundary;
    hide Alternates;
    hide Limited;
    hide Span;
    var r := s + gen;
    SpanAppend(s, gen);
    AlternatesAppend(s, gen);
    assert n * phase + phase == (n + 1) * phase;
    BoundaryAtEnd(r, phase, n + 1);
    forall b: int | 1 <= b <= n ensures MeetsBoundary(r, phase, b) {
      BoundaryKept(s, gen, phase, b);
    }
  }

  lemma FirstSchedule(rps: int, phase: int)
    ensures Schedule([Level(rps, phase)], phase, 1)
  {
    var s := [Level(rps, phase)];
    SpanSnoc([], s[0]);
    assert [] + [s[0]] == s;
    BoundaryAtEnd(s, phase, 1);
  }

  /** One phase as `Generate` draws it: it lasts `phaseInterval`, opens at its limit and keeps to it. */
  ghost predicate DrawnPhase(cfg: Config, s: seq<Segment>, limit: int) {
    && Phase(s, limit) && Span(s) == cfg.phaseInterval
    && Drawn(cfg, s, limit, cfg.durationLow, limit) && DurationsOk(cfg, s, |s| - 1)
  }

  /** A warm-up, then phase by phase. */
  ghost predicate KeepsLimits(cfg: Config, s: seq<Segment>, limits: seq<int>)
    decreases |limits|
  {
    if limits == [] then s == [Level(cfg.warmupRps, cfg.phaseInterval)]
    else
      var n := |limits| - 1;
      exists m :: 0 <= m <= |s| && KeepsLimits(cfg, s[..m], limits[..n]) && DrawnPhase(cfg, s[m..], limits[n])
  }

  lemma ExtendLimits(cfg: Config, s: seq<Segment>, gen: seq<Segment>, limits: seq<int>, limit: int)
    requires KeepsLimits(cfg, s, limits) && DrawnPhase(cfg, gen, limit)
    ensures KeepsLimits(cfg, s + gen, limits + [limit])
  {
    hide DrawnPhase;
    var r, ls := s + gen, limits + [limit];
    assert r[..|s|] == s && r[|s|..] == gen && ls[..|limits|] == limits;
  }

  /** The limits of one backend, phase by phase. */
  function Column(table: seq<seq<int>>, i: nat): (c: seq<int>)
    requires forall k :: 0 <= k < |table| ==> i < |table[k]|
    ensures |c| == |table|
  {
    seq(|table|, k requires 0 <= k < |table| => table[k][i])
  }

  lemma ColumnGrows(table: seq<seq<int>>, row: seq<int>, i: nat)
    requires i < |row| && forall k :: 0 <= k < |table| ==> i < |table[k]|
    ensures Column(table + [row], i) == Column(table, i) + [row[i]]
  {
  }

  /** One row of limits for each phase after the warm-up, which together never exceed the total. */
  ghost predicate LimitTable(cfg: Config, table: seq<seq<int>>) {
    forall k :: 0 <= k < |table| ==> LimitsOk(cfg, table[k])
  }

  lemma ProductPositive(m: nat, p: int)
    requires p > 0
    ensures m * p >= 0 && (m * p > 0 <==> m > 0)
  {
    if m > 0 {
      ProductPositive(m - 1, p);
      assert m * p == (m - 1) * p + p;
    }
  }

  lemma WholePhases(t: int, p: int) returns (q: nat)
    requires 0 < p <= t && t % p == 0
    ensures q == t / p && q >= 1 && t == q * p
  {
    q := t / p;
  }

  /** One phase is generated and appended to a backend's schedule. */
  method AddPhase(cfg: Config, final: seq<Segment>, limit: int, ghost n: nat, ghost limits: seq<int>)
    returns (extended: seq<Segment>)
    requires cfg.Valid() && cfg.Phased() && cfg.rpsLowerLimit <= limit
    requires Schedule(final, cfg.phaseInterval, n) && KeepsLimits(cfg, final, limits)
    ensures Schedule(extended, cfg.phaseInterval, n + 1) && KeepsLimits(cfg, extended, limits + [limit])
  {
    hide Schedule;
    hide KeepsLimits;
    hide Phase;
    hide Span;
    var gen, opening := Generate(cfg, limit, cfg.phaseInterval, limit);
    ExtendSchedule(final, gen, cfg.phaseInterval, n, limit);
    ExtendLimits(cfg, final, gen, limits, limit);
    extended := final + gen;
  }

  /** All backends' schedules after as many phases as `table` has rows, and a warm-up. */
  ghost predicate AllDrawn(cfg: Config, finals: seq<seq<Segment>>, table: seq<seq<int>>) {
    && |finals| == cfg.numBackends && LimitTable(cfg, table)
    && forall i :: 0 <= i < |finals| ==>
         Schedule(finals[i], cfg.phaseInterval, |table| + 1) && KeepsLimits(cfg, finals[i], Column(table, i))
  }

  /** One more phase for every backend. */
  method AddPhases(cfg: Config, finals: seq<seq<Segment>>, rpsLimits: seq<int>, ghost table: seq<seq<int>>)
    returns (next: seq<seq<Segment>>)
    requires cfg.Valid() && cfg.Phased() && AllDrawn(cfg, finals, table) && LimitsOk(cfg, rpsLimits)
    ensures AllDrawn(cfg, next, table + [rpsLimits])
  {
    hide Schedule;
    hide KeepsLimits;
    hide Column;
    hide Sum;
    ghost var more, n := table + [rpsLimits], |table| + 1;
    next := [];
    for i := 0 to cfg.numBackends
      invariant |next| == i
      invariant forall k :: 0 <= k < i ==>
                  Schedule(next[k], cfg.phaseInterval, n + 1) && KeepsLimits(cfg, next[k], Column(more, k))
    {
      var extended := AddPhase(cfg, finals[i], rpsLimits[i], n, Column(table, i));
      ColumnGrows(table, rpsLimits, i);
      next := next + [extended];
    }
  }

  /** `main` up to the formatting: a warm-up phase, then phases with fresh rate limits. */
  method Schedules(cfg: Config) returns (finals: seq<seq<Segment>>, ghost table: seq<seq<int>>)
    requires cfg.Valid() && cfg.Phased()
    ensures |table| == cfg.totalTime / cfg.phaseInterval - 1 && AllDrawn(cfg, finals, table)
  {
    var p := cfg.phaseInterval;
    finals := seq(cfg.numBackends, _ => [Level(cfg.warmupRps, p)]);
    table := [];
    FirstSchedule(cfg.warmupRps, p);
    var left := cfg.totalTime - p;
    ghost var q: nat := WholePhases(cfg.totalTime, p);
    ghost var todo: nat := q - 1;
    while left > 0
      invariant left == todo * p && todo < q && |table| == q - todo - 1 && AllDrawn(cfg, finals, table)
      decreases todo
    {
      ProductPositive(todo, p);
      left := left - p;
      var rpsLimits := GenerateRpsUpperLimits(cfg);
      hide AllDrawn;
      finals := AddPhases(cfg, finals, rpsLimits, table);
      table := table + [rpsLimits];
      todo := todo - 1;
    }
    ProductPositive(todo, p);
  }

  /** `calc_total_time`. */
  method CalcTotalTime(final: seq<Segment>) returns (total: int)
    requires Alternates(final, true) && |final| % 2 == 1
    ensures total == Span(final)
  {
    total := 0;
    var i := 0;
    while i < |final| - 1
      invariant 0 <= i < |final| && i % 2 == 0 && total == Span(final[..i])
      decreases |final| - i
    {
      PrefixSpan(final, i);
      PrefixSpan(final, i + 1);
      total := total + final[i].duration + final[i + 1].duration;
      i := i + 2;
    }
    PrefixSpan(final, i);
    total := total + final[|final| - 1].duration;
    assert final[..|final|] == final;
  }

  lemma PrefixSpan(s: seq<Segment>, i: nat)
    requires i < |s|
    ensures Span(s[..i + 1]) == Span(s[..i]) + s[i].duration
  {
    assert s[..i + 1][..i] == s[..i];
  }

  // ----- output

  /** An element of the printed schedule: a rate held, or a ramp between two rates, for some microseconds. */
  datatype Entry = Hold(rate: int, time: int) | Ramp(from: int, to: int, time: int)

  /** Python's `int(x * STRESS_FACTOR) * 1000`. */
  function Stressed(rps: int, stress: real): int {
    var x := rps as real * stress;
    (if x >= 0.0 then x.Floor else -(-x).Floor) * 1000
  }

  /** `rate` is a thousand times `rps * stress` cut to an integer, towards zero. */
  predicate Truncated(rate: int, rps: int, stress: real) {
    && rate % 1000 == 0
    && var t, x := rate / 1000, rps as real * stress;
       if x >= 0.0 then t as real <= x < t as real + 1.0 else t as real - 1.0 < x <= t as real
  }

  /** A held rate is that of its level, a ramp runs between those of the levels around it, all times the
      stress factor. */
  predicate RateAt(final: seq<Segment>, stress: real, out: seq<Entry>, i: nat)
    requires Alternates(final, true) && |final| % 2 == 1 && 0 < i < |final| == |out|
  {
    match final[i]
    case Level(rps, _) => out[i].Hold? && Truncated(out[i].rate, rps, stress)
    case Transition(_) =>
      && out[i].Ramp? && Truncated(out[i].from, final[i - 1].rps, stress)
      && Truncated(out[i].to, final[i + 1].rps, stress)
  }

  lemma StressedTruncates(rps: int, stress: real)
    ensures Truncated(Stressed(rps, stress), rps, stress)
  {
    var x := rps as real * stress;
    var t := if x >= 0.0 then x.Floor else -(-x).Floor;
    assert Stressed(rps, stress) == t * 1000 && t * 1000 / 1000 == t;
  }

  /** `format_output`: entries in place of their text. Every ramp meets the levels it connects, except
      that the very first level is printed without the stress factor. */
  method FormatOutput(final: seq<Segment>, stress: real) returns (out: seq<Entry>)
    requires Alternates(final, true) && |final| % 2 == 1
    ensures |out| == |final| && forall i :: 0 <= i < |out| ==> out[i].time == final[i].duration * 1000
    ensures forall i :: 0 <= i < |out| ==> (out[i].Hold? <==> final[i].Level?)
    ensures forall i :: 0 < i < |out| && out[i].Ramp? ==> i + 1 < |out| && out[i].to == out[i + 1].rate
    ensures forall i :: 1 < i < |out| && out[i].Ramp? ==> out[i].from == out[i - 1].rate
    ensures |out| > 1 ==> (out[1].from == out[0].rate <==> Stressed(final[0].rps, stress) == final[0].rps * 1000)
    ensures out[0].rate == final[0].rps * 1000
    ensures forall i :: 0 < i < |out| ==> RateAt(final, stress, out, i)
  {
    hide Stressed;
    out := [Hold(final[0].rps * 1000, final[0].duration * 1000)];
    var i := 1;
    while i < |final|
      invariant 1 <= i <= |final| && i % 2 == 1 && |out| == i
      invariant forall k :: 0 <= k < i ==> out[k] == EntryAt(final, stress, k)
      decreases |final| - i
    {
      out := out + [Ramp(Stressed(final[i - 1].rps, stress), Stressed(final[i + 1].rps, stress), final[i].duration * 1000)];
      out := out + [Hold(Stressed(final[i + 1].rps, stress), final[i + 1].duration * 1000)];
      i := i + 2;
    }
    PrintedMeets(final, stress, out);
  }

  lemma EntryRates(final: seq<Segment>, stress: real, out: seq<Entry>, i: nat)
    requires Alternates(final, true) && |final| % 2 == 1 && |out| == |final| && 0 < i < |out|
    requires out[i] == EntryAt(final, stress, i)
    ensures RateAt(final, stress, out, i)
  {
    if final[i].Level? {
      StressedTruncates(final[i].rps, stress);
    } else {
      StressedTruncates(final[i - 1].rps, stress);
      StressedTruncates(final[i + 1].rps, stress);
    }
    hide Stressed;
    hide Truncated;
  }

  lemma PrintedMeets(final: seq<Segment>, stress: real, out: seq<Entry>)
    requires Alternates(final, true) && |final| % 2 == 1 && |out| == |final|
    requires forall k :: 0 <= k < |out| ==> out[k] == EntryAt(final, stress, k)
    ensures forall i :: 0 <= i < |out| ==> (out[i].Hold? <==> final[i].Level?)
    ensures forall i :: 0 < i < |out| && out[i].Ramp? ==> i + 1 < |out| && out[i].to == out[i + 1].rate
    ensures forall i :: 1 < i < |out| && out[i].Ramp? ==> out[i].from == out[i - 1].rate
    ensures forall i :: 0 < i < |out| ==> RateAt(final, stress, out, i)
  {
    hide Stressed;
    hide RateAt;
    forall i | 0 < i < |out| ensures RateAt(final, stress, out, i) {
      EntryRates(final, stress, out, i);
    }
    forall i | 0 < i < |out| && out[i].Ramp? ensures i + 1 < |out| && out[i].to == out[i + 1].rate {
      assert final[i + 1].Level?;
    }
  }

  /** The entry printed for one segment. */
  function EntryAt(final: seq<Segment>, stress: real, k: nat): Entry
    requires Alternates(final, true) && |final| % 2 == 1 && k < |final|
  {
    match final[k]
    case Level(rps, duration) => Hold(if k == 0 then rps * 1000 else Stressed(rps, stress), duration * 1000)
    case Transition(duration) => Ramp(Stressed(final[k - 1].rps, stress), Stressed(final[k + 1].rps, stress), duration * 1000)
  }
}
