/** Recognising migrations in the merged time logs of the servers (`migrations` in parse_miglat.py). */
module MigrationLog {
  import opened Collections

  const STEPS: nat := 8
  const RECV_PREPARE_MIG_ACK: nat := 4

  /** A log line of one connection: time in nanoseconds and position of its step in STEPS. */
  datatype Event = Event(ns: int, step: nat)

  /** The last `p` of the first `k` events are the first `p` steps, in order. */
  predicate Suffix(evs: seq<Event>, k: nat, p: nat)
    requires k <= |evs|
  {
    p <= k && forall i :: k - p <= i < k ==> evs[i].step == i - (k - p)
  }

  /** The first `k` events end with a whole migration. */
  predicate Completes(evs: seq<Event>, k: nat)
    requires k <= |evs|
  {
    Suffix(evs, k, STEPS)
  }

  /** How many steps of an unfinished migration the first `k` events end with. */
  function Started(evs: seq<Event>, k: nat): (p: nat)
    requires k <= |evs|
    ensures p < STEPS && Suffix(evs, k, p)
    ensures forall q :: p < q < STEPS ==> !Suffix(evs, k, q)
  {
    if k == 0 then 0
    else
      var s := evs[k - 1].step;
      assert forall q: nat :: 0 < q && Suffix(evs, k, q) ==> s == q - 1;
      if s + 1 < STEPS && Suffix(evs, k, s + 1) then s + 1 else 0
  }

  /** Column the row of a migration starting at event `a` is given in front: nothing if no migration was
      under way, else the time of its first event. */
  function Lead(evs: seq<Event>, a: nat): seq<int>
    requires a < |evs|
  {
    if Started(evs, a) == 0 then [] else [evs[a].ns]
  }

  /** The first `n` intervals from event `a` on. */
  function Intervals(evs: seq<Event>, a: nat, n: nat): (r: seq<int>)
    requires a + n < |evs|
    ensures |r| == n
  {
    seq(n, i requires 0 <= i < n => evs[a + i + 1].ns - evs[a + i].ns)
  }

  /** The row of the migration that the first `k` events end with. */
  function Row(evs: seq<Event>, k: nat): seq<int>
    requires STEPS <= k <= |evs|
  {
    var a := k - STEPS;
    Lead(evs, a) + Intervals(evs, a, 7) + [evs[k - 1].ns - evs[a].ns, evs[k - 1].ns - evs[a + RECV_PREPARE_MIG_ACK].ns]
  }

  /** One row for each migration completed within the first `k` events. */
  function Rows(evs: seq<Event>, k: nat): seq<seq<int>>
    requires k <= |evs|
  {
    if k == 0 then []
    else Rows(evs, k - 1) + if Completes(evs, k) then [Row(evs, k)] else []
  }

  /** What the variables hold after `k` events, while a migration is under way. */
  ghost predicate Tracks(evs: seq<Event>, k: nat, expected: nat, initNs: int, prevNs: int, blackoutStart: int, row: seq<int>)
    requires k <= |evs|
  {
    expected == Started(evs, k) &&
    (expected > 0 ==>
       var a := k - expected;
       && initNs == evs[a].ns && prevNs == evs[k - 1].ns
       && (expected > RECV_PREPARE_MIG_ACK ==> blackoutStart == evs[a + RECV_PREPARE_MIG_ACK].ns)
       && row == Lead(evs, a) + Intervals(evs, a, expected - 1))
  }

  /** An event that fits the migration under way extends it; any other abandons it. */
  lemma StartedNext(evs: seq<Event>, k: nat)
    requires k < |evs|
    ensures var p, s := Started(evs, k), evs[k].step;
            && (s == p && p + 1 < STEPS ==> Started(evs, k + 1) == p + 1)
            && (s == p && p + 1 == STEPS ==> Started(evs, k + 1) == 0 && Completes(evs, k + 1))
            && (s != p ==> Started(evs, k + 1) == (if s == 0 then 1 else 0) && !Completes(evs, k + 1))
            && (s != STEPS - 1 ==> !Completes(evs, k + 1))
  {
    var p, s := Started(evs, k), evs[k].step;
    SuffixNext(evs, k, s);
    SuffixNext(evs, k, STEPS - 1);
    assert Suffix(evs, k, 0);
  }

  lemma SuffixNext(evs: seq<Event>, k: nat, q: nat)
    requires k < |evs|
    ensures Suffix(evs, k + 1, q + 1) <==> evs[k].step == q && Suffix(evs, k, q)
  {
    if Suffix(evs, k + 1, q + 1) {
      assert evs[k].step == q;
    }
  }

  lemma IntervalsNext(evs: seq<Event>, a: nat, n: nat)
    requires a + n + 1 < |evs|
    ensures Intervals(evs, a, n) + [evs[a + n + 1].ns - evs[a + n].ns] == Intervals(evs, a, n + 1)
  {
  }

  lemma FirstStep(evs: seq<Event>, k: nat)
    requires k < |evs|
    ensures Lead(evs, k) + Intervals(evs, k, 0) == if Started(evs, k) == 0 then [] else [evs[k].ns]
  {
    hide Started;
  }

  lemma NextStep(evs: seq<Event>, a: nat, n: nat)
    requires a + n + 1 < |evs|
    ensures Lead(evs, a) + Intervals(evs, a, n) + [evs[a + n + 1].ns - evs[a + n].ns] == Lead(evs, a) + Intervals(evs, a, n + 1)
  {
    hide Lead;
    IntervalsNext(evs, a, n);
  }

  lemma RowsNext(evs: seq<Event>, k: nat)
    requires k < |evs|
    ensures Rows(evs, k + 1) == if Completes(evs, k + 1) then Rows(evs, k) + [Row(evs, k + 1)] else Rows(evs, k)
  {
    hide Completes;
    hide Row;
    assert Rows(evs, k) + [] == Rows(evs, k);
  }

  /** An event that does not fit: the migration under way, if any, is abandoned, and INIT_MIG begins another. */
  lemma TracksAbandon(evs: seq<Event>, k: nat, expected: nat, initNs: int, prevNs: int, blackoutStart: int, row: seq<int>)
    requires k < |evs| && Tracks(evs, k, expected, initNs, prevNs, blackoutStart, row) && evs[k].step != expected
    ensures var ns := evs[k].ns;
            Rows(evs, k + 1) == Rows(evs, k) && if evs[k].step == 0 then Tracks(evs, k + 1, 1, ns, ns, blackoutStart, [ns])
                                      else Tracks(evs, k + 1, 0, initNs, prevNs, blackoutStart, [])
  {
    StartedNext(evs, k);
    RowsNext(evs, k);
    FirstStep(evs, k);
    hide Rows;
    hide Row;
    hide Started;
    hide Completes;
    hide Lead;
    hide Intervals;
  }

  /** The first event, met when no migration is under way. */
  lemma TracksBegin(evs: seq<Event>, k: nat, initNs: int, prevNs: int, blackoutStart: int, row: seq<int>)
    requires k < |evs| && Tracks(evs, k, 0, initNs, prevNs, blackoutStart, row) && evs[k].step == 0
    ensures var ns := evs[k].ns; Rows(evs, k + 1) == Rows(evs, k) && Tracks(evs, k + 1, 1, ns, ns, blackoutStart, [])
  {
    StartedNext(evs, k);
    RowsNext(evs, k);
    FirstStep(evs, k);
    hide Rows;
    hide Row;
    hide Started;
    hide Completes;
    hide Lead;
    hide Intervals;
  }

  lemma NoRowYet(evs: seq<Event>, k: nat)
    requires k < |evs| && evs[k].step != STEPS - 1
    ensures Rows(evs, k + 1) == Rows(evs, k)
  {
    StartedNext(evs, k);
    RowsNext(evs, k);
    hide *;
  }

  /** A further event that fits, and is not the last one. */
  lemma TracksExtend(evs: seq<Event>, k: nat, initNs: int, prevNs: int, blackoutStart: int, row: seq<int>)
    requires k < |evs| && 0 < evs[k].step < STEPS - 1 && Tracks(evs, k, evs[k].step, initNs, prevNs, blackoutStart, row)
    ensures var ns, i := evs[k].ns, evs[k].step;
            && Rows(evs, k + 1) == Rows(evs, k)
            && Tracks(evs, k + 1, i + 1, initNs, ns, if i == RECV_PREPARE_MIG_ACK then ns else blackoutStart, row + [ns - prevNs])
  {
    StartedNext(evs, k);
    NoRowYet(evs, k);
    NextStep(evs, k - evs[k].step, evs[k].step - 1);
    hide Rows;
    hide Row;
    hide Started;
    hide Completes;
    hide Suffix;
    hide Lead;
    hide Intervals;
  }

  /** The last event of a migration. */
  lemma TracksFinish(evs: seq<Event>, k: nat, initNs: int, prevNs: int, blackoutStart: int, row: seq<int>)
    requires k < |evs| && Tracks(evs, k, STEPS - 1, initNs, prevNs, blackoutStart, row) && evs[k].step == STEPS - 1
    ensures var ns := evs[k].ns;
            && Completes(evs, k + 1) && Tracks(evs, k + 1, 0, initNs, ns, blackoutStart, [])
            && Rows(evs, k + 1) == Rows(evs, k) + [(row + [ns - prevNs]) + [ns - initNs, ns - blackoutStart]]
  {
    StartedNext(evs, k);
    NextStep(evs, k - 7, 6);
    RowsNext(evs, k);
    assert (row + [evs[k].ns - prevNs]) + [evs[k].ns - initNs, evs[k].ns - blackoutStart] == Row(evs, k + 1);
    hide Rows;
    hide Row;
    hide Started;
    hide Completes;
    hide Lead;
    hide Intervals;
  }

  /** The walk over one connection's sorted events. */
  method Walk(evs: seq<Event>) returns (rows: seq<seq<int>>)
    ensures rows == Rows(evs, |evs|)
  {
    rows := [];
    var expected, initNs, prevNs, blackoutStart, row := 0, 0, 0, 0, [];
    assert rows == Rows(evs, 0) && Tracks(evs, 0, expected, initNs, prevNs, blackoutStart, row);
    hide *;
    for k := 0 to |evs|
      invariant rows == Rows(evs, k) && expected < STEPS
      invariant Tracks(evs, k, expected, initNs, prevNs, blackoutStart, row)
    {
      var ns, i := evs[k].ns, evs[k].step;
      if i != expected {
        TracksAbandon(evs, k, expected, initNs, prevNs, blackoutStart, row);
        if i == 0 {
          expected, row := 1, [ns];
          initNs, prevNs := ns, ns;
        } else {
          expected, row := 0, [];
        }
        continue;
      }
      if i == 0 {
        TracksBegin(evs, k, initNs, prevNs, blackoutStart, row);
        initNs, prevNs, row := ns, ns, [];
      } else {
        if i < STEPS - 1 {
          TracksExtend(evs, k, initNs, prevNs, blackoutStart, row);
        } else {
          TracksFinish(evs, k, initNs, prevNs, blackoutStart, row);
        }
        row := row + [ns - prevNs];
        prevNs := ns;
      }
      if i == RECV_PREPARE_MIG_ACK {
        blackoutStart := ns;
      }
      if i == STEPS - 1 {
        rows := rows + [row + [ns - initNs, ns - blackoutStart]];
        expected, row := 0, [];
        continue;
      }
      expected := i + 1;
    }
  }

  // ----- sorting

  /** Place of a step's name in alphabetical order, which decides between events of the same time. */
  function NameRank(step: nat): nat {
    if step < STEPS then [1, 5, 2, 6, 3, 7, 4, 0][step] else step
  }

  /** The names of the steps, in step order. */
  const NAMES: seq<string> := ["INIT_MIG", "SEND_PREPARE_MIG", "RECV_PREPARE_MIG", "SEND_PREPARE_MIG_ACK",
                               "RECV_PREPARE_MIG_ACK", "SEND_STATE", "RECV_STATE", "CONN_ACCEPTED"]

  /** Alphabetical order: `a` ends, or its letter comes first, where the two cease to agree. */
  ghost predicate TextBefore(a: string, b: string) {
    exists k :: 0 <= k <= |a| && k < |b| && a[..k] == b[..k] && (k == |a| || a[k] < b[k])
  }

  lemma Agree(a: string, b: string, k: nat)
    requires k <= |a| && k < |b| && a[..k] == b[..k] && (k == |a| || a[k] < b[k])
    ensures TextBefore(a, b)
  {
  }

  /** The ranks number the names in alphabetical order: from each rank to the next. */
  lemma RanksAreAlphabetical(i: nat, j: nat)
    requires i < STEPS && j < STEPS && NameRank(j) == NameRank(i) + 1
    ensures TextBefore(NAMES[i], NAMES[j])
  {
    Agree("CONN_ACCEPTED", "INIT_MIG", 0);
    Agree("INIT_MIG", "RECV_PREPARE_MIG", 0);
    Agree("RECV_PREPARE_MIG", "RECV_PREPARE_MIG_ACK", 16);
    Agree("RECV_PREPARE_MIG_ACK", "RECV_STATE", 5);
    Agree("RECV_STATE", "SEND_PREPARE_MIG", 0);
    Agree("SEND_PREPARE_MIG", "SEND_PREPARE_MIG_ACK", 16);
    Agree("SEND_PREPARE_MIG_ACK", "SEND_STATE", 5);
  }

  predicate Before(a: Event, b: Event) {
    a.ns < b.ns || (a.ns == b.ns && NameRank(a.step) <= NameRank(b.step))
  }

  predicate InOrder(evs: seq<Event>) {
    forall i, j :: 0 <= i < j < |evs| ==> Before(evs[i], evs[j])
  }

  function Place(e: Event, evs: seq<Event>): seq<Event> {
    if evs == [] || Before(e, evs[0]) then [e] + evs else [evs[0]] + Place(e, evs[1..])
  }

  /** `evs.sort()`. */
  function Sorted(evs: seq<Event>): seq<Event> {
    if evs == [] then [] else Place(evs[0], Sorted(evs[1..]))
  }

  lemma {:induction false} PlaceKeepsOrder(e: Event, evs: seq<Event>)
    requires InOrder(evs)
    ensures InOrder(Place(e, evs)) && multiset(Place(e, evs)) == multiset(evs) + multiset{e}
  {
    hide NameRank;
    if evs != [] && !Before(e, evs[0]) {
      var t := evs[1..];
      PlaceKeepsOrder(e, t);
      assert evs == [evs[0]] + t;
      forall x | x in Place(e, t) ensures Before(evs[0], x) {
        assert x in multiset(Place(e, t));
        assert x in t || x == e;
      }
    }
  }

  lemma {:induction false} SortedInOrder(evs: seq<Event>)
    ensures InOrder(Sorted(evs)) && multiset(Sorted(evs)) == multiset(evs)
  {
    if evs != [] {
      SortedInOrder(evs[1..]);
      PlaceKeepsOrder(evs[0], Sorted(evs[1..]));
      assert evs == [evs[0]] + evs[1..];
    }
  }

  lemma {:induction false} OrderIsUnique(a: seq<Event>, b: seq<Event>)
    requires InOrder(a) && InOrder(b) && multiset(a) == multiset(b)
    ensures a == b
  {
    assert |multiset(a)| == |a| && |multiset(b)| == |b|;
    if a != [] {
      assert a[0] in multiset(b) && b[0] in multiset(a);
      assert Before(a[0], b[0]) && Before(b[0], a[0]);
      SameName(a[0].step, b[0].step);
      assert a == [a[0]] + a[1..] && b == [b[0]] + b[1..];
      assert multiset(a[1..]) == multiset(a) - multiset{a[0]};
      OrderIsUnique(a[1..], b[1..]);
    }
  }

  lemma SameName(s: nat, t: nat)
    ensures NameRank(s) == NameRank(t) <==> s == t
  {
  }

  /** Sorting yields the only arrangement of the events in order. */
  lemma SortedIff(evs: seq<Event>, r: seq<Event>)
    ensures r == Sorted(evs) <==> InOrder(r) && multiset(r) == multiset(evs)
  {
    SortedInOrder(evs);
    if InOrder(r) && multiset(r) == multiset(evs) {
      OrderIsUnique(r, Sorted(evs));
    }
  }

  // ----- all connections

  datatype Line = Line(event: Event, conn: string)

  /** The events of one connection, in order. */
  function EventsOf(lines: seq<Line>, conn: string): seq<Event> {
    if lines == [] then []
    else
      var n := |lines| - 1;
      EventsOf(lines[..n], conn) + if lines[n].conn == conn then [lines[n].event] else []
  }

  /** The connections in the order in which they first appear. */
  function Connections(lines: seq<Line>): (r: seq<string>)
    ensures forall c :: c in r <==> exists i :: 0 <= i < |lines| && lines[i].conn == c
    ensures forall i, j :: 0 <= i < j < |r| ==> r[i] != r[j]
  {
    if lines == [] then []
    else
      var n := |lines| - 1;
      Connections(lines[..n]) + if lines[n].conn in Connections(lines[..n]) then [] else [lines[n].conn]
  }

  /** The rows of one connection, its events sorted. */
  function ConnectionRows(lines: seq<Line>, conn: string): seq<seq<int>> {
    var evs := Sorted(EventsOf(lines, conn));
    Rows(evs, |evs|)
  }

  function RowsOf(lines: seq<Line>, conns: seq<string>): seq<seq<int>> {
    if conns == [] then []
    else
      var n := |conns| - 1;
      RowsOf(lines, conns[..n]) + ConnectionRows(lines, conns[n])
  }

  function GroupOf(byConn: map<string, seq<Event>>, conn: string): seq<Event> {
    if conn in byConn then byConn[conn] else []
  }

  method GroupByConnection(lines: seq<Line>) returns (order: seq<string>, byConn: map<string, seq<Event>>)
    ensures order == Connections(lines) && forall c :: c in byConn <==> c in order
    ensures forall c :: GroupOf(byConn, c) == EventsOf(lines, c)
  {
    order, byConn := [], map[];
    assert lines[..0] == [];
    assert forall c :: EventsOf([], c) == [];
    assert Connections([]) == [];
    hide EventsOf;
    hide Connections;
    for k := 0 to |lines|
      invariant order == Connections(lines[..k]) && forall c :: c in byConn <==> c in order
      invariant forall c :: GroupOf(byConn, c) == EventsOf(lines[..k], c)
    {
      var conn := lines[k].conn;
      OneMoreLine(lines, k);
      ghost var before := byConn;
      if conn !in byConn {
        order := order + [conn];
        byConn := byConn[conn := []];
      }
      byConn := byConn[conn := byConn[conn] + [lines[k].event]];
      assert forall c :: GroupOf(byConn, c) == GroupOf(before, c) + if lines[k].conn == c then [lines[k].event] else [];
    }
    assert lines[..|lines|] == lines;
  }

  lemma OneMoreLine(lines: seq<Line>, k: nat)
    requires k < |lines|
    ensures Connections(lines[..k + 1])
         == Connections(lines[..k]) + if lines[k].conn in Connections(lines[..k]) then [] else [lines[k].conn]
    ensures forall c :: EventsOf(lines[..k + 1], c) == EventsOf(lines[..k], c) + if lines[k].conn == c then [lines[k].event] else []
  {
    assert lines[..k + 1][..k] == lines[..k];
  }

  /** Groups the events by connection, sorts each group and walks it; each connection contributes its
      migrations, the connections follow each other as they first appear. */
  method Migrations(lines: seq<Line>) returns (rows: seq<seq<int>>)
    ensures rows == RowsOf(lines, Connections(lines)) && ByConnection(lines, rows)
  {
    hide Rows;
    hide Connections;
    hide ByConnection;
    var order, byConn := GroupByConnection(lines);
    rows := [];
    for k := 0 to |order|
      invariant rows == RowsOf(lines, order[..k])
    {
      assert order[k] in order && GroupOf(byConn, order[k]) == EventsOf(lines, order[k]);
      var more := Walk(Sorted(byConn[order[k]]));
      rows := rows + more;
      assert order[..k + 1][..k] == order[..k];
    }
    assert order[..|order|] == order;
    RowsByConnection(lines);
  }

  // ----- what the rows mean

  /** Where migrations end. */
  function Ends(evs: seq<Event>, k: nat): (r: seq<nat>)
    requires k <= |evs|
    ensures forall i :: 0 <= i < |r| ==> r[i] <= k && Completes(evs, r[i])
  {
    if k == 0 then []
    else Ends(evs, k - 1) + if Completes(evs, k) then [k] else []
  }

  /** `rows` has one row for each of `ends`, which are the ends of all migrations up to `k`, in order. */
  ghost predicate RowsMatch(rows: seq<seq<int>>, ends: seq<nat>, evs: seq<Event>, k: nat)
    requires k <= |evs|
  {
    && |rows| == |ends| && (forall i :: 0 <= i < |ends| ==> ends[i] <= k && Completes(evs, ends[i]) && rows[i] == Row(evs, ends[i]))
    && (forall i, j :: 0 <= i < j < |ends| ==> ends[i] < ends[j])
    && (forall e :: 0 <= e <= k && Completes(evs, e) ==> e in ends)
  }

  lemma RowsMatchNext(rows: seq<seq<int>>, ends: seq<nat>, evs: seq<Event>, k: nat)
    requires k < |evs| && RowsMatch(rows, ends, evs, k)
    ensures if Completes(evs, k + 1) then RowsMatch(rows + [Row(evs, k + 1)], ends + [k + 1], evs, k + 1)
            else RowsMatch(rows, ends, evs, k + 1)
  {
    hide Row;
    hide Suffix;
    assert forall e :: e in ends ==> e in ends + [k + 1];
  }

  /** The rows are exactly the runs of eight consecutive events in step order: one row each, in order. */
  lemma {:induction false} RowsAreMigrations(evs: seq<Event>, k: nat)
    requires k <= |evs|
    ensures RowsMatch(Rows(evs, k), Ends(evs, k), evs, k)
  {
    if k == 0 {
      assert !Completes(evs, 0);
    } else {
      RowsAreMigrations(evs, k - 1);
      RowsMatchNext(Rows(evs, k - 1), Ends(evs, k - 1), evs, k - 1);
      assert Rows(evs, k - 1) + [] == Rows(evs, k - 1) && Ends(evs, k - 1) + [] == Ends(evs, k - 1);
      hide RowsMatch;
      hide Completes;
      hide Row;
    }
  }

  // ----- what the rows of a whole log mean

  /** Each connection of the log once, in the order in which they first appear. */
  ghost predicate FirstAppearances(lines: seq<Line>, conns: seq<string>) {
    && (forall i, j :: 0 <= i < j < |conns| ==> conns[i] != conns[j])
    && (forall p :: 0 <= p < |lines| ==> lines[p].conn in conns)
    && forall i :: 0 <= i < |conns| ==> Appears(lines, conns, i)
  }

  /** A line of the connection, all lines before which are of connections in front of it. */
  ghost predicate Appears(lines: seq<Line>, conns: seq<string>, i: nat)
    requires i < |conns|
  {
    exists q :: 0 <= q < |lines| && lines[q].conn == conns[i] && forall p :: 0 <= p < q ==> lines[p].conn in conns[..i]
  }

  /** `part` has one row for each migration among the connection's events, sorted by time and name. */
  ghost predicate PartOk(lines: seq<Line>, conn: string, part: seq<seq<int>>) {
    exists evs: seq<Event>, ends: seq<nat> ::
      && InOrder(evs) && (forall e: Event :: multiset(evs)[e] == multiset(lines)[Line(e, conn)])
      && RowsMatch(part, ends, evs, |evs|)
  }

  ghost predicate ByConnection(lines: seq<Line>, rows: seq<seq<int>>) {
    exists conns: seq<string>, parts: seq<seq<seq<int>>> ::
      && FirstAppearances(lines, conns) && rows == Concat(parts)
      && |parts| == |conns| && forall k :: 0 <= k < |conns| ==> PartOk(lines, conns[k], parts[k])
  }

  lemma StillAppears(lines: seq<Line>, n: nat, conns: seq<string>, more: seq<string>, i: nat)
    requires n <= |lines| && i < |conns| && Appears(lines[..n], conns, i)
    ensures Appears(lines, conns + more, i)
  {
    var q :| 0 <= q < n && lines[..n][q].conn == conns[i] && forall p :: 0 <= p < q ==> lines[..n][p].conn in conns[..i];
    assert forall p :: 0 <= p <= q ==> lines[p] == lines[..n][p];
    assert (conns + more)[..i] == conns[..i];
  }

  lemma {:induction false} ConnectionsAppear(lines: seq<Line>)
    ensures FirstAppearances(lines, Connections(lines))
  {
    if lines != [] {
      var n := |lines| - 1;
      var before, conns := Connections(lines[..n]), Connections(lines);
      ConnectionsAppear(lines[..n]);
      var more := if lines[n].conn in before then [] else [lines[n].conn];
      assert conns == before + more;
      hide Connections;
      forall i | 0 <= i < |conns| ensures Appears(lines, conns, i) {
        if i < |before| {
          StillAppears(lines, n, before, more, i);
        } else {
          assert conns[..i] == before;
          assert forall p :: 0 <= p < n ==> lines[p] == lines[..n][p];
          assert lines[n].conn == conns[i];
        }
      }
    }
  }

  function Parts(lines: seq<Line>, conns: seq<string>): (r: seq<seq<seq<int>>>)
    ensures |r| == |conns|
  {
    seq(|conns|, k requires 0 <= k < |conns| => ConnectionRows(lines, conns[k]))
  }

  lemma {:induction false} RowsOfParts(lines: seq<Line>, conns: seq<string>)
    ensures RowsOf(lines, conns) == Concat(Parts(lines, conns))
  {
    hide ConnectionRows;
    if conns != [] {
      var n := |conns| - 1;
      RowsOfParts(lines, conns[..n]);
      assert Parts(lines, conns)[..n] == Parts(lines, conns[..n]);
    }
  }

  lemma ConnectionRowsOk(lines: seq<Line>, conn: string)
    ensures PartOk(lines, conn, ConnectionRows(lines, conn))
  {
    var group := EventsOf(lines, conn);
    var evs := Sorted(group);
    SortedInOrder(group);
    forall e: Event ensures multiset(evs)[e] == multiset(lines)[Line(e, conn)] {
      EventCounts(lines, conn, e);
    }
    RowsAreMigrations(evs, |evs|);
  }

  lemma RowsByConnection(lines: seq<Line>)
    ensures ByConnection(lines, RowsOf(lines, Connections(lines)))
  {
    hide ConnectionRows;
    hide PartOk;
    hide FirstAppearances;
    var conns := Connections(lines);
    hide Connections;
    ConnectionsAppear(lines);
    RowsOfParts(lines, conns);
    forall k | 0 <= k < |conns| ensures PartOk(lines, conns[k], Parts(lines, conns)[k]) {
      ConnectionRowsOk(lines, conns[k]);
    }
  }

  /** No event belongs to two migrations. */
  lemma MigrationsDisjoint(evs: seq<Event>, d: nat, e: nat)
    requires d < e <= |evs| && Completes(evs, d) && Completes(evs, e)
    ensures e - d >= STEPS
  {
    assert evs[d - 1].step == STEPS - 1;
  }

  function Total(xs: seq<int>): int {
    if xs == [] then 0 else Total(xs[..|xs| - 1]) + xs[|xs| - 1]
  }

  lemma {:induction false} Telescope(evs: seq<Event>, a: nat, n: nat)
    requires a + n < |evs|
    ensures Total(Intervals(evs, a, n)) == evs[a + n].ns - evs[a].ns
  {
    if n > 0 {
      Telescope(evs, a, n - 1);
      IntervalsNext(evs, a, n - 1);
      assert Intervals(evs, a, n)[..n - 1] == Intervals(evs, a, n - 1);
    }
  }

  /** The last nine columns: the seven intervals, their sum, and the sum of the last three of them. */
  lemma RowColumns(evs: seq<Event>, k: nat)
    requires STEPS <= k <= |evs|
    ensures var row, a := Row(evs, k), k - STEPS;
            && |row| >= 9
            && var nine := row[|row| - 9..];
               && nine[..7] == Intervals(evs, a, 7)
               && nine[7] == Total(nine[..7])
               && nine[8] == Total(nine[4..7])
  {
    var row, a := Row(evs, k), k - STEPS;
    hide Lead;
    var nine := Intervals(evs, a, 7) + [evs[k - 1].ns - evs[a].ns, evs[k - 1].ns - evs[a + RECV_PREPARE_MIG_ACK].ns];
    assert row == Lead(evs, a) + nine;
    hide Row;
    assert row[|row| - 9..] == nine;
    assert nine[..7] == Intervals(evs, a, 7);
    assert nine[4..7] == Intervals(evs, a + 4, 3);
    Telescope(evs, a, 7);
    Telescope(evs, a + 4, 3);
  }

  /** A row has the nine documented columns exactly when no other migration was under way when it began;
      otherwise a timestamp stands in front and shifts them. */
  lemma RowWidth(evs: seq<Event>, k: nat)
    requires k <= |evs| && Completes(evs, k)
    ensures |Row(evs, k)| == 9 <==> Started(evs, k - STEPS) == 0
    ensures |Row(evs, k)| != 9 ==> |Row(evs, k)| == 10 && Row(evs, k)[0] == evs[k - STEPS].ns
  {
  }

  /** An abandoned INIT_MIG just before a complete migration is enough to shift its row. */
  lemma ResyncShiftsRow(evs: seq<Event>)
    requires |evs| == 9 && evs[0].step == 0 && forall i :: 1 <= i < 9 ==> evs[i].step == i - 1
    ensures Rows(evs, 9) == [Row(evs, 9)] && |Row(evs, 9)| == 10
  {
    assert Suffix(evs, 1, 1);
    assert Started(evs, 1) == 1;
    assert Completes(evs, 9);
    NoRowsBefore(evs, 8);
  }

  lemma {:induction false} NoRowsBefore(evs: seq<Event>, k: nat)
    requires k <= |evs| && forall i :: 0 <= i < k ==> evs[i].step != STEPS - 1
    ensures Rows(evs, k) == []
  {
    if k > 0 {
      NoRowsBefore(evs, k - 1);
      assert evs[k - 1].step != STEPS - 1;
    }
  }

  // ----- what the order of the log lines matters

  lemma {:induction false} EventCounts(lines: seq<Line>, conn: string, e: Event)
    ensures multiset(EventsOf(lines, conn))[e] == multiset(lines)[Line(e, conn)]
  {
    if lines != [] {
      var n := |lines| - 1;
      EventCounts(lines[..n], conn, e);
      assert lines == lines[..n] + [lines[n]];
    }
  }

  lemma SameConnectionRows(a: seq<Line>, b: seq<Line>, conn: string)
    requires multiset(a) == multiset(b)
    ensures ConnectionRows(a, conn) == ConnectionRows(b, conn)
  {
    forall e: Event ensures multiset(EventsOf(a, conn))[e] == multiset(EventsOf(b, conn))[e] {
      EventCounts(a, conn, e);
      EventCounts(b, conn, e);
    }
    SortedIff(EventsOf(a, conn), Sorted(EventsOf(a, conn)));
    SortedIff(EventsOf(b, conn), Sorted(EventsOf(a, conn)));
  }

  lemma Swap<T>(a: multiset<T>, b: multiset<T>, c: multiset<T>)
    ensures (a + b) + c == (a + c) + b
  {
  }

  lemma {:induction false} RowsWithout(lines: seq<Line>, conns: seq<string>, i: nat)
    requires i < |conns|
    ensures multiset(RowsOf(lines, conns))
         == multiset(RowsOf(lines, conns[..i] + conns[i + 1..])) + multiset(ConnectionRows(lines, conns[i]))
  {
    hide ConnectionRows;
    var n := |conns| - 1;
    var rest := conns[..i] + conns[i + 1..];
    if i == n {
      assert rest == conns[..n];
    } else {
      var less, last := conns[..n][..i] + conns[..n][i + 1..], ConnectionRows(lines, conns[n]);
      RowsWithout(lines, conns[..n], i);
      assert rest[..n - 1] == less && rest[n - 1] == conns[n];
      assert RowsOf(lines, rest) == RowsOf(lines, less) + last;
      Swap(multiset(RowsOf(lines, less)), multiset(ConnectionRows(lines, conns[i])), multiset(last));
    }
  }

  lemma {:induction false} SameRows(a: seq<Line>, b: seq<Line>, c: seq<string>, d: seq<string>)
    requires multiset(a) == multiset(b) && multiset(c) == multiset(d)
    ensures multiset(RowsOf(a, c)) == multiset(RowsOf(b, d))
    decreases |c|
  {
    hide ConnectionRows;
    if c == [] {
      assert d == [] by { assert |multiset(d)| == |multiset(c)|; }
    } else {
      var n := |c| - 1;
      assert c[n] in multiset(c);
      var i := PositionOf(d, c[n]);
      Without(c, n);
      Without(d, i);
      assert c[..n] + c[n + 1..] == c[..n];
      SameRows(a, b, c[..n], d[..i] + d[i + 1..]);
      SameConnectionRows(a, b, c[n]);
      RowsWithout(b, d, i);
    }
  }

  lemma AppearsInBoth(a: seq<Line>, b: seq<Line>, c: string)
    requires multiset(a) == multiset(b) && c in Connections(a)
    ensures c in Connections(b)
  {
    hide Connections;
    var i :| 0 <= i < |a| && a[i].conn == c;
    assert a[i] in multiset(a);
    var j := PositionOf(b, a[i]);
  }

  lemma SameConnections(a: seq<Line>, b: seq<Line>)
    requires multiset(a) == multiset(b)
    ensures multiset(Connections(a)) == multiset(Connections(b))
  {
    hide Connections;
    forall c ensures multiset(Connections(a))[c] == multiset(Connections(b))[c] {
      CountedOnce(Connections(a), c);
      CountedOnce(Connections(b), c);
      if c in Connections(a) { AppearsInBoth(a, b, c); }
      if c in Connections(b) { AppearsInBoth(b, a, c); }
    }
  }

  lemma CountedOnce(s: seq<string>, c: string)
    requires forall i, j :: 0 <= i < j < |s| ==> s[i] != s[j]
    ensures multiset(s)[c] == if c in s then 1 else 0
  {
    if s != [] {
      CountedOnce(s[1..], c);
      assert s == [s[0]] + s[1..];
      assert s[0] !in s[1..];
    }
  }

  /** The same log lines in any other order give the same rows, connection by connection the same
      ones in the same order. */
  lemma LineOrderIrrelevant(a: seq<Line>, b: seq<Line>, conn: string)
    requires multiset(a) == multiset(b)
    ensures ConnectionRows(a, conn) == ConnectionRows(b, conn)
    ensures multiset(RowsOf(a, Connections(a))) == multiset(RowsOf(b, Connections(b)))
  {
    SameConnectionRows(a, b, conn);
    SameConnections(a, b);
    SameRows(a, b, Connections(a), Connections(b));
  }

  // ----- events of equal time

  predicate TimesGrow(evs: seq<Event>) {
    forall i, j :: 0 <= i < j < |evs| ==> evs[i].ns <= evs[j].ns
  }

  predicate InSteps(run: seq<Event>) {
    |run| == STEPS && forall i :: 0 <= i < STEPS ==> run[i].step == i
  }

  /** Equal times of two neighbouring steps are harmless where the names happen to be in order. */
  predicate TiesHarmless(run: seq<Event>)
    requires |run| == STEPS
  {
    run[1].ns < run[2].ns && run[3].ns < run[4].ns && run[5].ns < run[6].ns && run[6].ns < run[7].ns
  }

  /** What was logged before the migration at the time of its first step sorts in front of that step. */
  predicate NoIntruder(evs: seq<Event>, a: nat)
    requires a < |evs|
  {
    forall i :: 0 <= i < a && evs[i].ns == evs[a].ns ==> evs[i].step == 0 || evs[i].step == STEPS - 1
  }

  /** The migration that the first `k` events end with is still one, hence gives its row, after sorting. */
  ghost predicate SurvivesSorting(evs: seq<Event>, k: nat)
    requires STEPS <= k <= |evs|
  {
    exists m :: STEPS <= m <= |Sorted(evs)| && Completes(Sorted(evs), m) && Sorted(evs)[m - STEPS..m] == evs[k - STEPS..k]
  }

  lemma InOrderIff(run: seq<Event>)
    requires InSteps(run) && TimesGrow(run)
    ensures InOrder(run) <==> TiesHarmless(run)
  {
    if InOrder(run) {
      assert Before(run[1], run[2]) && Before(run[3], run[4]) && Before(run[5], run[6]) && Before(run[6], run[7]);
    }
  }

  lemma InOrderJoin(a: seq<Event>, b: seq<Event>)
    requires InOrder(a) && InOrder(b) && forall x, y :: x in a && y in b ==> Before(x, y)
    ensures InOrder(a + b)
  {
    var c := a + b;
    forall i, j | 0 <= i < j < |c| ensures Before(c[i], c[j]) {
      if i < |a| <= j {
        assert c[i] in a && c[j] in b;
      }
    }
  }

  lemma SortedElements(evs: seq<Event>)
    ensures |Sorted(evs)| == |evs| && InOrder(Sorted(evs)) && multiset(Sorted(evs)) == multiset(evs)
    ensures forall x :: x in Sorted(evs) <==> x in evs
  {
    SortedInOrder(evs);
    assert |multiset(Sorted(evs))| == |Sorted(evs)| && |multiset(evs)| == |evs|;
    forall x ensures x in Sorted(evs) <==> x in evs {
      assert x in Sorted(evs) <==> x in multiset(Sorted(evs));
    }
  }

  /** A migration keeps what was logged before in front of it and what was logged after behind it. */
  lemma Separates(p: seq<Event>, run: seq<Event>, q: seq<Event>)
    requires TimesGrow(p + (run + q)) && InSteps(run) && TiesHarmless(run)
    requires forall x :: x in p && x.ns == run[0].ns ==> x.step == 0 || x.step == STEPS - 1
    ensures forall x, y :: x in p && y in run + q ==> Before(x, y)
    ensures forall y, z :: y in run && z in q ==> Before(y, z)
  {
    var evs, a := p + (run + q), |p|;
    assert forall i :: 0 <= i < STEPS ==> evs[a + i] == run[i];
    forall x, y | x in p && y in run + q ensures Before(x, y) {
      var i :| 0 <= i < a && p[i] == x;
      var j :| 0 <= j < |run + q| && (run + q)[j] == y;
      assert evs[i] == x && evs[a + j] == y;
      assert x.ns <= run[0].ns <= y.ns;
      assert j >= 2 ==> run[2].ns <= y.ns;
    }
    forall y, z | y in run && z in q ensures Before(y, z) {
      var i :| 0 <= i < STEPS && run[i] == y;
      var j :| 0 <= j < |q| && q[j] == z;
      assert evs[a + STEPS + j] == z;
      assert run[i].ns <= run[7].ns <= z.ns;
      assert i < 7 ==> run[i].ns <= run[6].ns;
    }
  }

  lemma CutTwice(evs: seq<Event>, a: nat, b: nat)
    requires a <= b <= |evs|
    ensures evs == evs[..a] + (evs[a..b] + evs[b..])
  {
  }

  lemma SameCounts(p: seq<Event>, q: seq<Event>, sp: seq<Event>, sq: seq<Event>, run: seq<Event>)
    requires multiset(p) == multiset(sp) && multiset(q) == multiset(sq)
    ensures multiset(sp + (run + sq)) == multiset(p + (run + q))
  {
    assert multiset(sp + (run + sq)) == multiset(sp) + (multiset(run) + multiset(sq));
    assert multiset(p + (run + q)) == multiset(p) + (multiset(run) + multiset(q));
  }

  lemma RunFacts(evs: seq<Event>, k: nat)
    requires TimesGrow(evs) && STEPS <= k <= |evs| && Completes(evs, k)
    ensures var run := evs[k - STEPS..k]; InSteps(run) && TimesGrow(run) && run[0] == evs[k - STEPS] && run[1] == evs[k - 7]
  {
  }

  lemma JoinInOrder(p: seq<Event>, run: seq<Event>, q: seq<Event>, sp: seq<Event>, sq: seq<Event>)
    requires InOrder(sp) && InOrder(run) && InOrder(sq)
    requires forall x, y :: x in p && y in run + q ==> Before(x, y)
    requires forall y, z :: y in run && z in q ==> Before(y, z)
    requires (forall x :: x in sp <==> x in p) && (forall x :: x in sq <==> x in q)
    ensures InOrder(sp + (run + sq))
  {
    hide Before;
    hide InOrder;
    InOrderJoin(run, sq);
    forall x, y | x in sp && y in run + sq ensures Before(x, y) {
      assert x in p && y in run + q;
    }
    InOrderJoin(sp, run + sq);
  }

  lemma SortedJoin(p: seq<Event>, run: seq<Event>, q: seq<Event>)
    requires InOrder(run)
    requires forall x, y :: x in p && y in run + q ==> Before(x, y)
    requires forall y, z :: y in run && z in q ==> Before(y, z)
    ensures Sorted(p + (run + q)) == Sorted(p) + (run + Sorted(q))
  {
    hide Sorted;
    hide InOrder;
    hide Before;
    SortedElements(p);
    SortedElements(q);
    JoinInOrder(p, run, q, Sorted(p), Sorted(q));
    SameCounts(p, q, Sorted(p), Sorted(q), run);
    SortedIff(p + (run + q), Sorted(p) + (run + Sorted(q)));
  }

  lemma IntruderElements(evs: seq<Event>, a: nat)
    requires a < |evs| && NoIntruder(evs, a)
    ensures forall x :: x in evs[..a] && x.ns == evs[a].ns ==> x.step == 0 || x.step == STEPS - 1
  {
    forall x | x in evs[..a] && x.ns == evs[a].ns ensures x.step == 0 || x.step == STEPS - 1 {
      var i :| 0 <= i < a && evs[..a][i] == x;
      assert evs[i] == x;
    }
  }

  lemma SortedAround(evs: seq<Event>, p: seq<Event>, run: seq<Event>, q: seq<Event>)
    requires evs == p + (run + q) && TimesGrow(evs) && InSteps(run) && TimesGrow(run) && TiesHarmless(run)
    requires forall x :: x in p && x.ns == run[0].ns ==> x.step == 0 || x.step == STEPS - 1
    ensures Sorted(evs) == Sorted(p) + (run + Sorted(q))
  {
    Separates(p, run, q);
    InOrderIff(run);
    hide *;
    SortedJoin(p, run, q);
  }

  lemma OnlyPlace(s: seq<Event>, m: nat, run: seq<Event>, e: Event, q: nat)
    requires InOrder(s) && STEPS <= m <= |s| && s[m - STEPS..m] == run
    requires InSteps(run) && TimesGrow(run) && TiesHarmless(run)
    requires e.ns == run[0].ns && e.step != 0 && e.step != STEPS - 1 && q < |s| && s[q] == e
    ensures q == m - 7 && e == run[1]
  {
    var r0, r2, r7 := run[0], run[2], run[7];
    assert NameRank(e.step) > NameRank(0);
    assert forall i :: 0 <= i < STEPS ==> run[i] == s[m - STEPS + i];
    assert r0 == s[m - STEPS] && r7 == s[m - 1];
    assert q < m - STEPS ==> Before(e, r0);
    assert q >= m ==> Before(r7, e);
    assert m - 7 < q < m ==> r2.ns <= e.ns;
  }

  lemma SliceInOrder(s: seq<Event>, m: nat, run: seq<Event>)
    requires InOrder(s) && STEPS <= m <= |s| && s[m - STEPS..m] == run
    ensures InOrder(run)
  {
    forall x, y | 0 <= x < y < STEPS ensures Before(run[x], run[y]) {
      assert run[x] == s[m - STEPS + x] && run[y] == s[m - STEPS + y];
    }
  }

  lemma CountedTwice(s: seq<Event>, i: nat, j: nat)
    requires i < j < |s| && s[i] == s[j]
    ensures multiset(s)[s[i]] >= 2
  {
    assert s == s[..j] + s[j..];
    assert s[i] in multiset(s[..j]) && s[j] in multiset(s[j..]);
  }

  lemma CountedAtMostOnce(s: seq<Event>, e: Event, p: nat)
    requires p < |s| && forall q :: 0 <= q < |s| && s[q] == e ==> q == p
    ensures multiset(s)[e] <= 1
  {
    assert s == s[..p] + ([s[p]] + s[p + 1..]);
    assert e !in s[..p] && e !in s[p + 1..];
  }

  lemma IntruderPlace(s: seq<Event>, m: nat, run: seq<Event>, e: Event)
    requires InOrder(s) && STEPS <= m <= |s| && s[m - STEPS..m] == run
    requires InSteps(run) && TimesGrow(run) && TiesHarmless(run)
    requires e.ns == run[0].ns && e.step != 0 && e.step != STEPS - 1 && e in multiset(s)
    ensures e == run[1] && multiset(s)[e] <= 1
  {
    var q := PositionOf(s, e);
    OnlyPlace(s, m, run, e, q);
    forall r | 0 <= r < |s| && s[r] == e ensures r == m - 7 {
      OnlyPlace(s, m, run, e, r);
    }
    CountedAtMostOnce(s, e, m - 7);
  }

  lemma IntruderBreaks(evs: seq<Event>, k: nat, m: nat, i: nat)
    requires TimesGrow(evs) && STEPS <= k <= |evs| && Completes(evs, k)
    requires STEPS <= m <= |Sorted(evs)| && Sorted(evs)[m - STEPS..m] == evs[k - STEPS..k]
    requires i < k - STEPS && evs[i].ns == evs[k - STEPS].ns
    ensures evs[i].step == 0 || evs[i].step == STEPS - 1
  {
    var s, run, e := Sorted(evs), evs[k - STEPS..k], evs[i];
    RunFacts(evs, k);
    hide TimesGrow;
    hide Completes;
    hide Sorted;
    hide InOrder;
    hide TiesHarmless;
    SortedElements(evs);
    SliceInOrder(s, m, run);
    InOrderIff(run);
    assert e in multiset(evs);
    if e.step != 0 && e.step != STEPS - 1 {
      IntruderPlace(s, m, run, e);
      CountedTwice(evs, i, k - 7);
    }
  }

  lemma SurvivorUndisturbed(evs: seq<Event>, k: nat)
    requires TimesGrow(evs) && STEPS <= k <= |evs| && Completes(evs, k) && SurvivesSorting(evs, k)
    ensures TiesHarmless(evs[k - STEPS..k]) && NoIntruder(evs, k - STEPS)
  {
    var s, run := Sorted(evs), evs[k - STEPS..k];
    SortedElements(evs);
    var m :| STEPS <= m <= |s| && Completes(s, m) && s[m - STEPS..m] == run;
    SliceInOrder(s, m, run);
    InOrderIff(run);
    forall i | 0 <= i < k - STEPS && evs[i].ns == evs[k - STEPS].ns ensures evs[i].step == 0 || evs[i].step == STEPS - 1 {
      IntruderBreaks(evs, k, m, i);
    }
  }

  lemma AtOffset(p: seq<Event>, run: seq<Event>, q: seq<Event>)
    ensures (p + (run + q))[|p|..|p| + |run|] == run
  {
  }

  lemma Around(evs: seq<Event>, k: nat) returns (p: seq<Event>, run: seq<Event>, q: seq<Event>)
    requires TimesGrow(evs) && STEPS <= k <= |evs| && Completes(evs, k) && NoIntruder(evs, k - STEPS)
    ensures evs == p + (run + q) && |p| == k - STEPS && run == evs[k - STEPS..k] && InSteps(run) && TimesGrow(run)
    ensures forall x :: x in p && x.ns == run[0].ns ==> x.step == 0 || x.step == STEPS - 1
  {
    p, run, q := evs[..k - STEPS], evs[k - STEPS..k], evs[k..];
    RunFacts(evs, k);
    IntruderElements(evs, k - STEPS);
    CutTwice(evs, k - STEPS, k);
    hide TimesGrow;
    hide Completes;
    hide NoIntruder;
  }

  lemma CompletesAt(p: seq<Event>, run: seq<Event>, q: seq<Event>)
    requires InSteps(run)
    ensures Completes(p + (run + q), |p| + STEPS)
  {
    var s := p + (run + q);
    forall i | |p| <= i < |p| + STEPS ensures s[i].step == i - |p| {
      assert s[i] == run[i - |p|];
    }
  }

  lemma UndisturbedSurvives(evs: seq<Event>, k: nat)
    requires TimesGrow(evs) && STEPS <= k <= |evs| && Completes(evs, k)
    requires TiesHarmless(evs[k - STEPS..k]) && NoIntruder(evs, k - STEPS)
    ensures SurvivesSorting(evs, k)
  {
    var p, run, q := Around(evs, k);
    hide Sorted;
    hide TimesGrow;
    hide TiesHarmless;
    hide NoIntruder;
    hide InOrder;
    hide Completes;
    hide InSteps;
    SortedAround(evs, p, run, q);
    SortedElements(p);
    AtOffset(Sorted(p), run, Sorted(q));
    CompletesAt(Sorted(p), run, Sorted(q));
  }

  /** A migration logged in step order gives its row exactly when no receive, and no acceptance, carries
      the same time as the step before it, and nothing but an acceptance or another INIT_MIG was logged
      before at the time of its INIT_MIG: sorting by name would tear it apart. */
  lemma TiesLoseMigration(evs: seq<Event>, k: nat)
    requires TimesGrow(evs) && STEPS <= k <= |evs| && Completes(evs, k)
    ensures SurvivesSorting(evs, k) <==> TiesHarmless(evs[k - STEPS..k]) && NoIntruder(evs, k - STEPS)
  {
    if SurvivesSorting(evs, k) {
      SurvivorUndisturbed(evs, k);
    }
    if TiesHarmless(evs[k - STEPS..k]) && NoIntruder(evs, k - STEPS) {
      UndisturbedSurvives(evs, k);
    }
  }

  /** A stray RECV_STATE at the very time of the first step is enough. */
  lemma StrayEventLosesMigration(evs: seq<Event>)
    requires |evs| == STEPS + 1 && TimesGrow(evs) && evs[0] == Event(evs[1].ns, 6) && Completes(evs, STEPS + 1)
    ensures !SurvivesSorting(evs, STEPS + 1)
  {
    TiesLoseMigration(evs, STEPS + 1);
    assert evs[0].ns == evs[1].ns;
  }
}
