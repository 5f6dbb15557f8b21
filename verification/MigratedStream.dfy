/** Whole runs of one connection: chunks arrive, and between them the connection moves from host to host. */
module MigratedStream {
  import opened Bytes
  import opened Framing
  import opened StreamBuffer
  import opened Connection

  /** A received chunk, or a migration; `trailing` are bytes behind the encoded state. */
  datatype Event = Chunk(data: seq<byte>) | Migrate(trailing: seq<byte>)

  function Apply(c: Conn, e: Event): (r: Option<(Conn, seq<seq<byte>>)>)
    requires c.buffer.Settled()
    ensures r.Some? ==> r.value.0.buffer.Settled()
  {
    match e
    case Chunk(data) =>
      PushStepIsGreedySplit(c.buffer, data);
      (match PushStep(c.buffer, data)
       case None => None
       case Some((buffer, answered)) => Some((c.(buffer := buffer), answered)))
    case Migrate(trailing) =>
      ConnRoundTrip(c, trailing);
      (match DecodeConn(EncodeConn(c) + trailing)
       case None => None
       case Some(d) => Some((d, [])))
  }

  /** A whole run: the connection at its end and all requests answered; `None` when some step panics. */
  function Run(c: Conn, events: seq<Event>): (r: Option<(Conn, seq<seq<byte>>)>)
    requires c.buffer.Settled()
    ensures r.Some? ==> r.value.0.buffer.Settled()
    decreases |events|
  {
    if events == [] then Some((c, []))
    else
      match Apply(c, events[0])
      case None => None
      case Some((d, answered)) =>
        match Run(d, events[1..])
        case None => None
        case Some((last, more)) => Some((last, answered + more))
  }

  /** The bytes the client sent. */
  function Stream(events: seq<Event>): seq<byte> {
    if events == [] then []
    else (if events[0].Chunk? then events[0].data else []) + Stream(events[1..])
  }

  /** The requests answered are the greedy split of the client's bytes, and the buffer holds exactly the
      unfinished request; session data survives every migration. */
  lemma {:induction false} RunIsGreedySplit(c: Conn, events: seq<Event>)
    requires c.buffer.Settled() && Unfinished(c.buffer.data) && Run(c, events).Some?
    ensures var (last, answered) := Run(c, events).value;
            && answered == Frames(c.buffer.data + Stream(events))
            && last.buffer.data == Rest(c.buffer.data + Stream(events))
            && (|c.session.data| < TWO_32 ==> last.session == c.session)
    decreases |events|
  {
    var held := c.buffer.data;
    if events == [] {
      UnfinishedSplit(held);
      assert held + [] == held;
    } else {
      var (d, answered) := Apply(c, events[0]).value;
      match events[0]
      case Chunk(data) =>
        PushStepIsGreedySplit(c.buffer, data);
        SplitSound(held + data);
        RunIsGreedySplit(d, events[1..]);
        Assoc(held, data, Stream(events[1..]));
        SplitAppend(held + data, Stream(events[1..]));
      case Migrate(trailing) =>
        ConnRoundTrip(c, trailing);
        RunIsGreedySplit(d, events[1..]);
        assert [] + Stream(events[1..]) == Stream(events[1..]);
        assert [] + Run(d, events[1..]).value.1 == Run(d, events[1..]).value.1;
    }
  }

  /** However the client's bytes were cut into chunks, and wherever the connection migrated: the same
      requests are answered, in the same order, and the same unfinished request is held. */
  lemma ChunkingAndMigrationIndependence(c: Conn, es: seq<Event>, fs: seq<Event>)
    requires c.buffer.Settled() && Unfinished(c.buffer.data)
    requires Stream(es) == Stream(fs) && Run(c, es).Some? && Run(c, fs).Some?
    ensures Run(c, es).value.1 == Run(c, fs).value.1
    ensures Run(c, es).value.0.buffer.data == Run(c, fs).value.0.buffer.data
  {
    RunIsGreedySplit(c, es);
    RunIsGreedySplit(c, fs);
  }

  // ----- capacity

  /** The write position after a chunk on either path. */
  function NextHead(held: seq<byte>, head: nat, chunk: seq<byte>): (r: nat)
    requires |held| <= head
    ensures |Rest(held + chunk)| <= r
  {
    if held == [] && IsFrame(chunk) then
      FrameSplit(chunk);
      assert held + chunk == chunk;
      head
    else
      CutFits(held + chunk);
      HeadAfter(BufState(head, held), chunk)
  }

  /** Every chunk that is copied fits behind the write position it then meets. `held` are the unread
      bytes and `head` is the write position; both are known from the chunks alone. */
  predicate Fits(held: seq<byte>, head: nat, events: seq<Event>)
    requires |held| <= head
    decreases |events|
  {
    if events == [] then true
    else if events[0].Migrate? then Fits(held, |held|, events[1..])
    else
      var chunk := events[0].data;
      && ((held == [] && IsFrame(chunk)) || head + |chunk| <= BUFSZ)
      && Fits(Rest(held + chunk), NextHead(held, head, chunk), events[1..])
  }

  lemma ChunkNext(s: BufState, chunk: seq<byte>)
    requires s.Settled()
    ensures PushStep(s, chunk).Some? <==> (s.data == [] && IsFrame(chunk)) || s.head + |chunk| <= BUFSZ
    ensures PushStep(s, chunk).Some? ==>
              PushStep(s, chunk).value == (BufState(NextHead(s.data, s.head, chunk), Rest(s.data + chunk)), Frames(s.data + chunk))
  {
    PushStepIsGreedySplit(s, chunk);
    FastPathIff(chunk);
  }

  /** Exactly then a run goes through, with migrations anywhere in it. */
  lemma {:induction false} FitsIff(c: Conn, events: seq<Event>)
    requires c.buffer.Settled()
    ensures Run(c, events).Some? <==> Fits(c.buffer.data, c.buffer.head, events)
    decreases |events|
  {
    hide IsFrame;
    hide Rest;
    hide Frames;
    hide NextHead;
    hide PushStep;
    if events != [] {
      match events[0]
      case Chunk(data) =>
        ChunkNext(c.buffer, data);
        if Apply(c, events[0]).Some? {
          FitsIff(Apply(c, events[0]).value.0, events[1..]);
        }
      case Migrate(trailing) =>
        ConnRoundTrip(c, trailing);
        FitsIff(Apply(c, events[0]).value.0, events[1..]);
    }
  }

  /** No copied chunk takes the bytes copied since the buffer was last empty beyond the buffer's size.
      `held` are the unread bytes, `n` the bytes copied so far; chunks on the path without a copy are free. */
  predicate Within(held: seq<byte>, n: nat, events: seq<Event>)
    decreases |events|
  {
    if events == [] then true
    else if events[0].Migrate? then Within(held, n, events[1..])
    else
      var chunk := events[0].data;
      if held == [] && IsFrame(chunk) then Within(held, n, events[1..])
      else
        && n + |chunk| <= BUFSZ
        && var left := Rest(held + chunk);
           Within(left, if left == [] then 0 else n + |chunk|, events[1..])
  }

  /** No copied chunk fills the buffer to exactly its last byte, counting from when it was last empty. */
  predicate NeverExactlyFull(held: seq<byte>, n: nat, events: seq<Event>)
    decreases |events|
  {
    if events == [] then true
    else if events[0].Migrate? then NeverExactlyFull(held, n, events[1..])
    else
      var chunk := events[0].data;
      if held == [] && IsFrame(chunk) then NeverExactlyFull(held, n, events[1..])
      else
        && n + |chunk| != BUFSZ
        && var left := Rest(held + chunk);
           NeverExactlyFull(left, if left == [] then 0 else n + |chunk|, events[1..])
  }

  predicate NoMigration(events: seq<Event>) {
    forall i :: 0 <= i < |events| ==> events[i].Chunk?
  }

  /** How `NextHead` relates to the bytes copied since the buffer was last empty. */
  lemma NextCopied(held: seq<byte>, head: nat, n: nat, chunk: seq<byte>)
    requires |held| <= head <= n
    ensures var left, next := Rest(held + chunk), NextHead(held, head, chunk);
            if held == [] && IsFrame(chunk) then left == [] && next == head
            else next <= (if left == [] then 0 else n + |chunk|)
                 && (head + |chunk| < BUFSZ ==> next == if left == [] then 0 else head + |chunk|)
  {
    CutFits(held + chunk);
    if held == [] && IsFrame(chunk) {
      FrameSplit(chunk);
      assert held + chunk == chunk;
    }
  }

  lemma {:induction false} WithinFits(held: seq<byte>, head: nat, n: nat, events: seq<Event>)
    requires |held| <= head <= n && Within(held, n, events)
    ensures Fits(held, head, events)
    decreases |events|
  {
    hide IsFrame;
    hide Rest;
    hide NextHead;
    if events != [] {
      if events[0].Migrate? {
        WithinFits(held, |held|, n, events[1..]);
      } else {
        var chunk := events[0].data;
        var left := Rest(held + chunk);
        NextCopied(held, head, n, chunk);
        WithinFits(left, NextHead(held, head, chunk),
                   if held == [] && IsFrame(chunk) then n else if left == [] then 0 else n + |chunk|, events[1..]);
      }
    }
  }

  lemma {:induction false} FitsWithin(held: seq<byte>, head: nat, events: seq<Event>)
    requires |held| <= head && NoMigration(events) && NeverExactlyFull(held, head, events) && Fits(held, head, events)
    ensures Within(held, head, events)
    decreases |events|
  {
    hide IsFrame;
    hide Rest;
    hide NextHead;
    if events != [] {
      var chunk := events[0].data;
      NextCopied(held, head, head, chunk);
      FitsWithin(Rest(held + chunk), NextHead(held, head, chunk), events[1..]);
    }
  }

  /** A run goes through exactly when every copied chunk fits. Within capacity it does, wherever
      migrations are placed; without migrations, and unless the buffer is filled to exactly its last byte
      (which moves the unread bytes to the front), that bound is tight. */
  lemma CapacityExact(c: Conn, events: seq<Event>)
    requires c.buffer.Settled()
    ensures Run(c, events).Some? <==> Fits(c.buffer.data, c.buffer.head, events)
    ensures forall n: nat :: c.buffer.head <= n && Within(c.buffer.data, n, events) ==> Run(c, events).Some?
    ensures NoMigration(events) && NeverExactlyFull(c.buffer.data, c.buffer.head, events) ==>
              (Run(c, events).Some? <==> Within(c.buffer.data, c.buffer.head, events))
  {
    FitsIff(c, events);
    forall n: nat | c.buffer.head <= n && Within(c.buffer.data, n, events) ensures Fits(c.buffer.data, c.buffer.head, events) {
      WithinFits(c.buffer.data, c.buffer.head, n, events);
    }
    if NoMigration(events) && NeverExactlyFull(c.buffer.data, c.buffer.head, events) && Run(c, events).Some? {
      FitsWithin(c.buffer.data, c.buffer.head, events);
    }
  }

  // ----- does a migration ever do harm?

  /** The chunks of a run without its migrations. */
  function Chunks(events: seq<Event>): (r: seq<Event>)
    ensures NoMigration(r)
  {
    if events == [] then []
    else if events[0].Migrate? then Chunks(events[1..])
    else [events[0]] + Chunks(events[1..])
  }

  /** From any point on, the remaining chunks also fit behind unread bytes that were just moved to the
      front. */
  predicate FitsCompacted(held: seq<byte>, cs: seq<Event>)
    requires NoMigration(cs)
    decreases |cs|
  {
    && Fits(held, |held|, cs)
    && (cs != [] ==> FitsCompacted(Rest(held + cs[0].data), cs[1..]))
  }

  lemma {:induction false} ChunksOnly(cs: seq<Event>)
    requires NoMigration(cs)
    ensures Chunks(cs) == cs
  {
    if cs != [] {
      ChunksOnly(cs[1..]);
    }
  }

  lemma {:induction false} FitsWithMigrations(held: seq<byte>, head: nat, events: seq<Event>)
    requires |held| <= head && Fits(held, head, Chunks(events)) && FitsCompacted(held, Chunks(events))
    ensures Fits(held, head, events)
    decreases |events|
  {
    hide IsFrame;
    hide Rest;
    hide NextHead;
    if events != [] {
      if events[0].Migrate? {
        FitsWithMigrations(held, |held|, events[1..]);
      } else {
        var chunk, cs := events[0].data, Chunks(events);
        assert cs[0] == events[0] && cs[1..] == Chunks(events[1..]);
        FitsWithMigrations(Rest(held + chunk), NextHead(held, head, chunk), events[1..]);
      }
    }
  }

  /** Wherever migrations are placed among the chunks, everything fits. */
  ghost predicate FitsEverywhere(held: seq<byte>, head: nat, cs: seq<Event>)
    requires |held| <= head
  {
    forall es: seq<Event> :: Chunks(es) == cs ==> Fits(held, head, es)
  }

  lemma MigrateFirst(held: seq<byte>, head: nat, cs: seq<Event>)
    requires |held| <= head && NoMigration(cs) && FitsEverywhere(held, head, cs)
    ensures Fits(held, |held|, cs)
  {
    var es := [Migrate([])] + cs;
    ChunksOnly(cs);
    assert es[1..] == cs;
    assert Chunks(es) == cs;
  }

  lemma {:induction false} EverywhereCompacted(held: seq<byte>, head: nat, cs: seq<Event>)
    requires |held| <= head && NoMigration(cs) && FitsEverywhere(held, head, cs)
    ensures FitsCompacted(held, cs)
    decreases |cs|
  {
    hide IsFrame;
    hide Rest;
    hide NextHead;
    MigrateFirst(held, head, cs);
    if cs != [] {
      var chunk := cs[0].data;
      var next := NextHead(held, head, chunk);
      forall es: seq<Event> | Chunks(es) == cs[1..] ensures Fits(Rest(held + chunk), next, es) {
        var all := [cs[0]] + es;
        assert all[1..] == es;
        assert Chunks(all) == cs;
        assert Fits(held, head, all);
      }
      EverywhereCompacted(Rest(held + chunk), next, cs[1..]);
    }
  }

  lemma EverywhereIff(held: seq<byte>, head: nat, cs: seq<Event>)
    requires |held| <= head && NoMigration(cs)
    ensures FitsEverywhere(held, head, cs) <==> Fits(held, head, cs) && FitsCompacted(held, cs)
  {
    hide Fits;
    hide FitsCompacted;
    ChunksOnly(cs);
    if FitsEverywhere(held, head, cs) {
      EverywhereCompacted(held, head, cs);
    }
    forall es: seq<Event> | Fits(held, head, cs) && FitsCompacted(held, cs) && Chunks(es) == cs ensures Fits(held, head, es) {
      FitsWithMigrations(held, head, es);
    }
  }

  ghost predicate GoesThrough(c: Conn, events: seq<Event>)
    requires c.buffer.Settled()
  {
    Run(c, events).Some?
  }

  /** A sequence of chunks goes through wherever the connection migrates in between, exactly when it goes
      through on one host and, from every point on, also behind unread bytes moved to the front. */
  lemma MigrationsHarmlessIff(c: Conn, cs: seq<Event>)
    requires c.buffer.Settled() && NoMigration(cs)
    ensures (forall es: seq<Event> :: Chunks(es) == cs ==> GoesThrough(c, es))
       <==> Fits(c.buffer.data, c.buffer.head, cs) && FitsCompacted(c.buffer.data, cs)
  {
    EverywhereIff(c.buffer.data, c.buffer.head, cs);
    forall es: seq<Event> ensures GoesThrough(c, es) <==> Fits(c.buffer.data, c.buffer.head, es) {
      FitsIff(c, es);
    }
    hide Chunks;
    hide GoesThrough;
  }

  lemma {:induction false} LowerHeadFits(held: seq<byte>, m: nat, n: nat, cs: seq<Event>)
    requires |held| <= m <= n && NoMigration(cs) && NeverExactlyFull(held, n, cs) && Fits(held, n, cs)
    ensures Fits(held, m, cs)
    decreases |cs|
  {
    hide IsFrame;
    hide Rest;
    hide NextHead;
    if cs != [] {
      var chunk := cs[0].data;
      NextCopied(held, m, n, chunk);
      NextCopied(held, n, n, chunk);
      LowerHeadFits(Rest(held + chunk), NextHead(held, m, chunk), NextHead(held, n, chunk), cs[1..]);
    }
  }

  lemma {:induction false} NeverFullFitsCompacted(held: seq<byte>, head: nat, cs: seq<Event>)
    requires |held| <= head && NoMigration(cs) && NeverExactlyFull(held, head, cs) && Fits(held, head, cs)
    ensures FitsCompacted(held, cs)
    decreases |cs|
  {
    hide IsFrame;
    hide Rest;
    hide NextHead;
    LowerHeadFits(held, |held|, head, cs);
    if cs != [] {
      var chunk := cs[0].data;
      NextCopied(held, head, head, chunk);
      NeverFullFitsCompacted(Rest(held + chunk), NextHead(held, head, chunk), cs[1..]);
    }
  }

  lemma {:induction false} ChunksNeverExactlyFull(held: seq<byte>, n: nat, events: seq<Event>)
    ensures NeverExactlyFull(held, n, Chunks(events)) == NeverExactlyFull(held, n, events)
    decreases |events|
  {
    if events != [] {
      if events[0].Migrate? {
        ChunksNeverExactlyFull(held, n, events[1..]);
      } else {
        var chunk, cs := events[0].data, Chunks(events);
        var left := Rest(held + chunk);
        assert cs[0] == events[0] && cs[1..] == Chunks(events[1..]);
        ChunksNeverExactlyFull(held, n, events[1..]);
        ChunksNeverExactlyFull(left, if left == [] then 0 else n + |chunk|, events[1..]);
      }
    }
  }

  /** In particular, unless the buffer is ever filled to exactly its last byte, a run that goes through on
      one host also goes through with migrations anywhere in it. */
  lemma MigrationIsSafe(c: Conn, events: seq<Event>)
    requires c.buffer.Settled() && NeverExactlyFull(c.buffer.data, c.buffer.head, events)
    requires Run(c, Chunks(events)).Some?
    ensures Run(c, events).Some?
  {
    ChunksNeverExactlyFull(c.buffer.data, c.buffer.head, events);
    FitsIff(c, Chunks(events));
    NeverFullFitsCompacted(c.buffer.data, c.buffer.head, Chunks(events));
    MigrationsHarmlessIff(c, Chunks(events));
    assert GoesThrough(c, events);
  }

  // ----- an input on which a migration does harm

  /** Largest payload of one TCP segment (`DEFAULT_MSS`), hence of one popped chunk. */
  const MSS: nat := 1450

  function Filler(n: nat): (r: seq<byte>)
    ensures |r| == n
  {
    seq(n, _ => 97)
  }

  lemma FillerBlocks(s: seq<byte>, j: nat)
    requires j < |s| && s[j] == 97
    ensures !OccursAt(s, DELIMITER, j)
  {
    assert j + 4 <= |s| ==> s[j..j + 4][0] == 97;
  }

  lemma FillerUnfinished(n: nat)
    ensures Frames(Filler(n)) == [] && Rest(Filler(n)) == Filler(n) && !IsFrame(Filler(n))
  {
    forall j | 0 <= j < n ensures !OccursAt(Filler(n), DELIMITER, j) {
      FillerBlocks(Filler(n), j);
    }
    UnfinishedSplit(Filler(n));
  }

  lemma FillerSplit(k: nat, n: nat)
    ensures IsFrame(Filler(k) + DELIMITER)
    ensures Frames(Filler(k) + (DELIMITER + Filler(n))) == [Filler(k) + DELIMITER]
    ensures Rest(Filler(k) + (DELIMITER + Filler(n))) == Filler(n)
  {
    var f := Filler(k) + DELIMITER;
    FillerUnfinished(n);
    forall j | 0 <= j < k ensures !OccursAt(f, DELIMITER, j) {
      FillerBlocks(f, j);
    }
    assert f[k..k + 4] == DELIMITER;
    FrameFirst(f, Filler(n));
    Assoc(Filler(k), DELIMITER, Filler(n));
  }

  lemma FitsChunk(held: seq<byte>, head: nat, chunk: seq<byte>, events: seq<Event>)
    requires |held| <= head
    ensures Fits(held, head, [Chunk(chunk)] + events)
       <==> && ((held == [] && IsFrame(chunk)) || head + |chunk| <= BUFSZ)
            && Fits(Rest(held + chunk), NextHead(held, head, chunk), events)
  {
    hide IsFrame;
    hide Rest;
    hide NextHead;
    assert ([Chunk(chunk)] + events)[1..] == events;
  }

  lemma FillerAppend(k: nat, n: nat)
    ensures Filler(k) + Filler(n) == Filler(k + n)
  {
  }

  lemma FillNext(k: nat, head: nat, n: nat)
    requires k <= head && n > 0
    ensures !IsFrame(Filler(n))
    ensures Rest(Filler(k) + Filler(n)) == Filler(k + n) && NextHead(Filler(k), head, Filler(n)) == head + n
  {
    FillerAppend(k, n);
    FillerUnfinished(n);
    FillerUnfinished(k + n);
    hide Filler;
    hide Rest;
    hide Frames;
    hide IsFrame;
  }

  lemma FillStep(k: nat, head: nat, n: nat, events: seq<Event>)
    requires k <= head && n > 0
    ensures Fits(Filler(k), head, [Chunk(Filler(n))] + events)
       <==> head + n <= BUFSZ && Fits(Filler(k + n), head + n, events)
  {
    FillNext(k, head, n);
    FitsChunk(Filler(k), head, Filler(n), events);
    hide *;
  }

  lemma CutNext(k: nat, head: nat, n: nat)
    requires k <= head && n > 0
    ensures var chunk := DELIMITER + Filler(n);
            && !IsFrame(chunk) && Rest(Filler(k) + chunk) == Filler(n)
            && (head + 4 + n <= BUFSZ ==>
                  NextHead(Filler(k), head, chunk) == if head + 4 + n < BUFSZ then head + 4 + n else n)
  {
    var chunk := DELIMITER + Filler(n);
    assert Filler(0) + chunk == chunk;
    FillerSplit(k, n);
    FillerSplit(0, n);
    hide Filler;
    hide Rest;
    hide Frames;
    if IsFrame(chunk) { FrameSplit(chunk); }
  }

  lemma CutStep(k: nat, head: nat, n: nat, events: seq<Event>)
    requires k <= head && n > 0
    ensures Fits(Filler(k), head, [Chunk(DELIMITER + Filler(n))] + events)
       <==> head + 4 + n <= BUFSZ && Fits(Filler(n), if head + 4 + n < BUFSZ then head + 4 + n else n, events)
  {
    CutNext(k, head, n);
    FitsChunk(Filler(k), head, DELIMITER + Filler(n), events);
    hide *;
  }

  /** From one unread byte: two full segments, a segment that ends the request and begins another,
      five more bytes. Whether they fit depends on where the unread byte lies. */
  lemma FillThenFive(head: nat)
    requires 1 <= head <= 5
    ensures Fits(Filler(1), head, [Chunk(Filler(MSS)), Chunk(Filler(MSS)), Chunk(DELIMITER + Filler(1187)), Chunk(Filler(5))])
       <==> head == 5
  {
    hide Filler;
    hide Fits;
    var a, b, d := Chunk(Filler(MSS)), Chunk(DELIMITER + Filler(1187)), Chunk(Filler(5));
    var last := if head == 5 then 1187 else head + 2 * MSS + 1191;
    Four(a, a, b, d);
    FillStep(1, head, MSS, [a, b, d]);
    FillStep(1 + MSS, head + MSS, MSS, [b, d]);
    CutStep(1 + 2 * MSS, head + 2 * MSS, 1187, [d]);
    FillStep(1187, last, 5, []);
    FitsNothing(Filler(1187 + 5), last + 5);
  }

  lemma Four<T>(a: T, b: T, c: T, d: T)
    ensures [a, b, c, d] == [a] + [b, c, d] && [b, c, d] == [b] + [c, d] && [c, d] == [c] + [d] && [d] == [d] + []
  {
  }

  lemma FitsNothing(held: seq<byte>, head: nat)
    requires |held| <= head
    ensures Fits(held, head, [])
  {
  }

  lemma MigrateStep(held: seq<byte>, head: nat, events: seq<Event>)
    requires |held| <= head
    ensures Fits(held, head, [Migrate([])] + events) <==> Fits(held, |held|, events)
  {
    assert ([Migrate([])] + events)[1..] == events;
  }

  /** Five segments that one host handles, and that panic on the second host after a migration: the
      unmigrated buffer fills to its last byte and is compacted, the migrated one does not. */
  lemma MigrationCanOverflow(c: Conn)
    requires c.buffer == EMPTY_BUFFER
    ensures var first := Chunk(DELIMITER + Filler(1));
            var more := [Chunk(Filler(MSS)), Chunk(Filler(MSS)), Chunk(DELIMITER + Filler(1187)), Chunk(Filler(5))];
            && (forall i :: 0 <= i < |more| ==> |more[i].data| <= MSS)
            && Run(c, [first] + more).Some?
            && Run(c, [first] + ([Migrate([])] + more)) == None
  {
    hide Fits;
    hide Run;
    var first := Chunk(DELIMITER + Filler(1));
    var more := [Chunk(Filler(MSS)), Chunk(Filler(MSS)), Chunk(DELIMITER + Filler(1187)), Chunk(Filler(5))];
    FillThenFive(5);
    FillThenFive(1);
    CutStep(0, 0, 1, more);
    CutStep(0, 0, 1, [Migrate([])] + more);
    MigrateStep(Filler(1), 5, more);
    assert Filler(0) == [];
    FitsIff(c, [first] + more);
    FitsIff(c, [first] + ([Migrate([])] + more));
  }
}
