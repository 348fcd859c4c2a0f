/**
 `event: invalidate`: two generation counters bumped by the correlation refresh, and the throttled
 notice each subscriber gets of them.
*/
module Invalidation {
  import opened Basics
  import opened Mailboxes

  // ---------------------------------------------------------------- the jobs fingerprint

  /** The fields of a job view that can move a job across a page, a filter, a facet or a sort position. */
  datatype PageRow = PageRow(
    id: int, state: string, status: string, peer: string, retries: int, updatedAt: int,
    source: string, title: string, artist: string)

  /** A job view: its page-relevant part, and byte counts that move on every refresh. */
  datatype JobRow = JobRow(page: PageRow, bytesDone: int, bytesTotal: int)

  datatype Fingerprint = Fingerprint(count: nat, sum: nat)

  const TWO_64 := 0x1_0000_0000_0000_0000

  function HashSum(pages: seq<PageRow>, hash: PageRow -> nat): nat {
    if pages == [] then 0 else HashSum(pages[..|pages| - 1], hash) + hash(pages[|pages| - 1])
  }

  function Pages(views: seq<JobRow>): seq<PageRow> {
    seq(|views|, i requires 0 <= i < |views| => views[i].page)
  }

  /** A wrapping 64-bit sum of per-job hashes, whatever the hash. */
  function FingerprintOf(views: seq<JobRow>, hash: PageRow -> nat): Fingerprint {
    Fingerprint(|views|, HashSum(Pages(views), hash) % TWO_64)
  }

  method ComputeJobsFingerprint(views: seq<JobRow>, hash: PageRow -> nat) returns (fp: Fingerprint)
    ensures fp == FingerprintOf(views, hash)
  {
    var sum := 0;
    var pages := Pages(views);
    for i := 0 to |views|
      invariant sum == HashSum(pages[..i], hash) % TWO_64
    {
      assert pages[..i + 1][..i] == pages[..i];
      sum := (sum + hash(views[i].page) % TWO_64) % TWO_64;
    }
    assert pages[..|views|] == pages;
    fp := Fingerprint(|views|, sum);
  }

  lemma {:induction false} HashSumWithout(pages: seq<PageRow>, i: nat, hash: PageRow -> nat)
    requires i < |pages|
    ensures HashSum(pages, hash) == HashSum(pages[..i] + pages[i + 1..], hash) + hash(pages[i])
  {
    var n := |pages| - 1;
    if i < n {
      var init := pages[..n];
      HashSumWithout(init, i, hash);
      var rest := pages[..i] + pages[i + 1..];
      assert rest[..|rest| - 1] == init[..i] + init[i + 1..];
      assert rest[|rest| - 1] == pages[n];
    } else {
      assert pages[..i] + pages[i + 1..] == pages[..n];
    }
  }

  /**
   The fingerprint is invariant under any permutation of the rows, and blind to everything but the
   page-relevant fields.
  */
  lemma {:induction false} FingerprintIgnoresOrder(a: seq<PageRow>, b: seq<PageRow>, hash: PageRow -> nat)
    requires multiset(a) == multiset(b)
    ensures |a| == |b| && HashSum(a, hash) == HashSum(b, hash)
    decreases |a|
  {
    if a == [] {
      assert |multiset(b)| == |b|;
    } else {
      var n := |a| - 1;
      var i := WithoutLast(a, b);
      FingerprintIgnoresOrder(a[..n], b[..i] + b[i + 1..], hash);
      HashSumWithout(b, i, hash);
    }
  }

  lemma SameRemainder(r: nat, a: nat, b: nat)
    ensures (r + a) % TWO_64 == (r + b) % TWO_64 <==> a % TWO_64 == b % TWO_64
  {
  }

  /**
   A row that changes is seen exactly if the hashes of its page-relevant fields differ modulo 2^64, as
   its byte counts alone never are; a row more or less always is.
  */
  lemma ChangedRowIsSeenIff(views: seq<JobRow>, i: nat, row: JobRow, more: seq<JobRow>, hash: PageRow -> nat)
    requires i < |views|
    ensures FingerprintOf(views[i := row], hash) != FingerprintOf(views, hash) <==>
            hash(row.page) % 0x1_0000_0000_0000_0000 != hash(views[i].page) % 0x1_0000_0000_0000_0000
    ensures |more| != |views| ==> FingerprintOf(more, hash) != FingerprintOf(views, hash)
  {
    hide HashSum;
    var a, b := Pages(views), Pages(views[i := row]);
    var rest := a[..i] + a[i + 1..];
    assert b[..i] + b[i + 1..] == rest;
    HashSumWithout(a, i, hash);
    HashSumWithout(b, i, hash);
    SameRemainder(HashSum(rest, hash), hash(views[i].page), hash(row.page));
  }

  lemma WithoutOne(s: seq<PageRow>, i: nat)
    requires i < |s|
    ensures multiset(s[..i] + s[i + 1..]) == multiset(s) - multiset{s[i]}
  {
    assert s == s[..i] + [s[i]] + s[i + 1..];
    assert multiset(s) == multiset(s[..i]) + multiset{s[i]} + multiset(s[i + 1..]);
  }

  lemma WithoutLast(a: seq<PageRow>, b: seq<PageRow>) returns (i: nat)
    requires a != [] && multiset(a) == multiset(b)
    ensures i < |b| && b[i] == a[|a| - 1] && multiset(b[..i] + b[i + 1..]) == multiset(a[..|a| - 1])
  {
    var n := |a| - 1;
    assert a[n] in multiset(b);
    i :| 0 <= i < |b| && b[i] == a[n];
    WithoutOne(a, n);
    assert a[..n] + a[n + 1..] == a[..n];
    WithoutOne(b, i);
  }

  // ---------------------------------------------------------------- the generations

  datatype Generations = Generations(
    hasFingerprint: bool, jobsPrint: Fingerprint, uploadMark: int, jobs: nat, uploads: nat)

  /**
   A refresh under way: the fingerprint of the job views it was answered, and the upload mark that was
   the last committed one then, in case its own marker call fails.
  */
  datatype Refresh = Refresh(views: Fingerprint, previousMark: int)

  function MarkOf(r: Refresh, mark: Option<int>): int {
    if mark.Some? then mark.value else r.previousMark
  }

  /** What a refresh commits, compared with whatever was committed last, by itself or by another. */
  function Commit(g: Generations, r: Refresh, mark: Option<int>): Generations {
    Generations(true, r.views, MarkOf(r, mark),
                if g.hasFingerprint && r.views != g.jobsPrint then g.jobs + 1 else g.jobs,
                if g.hasFingerprint && MarkOf(r, mark) != g.uploadMark then g.uploads + 1 else g.uploads)
  }

  // ---------------------------------------------------------------- one subscriber

  datatype InvalidatePayload = InvalidatePayload(generation: nat, jobs: bool, uploads: bool)

  /** sendLatestInvalidate: the newest frame wins outright. */
  function MergeInvalidate(older: InvalidatePayload, newer: InvalidatePayload): InvalidatePayload {
    newer
  }

  datatype InvalidatePart = InvalidatePart(seenJobs: nat, seenUploads: nat, lastAt: int, ch: Chan<InvalidatePayload>)

  /** What a tick captured before it took the hub's lock. */
  datatype Snapshot = Snapshot(jobs: nat, uploads: nat, now: int)

  function SubscribeInvalidate(g: Generations, now: int): InvalidatePart {
    InvalidatePart(g.jobs, g.uploads, now, Chan([], None))
  }

  predicate Due(p: InvalidatePart, t: Snapshot, interval: int) {
    (t.jobs != p.seenJobs || t.uploads != p.seenUploads) && t.now - p.lastAt >= interval
  }

  function TickInvalidate(p: InvalidatePart, t: Snapshot, interval: int): InvalidatePart {
    if Due(p, t, interval) then
      InvalidatePart(t.jobs, t.uploads, t.now,
                     Put(p.ch, InvalidatePayload(t.jobs + t.uploads, t.jobs != p.seenJobs, t.uploads != p.seenUploads),
                         MergeInvalidate))
    else p
  }

  /** One enqueued notice, with what was reported when. */
  datatype Notice = Notice(at: int, jobs: nat, uploads: nat, payload: InvalidatePayload)

  /**
   The hub's counters and clock, the refreshes and the tick in progress, one subscriber connected at
   `connectedAt` with the generations `jobs0`, `uploads0`, and the log of its enqueued notices.
  */
  datatype InvalidateSystem = InvalidateSystem(
    gens: Generations, refreshes: map<nat, Refresh>, now: int, tick: Option<Snapshot>, part: InvalidatePart,
    connectedAt: int, jobs0: nat, uploads0: nat, log: seq<Notice>)

  datatype InvalidateEvent =
    | Begins(id: nat, views: Option<Fingerprint>)  // views have failed, or had answered this; the mark is noted
    | Commits(id: nat, mark: Option<int>)          // the marker call failed, or answered
    | Passes(d: nat)
    | TickBegins
    | TickDelivers
    | InvalidateReceive

  function InvalidateStep(y: InvalidateSystem, e: InvalidateEvent, interval: int): InvalidateSystem {
    match e
    case Begins(id, views) =>
      if views.None? then y
      else y.(refreshes := y.refreshes[id := Refresh(views.value, y.gens.uploadMark)])
    case Commits(id, mark) =>
      if id !in y.refreshes then y
      else y.(gens := Commit(y.gens, y.refreshes[id], mark), refreshes := y.refreshes - {id})
    case Passes(d) => y.(now := y.now + d)
    case TickBegins => y.(tick := Some(Snapshot(y.gens.jobs, y.gens.uploads, y.now)))
    case TickDelivers =>
      if y.tick.None? then y
      else
        var t, p := y.tick.value, y.part;
        y.(tick := None, part := TickInvalidate(p, t, interval),
           log := if Due(p, t, interval) then
                    y.log + [Notice(t.now, t.jobs, t.uploads,
                                    InvalidatePayload(t.jobs + t.uploads, t.jobs != p.seenJobs,
                                                      t.uploads != p.seenUploads))]
                  else y.log)
    case InvalidateReceive => y.(part := y.part.(ch := Take(y.part.ch)))
  }

  function InvalidateRun(y: InvalidateSystem, es: seq<InvalidateEvent>, interval: int): InvalidateSystem {
    if es == [] then y else InvalidateStep(InvalidateRun(y, es[..|es| - 1], interval), es[|es| - 1], interval)
  }

  // ---------------------------------------------------------------- what the generations count

  /** The values committed, oldest first, from the ones in force when the run starts. */
  function CommittedViews(y: InvalidateSystem, es: seq<InvalidateEvent>, interval: int): seq<Fingerprint> {
    if es == [] then (if y.gens.hasFingerprint then [y.gens.jobsPrint] else [])
    else
      var z, e := InvalidateRun(y, es[..|es| - 1], interval), es[|es| - 1];
      var views := CommittedViews(y, es[..|es| - 1], interval);
      if e.Commits? && e.id in z.refreshes then views + [z.refreshes[e.id].views] else views
  }

  function CommittedMarks(y: InvalidateSystem, es: seq<InvalidateEvent>, interval: int): seq<int> {
    if es == [] then (if y.gens.hasFingerprint then [y.gens.uploadMark] else [])
    else
      var z, e := InvalidateRun(y, es[..|es| - 1], interval), es[|es| - 1];
      var marks := CommittedMarks(y, es[..|es| - 1], interval);
      if e.Commits? && e.id in z.refreshes then marks + [MarkOf(z.refreshes[e.id], e.mark)] else marks
  }

  function Changes<T(==)>(s: seq<T>): nat {
    if |s| < 2 then 0 else Changes(s[..|s| - 1]) + if s[|s| - 1] != s[|s| - 2] then 1 else 0
  }

  lemma ChangesAppend<T>(s: seq<T>, x: T)
    ensures Changes(s + [x]) == Changes(s) + if s != [] && s[|s| - 1] != x then 1 else 0
  {
    assert (s + [x])[..|s|] == s;
  }

  /** The counters say how often the committed values changed, and hold the last of them. */
  ghost predicate Counts(g0: Generations, g: Generations, views: seq<Fingerprint>, marks: seq<int>) {
    && g.jobs == g0.jobs + Changes(views) && g.uploads == g0.uploads + Changes(marks)
    && (g.hasFingerprint <==> views != []) && |views| == |marks|
    && (views != [] ==> g.jobsPrint == views[|views| - 1])
    && g.uploadMark == if marks != [] then marks[|marks| - 1] else g0.uploadMark
  }

  lemma CommitCounts(g0: Generations, g: Generations, views: seq<Fingerprint>, marks: seq<int>, r: Refresh,
                     mark: Option<int>)
    requires Counts(g0, g, views, marks)
    ensures Counts(g0, Commit(g, r, mark), views + [r.views], marks + [MarkOf(r, mark)])
  {
    hide Changes;
    ChangesAppend(views, r.views);
    ChangesAppend(marks, MarkOf(r, mark));
  }

  /**
   Over every run, however the refreshes overlap: each generation counts the changes in the sequence
   of its own half's committed values, never the other's and never the first, and a refresh whose job
   views failed commits nothing.
  */
  lemma {:induction false} GenerationsCountChanges(y: InvalidateSystem, es: seq<InvalidateEvent>, interval: int)
    ensures Counts(y.gens, InvalidateRun(y, es, interval).gens,
                   CommittedViews(y, es, interval), CommittedMarks(y, es, interval))
  {
    if es != [] {
      hide Counts, Commit;
      var init, e := es[..|es| - 1], es[|es| - 1];
      GenerationsCountChanges(y, init, interval);
      var z := InvalidateRun(y, init, interval);
      if e.Commits? && e.id in z.refreshes {
        CommitCounts(y.gens, z.gens, CommittedViews(y, init, interval), CommittedMarks(y, init, interval),
                     z.refreshes[e.id], e.mark);
      }
    }
  }

  lemma {:induction false} RefreshWaits(y: InvalidateSystem, es: seq<InvalidateEvent>, id: nat, interval: int)
    requires forall e | e in es :: (e.Begins? || e.Commits?) ==> e.id != id
    ensures var z := InvalidateRun(y, es, interval);
            (id in z.refreshes <==> id in y.refreshes) && (id in y.refreshes ==> z.refreshes[id] == y.refreshes[id])
  {
    if es != [] {
      assert forall e | e in es[..|es| - 1] :: e in es;
      RefreshWaits(y, es[..|es| - 1], id, interval);
    }
  }

  lemma {:induction false} NoCommitNoMark(y: InvalidateSystem, es: seq<InvalidateEvent>, interval: int)
    requires forall e | e in es :: !e.Commits?
    ensures CommittedMarks(y, es, interval) == CommittedMarks(y, [], interval)
  {
    if es != [] {
      assert es[|es| - 1] in es;
      NoCommitNoMark(y, es[..|es| - 1], interval);
    }
  }

  /**
   A failed marker call falls back on the mark in force when its refresh began. That bumps the uploads
   generation exactly if the mark committed last, which takes another refresh, is a different one.
  */
  lemma FailedMarkerBumpsIff(y: InvalidateSystem, id: nat, views: Fingerprint, es: seq<InvalidateEvent>, interval: int)
    requires forall e | e in es :: (e.Begins? || e.Commits?) ==> e.id != id
    ensures var a := InvalidateStep(y, Begins(id, Some(views)), interval);
            var b := InvalidateRun(a, es, interval);
            var c := InvalidateStep(b, Commits(id, None), interval);
            var marks := CommittedMarks(a, es, interval);
            && (c.gens.uploads != b.gens.uploads <==> marks != [] && marks[|marks| - 1] != y.gens.uploadMark)
            && (c.gens.uploads != b.gens.uploads ==> exists e :: e in es && e.Commits?)
            && c.gens.uploadMark == y.gens.uploadMark
  {
    var a := InvalidateStep(y, Begins(id, Some(views)), interval);
    RefreshWaits(a, es, id, interval);
    GenerationsCountChanges(a, es, interval);
    if forall e | e in es :: !e.Commits? {
      NoCommitNoMark(a, es, interval);
    }
  }

  /**
   Such a run: the upload mark is 6 whenever it is asked for, and the failed call of the refresh that
   began before 6 was committed counts as a change, as does the next refresh that succeeds.
  */
  lemma FailedMarkerBumps(views: Fingerprint, p: InvalidatePart, interval: int)
    ensures var y := InvalidateSystem(Generations(true, views, 5, 0, 0), map[], 0, None, p, 0, 0, 0, []);
            var y1 := InvalidateStep(y, Begins(1, Some(views)), interval);
            var b2 := InvalidateStep(y1, Begins(2, Some(views)), interval);
            var y2 := InvalidateStep(b2, Commits(2, Some(6)), interval);
            var y3 := InvalidateStep(y2, Commits(1, None), interval);
            var b3 := InvalidateStep(y3, Begins(3, Some(views)), interval);
            var z := InvalidateStep(b3, Commits(3, Some(6)), interval);
            && y2.gens == Generations(true, views, 6, 0, 1)
            && y3.gens == Generations(true, views, 5, 0, 2)
            && z.gens == Generations(true, views, 6, 0, 3)
  {
  }

  // ---------------------------------------------------------------- every notice

  /** A subscriber registers, possibly while an earlier snapshot is still to be delivered. */
  predicate Connected(y: InvalidateSystem) {
    && y.part == SubscribeInvalidate(y.gens, y.now) && y.log == []
    && y.connectedAt == y.now && y.jobs0 == y.gens.jobs && y.uploads0 == y.gens.uploads
    && (y.tick.Some? ==>
          var t := y.tick.value; t.jobs <= y.gens.jobs && t.uploads <= y.gens.uploads && t.now <= y.now)
  }

  function ReportedJobs(y: InvalidateSystem, n: nat): nat
    requires n <= |y.log|
  {
    if n == 0 then y.jobs0 else y.log[n - 1].jobs
  }

  function ReportedUploads(y: InvalidateSystem, n: nat): nat
    requires n <= |y.log|
  {
    if n == 0 then y.uploads0 else y.log[n - 1].uploads
  }

  function SentAt(y: InvalidateSystem, n: nat): int
    requires n <= |y.log|
  {
    if n == 0 then y.connectedAt else y.log[n - 1].at
  }

  /** The n-th notice is spaced, and each of its flags is set exactly when its generation grew since reported. */
  ghost predicate NoticeOk(y: InvalidateSystem, n: nat, interval: int)
    requires n < |y.log|
  {
    var e := y.log[n];
    && e.at - SentAt(y, n) >= interval
    && ReportedJobs(y, n) <= e.jobs && ReportedUploads(y, n) <= e.uploads
    && (e.payload.jobs <==> e.jobs > ReportedJobs(y, n))
    && (e.payload.uploads <==> e.uploads > ReportedUploads(y, n))
    && (e.payload.jobs || e.payload.uploads)
    && e.payload.generation == e.jobs + e.uploads
  }

  ghost predicate InvalidateInv(y: InvalidateSystem, interval: int) {
    var p, n := y.part, |y.log|;
    && p.seenJobs == ReportedJobs(y, n) <= y.gens.jobs
    && p.seenUploads == ReportedUploads(y, n) <= y.gens.uploads
    && p.lastAt == SentAt(y, n) <= y.now
    && (y.tick.Some? ==>
          var t := y.tick.value;
          && t.jobs <= y.gens.jobs && t.uploads <= y.gens.uploads && t.now <= y.now
          // a snapshot older than what is already reported is too old to pass the throttle
          && ((t.jobs < p.seenJobs || t.uploads < p.seenUploads) ==> t.now <= p.lastAt))
    && forall i | 0 <= i < n :: NoticeOk(y, i, interval)
  }

  lemma StepKeepsInvalidate(y: InvalidateSystem, e: InvalidateEvent, interval: int)
    requires interval > 0 && InvalidateInv(y, interval)
    ensures InvalidateInv(InvalidateStep(y, e, interval), interval)
  {
    var z := InvalidateStep(y, e, interval);
    assert y.log <= z.log;
    forall i | 0 <= i < |y.log| ensures NoticeOk(z, i, interval) {
      assert NoticeOk(y, i, interval);
    }
  }

  /**
   Over every run of a connection: notices are at least one interval apart, the first that long after
   connecting; each flag says exactly whether its own generation moved since it was last reported;
   and whatever the counters have done beyond the last notice is still pending in the comparison.
  */
  lemma {:induction false} NoticesAreExact(y: InvalidateSystem, es: seq<InvalidateEvent>, interval: int)
    requires interval > 0 && Connected(y)
    ensures InvalidateInv(InvalidateRun(y, es, interval), interval)
  {
    if es != [] {
      NoticesAreExact(y, es[..|es| - 1], interval);
      StepKeepsInvalidate(InvalidateRun(y, es[..|es| - 1], interval), es[|es| - 1], interval);
    }
  }

  /**
   A bump is never lost to the throttle: however long it waited, the first tick begun once the window
   has elapsed enqueues it.
  */
  lemma BumpIsReported(y: InvalidateSystem, interval: int)
    requires interval > 0 && InvalidateInv(y, interval)
    requires y.gens.jobs != y.part.seenJobs || y.gens.uploads != y.part.seenUploads
    requires y.now - y.part.lastAt >= interval
    ensures var z := InvalidateRun(y, [TickBegins, TickDelivers], interval);
            && |z.log| == |y.log| + 1
            && var e := z.log[|y.log|];
               && e.jobs == y.gens.jobs && e.uploads == y.gens.uploads
               && (e.payload.jobs <==> y.gens.jobs > y.part.seenJobs)
               && (e.payload.uploads <==> y.gens.uploads > y.part.seenUploads)
               && z.part.ch.pending == Some(e.payload)
  {
    var es := [TickBegins, TickDelivers];
    assert es[..1] == [TickBegins] && es[..1][..0] == [];
    assert InvalidateRun(y, [], interval) == y;
    assert InvalidateRun(y, [TickBegins], interval) == InvalidateStep(y, TickBegins, interval);
  }

  // ---------------------------------------------------------------- end to end

  function Payloads(log: seq<Notice>): seq<InvalidatePayload> {
    seq(|log|, i requires 0 <= i < |log| => log[i].payload)
  }

  /** Every notice is read before the next is sent. */
  predicate NeverDisplaces(y: InvalidateSystem, es: seq<InvalidateEvent>, interval: int) {
    es == [] ||
    var z := InvalidateRun(y, es[..|es| - 1], interval);
    && NeverDisplaces(y, es[..|es| - 1], interval)
    && (es[|es| - 1].TickDelivers? && z.tick.Some? && Due(z.part, z.tick.value, interval) ==> z.part.ch.pending.None?)
  }

  /** Exactly then does the client get every enqueued notice; otherwise it gets fewer. */
  lemma {:induction false} PromptReaderMissesNothing(y: InvalidateSystem, es: seq<InvalidateEvent>, interval: int)
    requires Connected(y)
    ensures var z := InvalidateRun(y, es, interval);
            && |Frames(z.part.ch)| <= |z.log|
            && (Frames(z.part.ch) == Payloads(z.log) <==> NeverDisplaces(y, es, interval))
            && (NeverDisplaces(y, es, interval) || |Frames(z.part.ch)| < |z.log|)
  {
    if es != [] {
      var z := InvalidateRun(y, es[..|es| - 1], interval);
      PromptReaderMissesNothing(y, es[..|es| - 1], interval);
      var z' := InvalidateStep(z, es[|es| - 1], interval);
      if es[|es| - 1].InvalidateReceive? {
        TakeKeepsFrames(z.part.ch);
      } else if z'.log != z.log {
        assert Payloads(z'.log) == Payloads(z.log) + [z'.log[|z.log|].payload];
        if z.part.ch.pending.None? {
          assert Frames(z'.part.ch) == Frames(z.part.ch) + [z'.log[|z.log|].payload];
        }
      }
    }
  }

  predicate Tells(fs: seq<InvalidatePayload>, jobs: bool) {
    exists i :: 0 <= i < |fs| && (if jobs then fs[i].jobs else fs[i].uploads)
  }

  /**
   An unread notice is replaced, its flags not united with the new one's: queueing `f` keeps the
   flags of the displaced frame exactly when `f` repeats them.
  */
  lemma DisplacedFlagsKeptIff(c: Chan<InvalidatePayload>, f: InvalidatePayload)
    requires c.pending.Some?
    ensures var unread := [c.pending.value, f];
            var queued := [Put(c, f, MergeInvalidate).pending.value];
            (forall jobs :: Tells(queued, jobs) == Tells(unread, jobs))
            == ((c.pending.value.jobs ==> f.jobs) && (c.pending.value.uploads ==> f.uploads))
  {
    var unread, queued := [c.pending.value, f], [Put(c, f, MergeInvalidate).pending.value];
    assert queued == [f] && unread[0] == c.pending.value && unread[1] == f;
    forall jobs ensures Tells(queued, jobs) <==> if jobs then f.jobs else f.uploads {
      assert queued[0] == f;
    }
    forall jobs
      ensures Tells(unread, jobs) <==>
        if jobs then c.pending.value.jobs || f.jobs else c.pending.value.uploads || f.uploads
    {
      assert Tells(unread, jobs) <== if jobs then unread[0].jobs else unread[0].uploads;
      assert Tells(unread, jobs) <== if jobs then unread[1].jobs else unread[1].uploads;
    }
    assert Tells(queued, true) == Tells(unread, true) <==> (c.pending.value.jobs ==> f.jobs);
    assert Tells(queued, false) == Tells(unread, false) <==> (c.pending.value.uploads ==> f.uploads);
  }

  /** A run that loses one: a jobs notice is still unread when an uploads-only notice replaces it. */
  lemma UnreadJobsNoticeIsLost(a: Fingerprint, b: Fingerprint, interval: nat)
    requires interval > 0 && a != b
    ensures var g := Generations(true, a, 0, 0, 0);
            var y := InvalidateSystem(g, map[], 0, None, SubscribeInvalidate(g, 0), 0, 0, 0, []);
            var y1 := InvalidateStep(InvalidateStep(y, Begins(1, Some(b)), interval), Commits(1, None), interval);
            var y2 := InvalidateStep(y1, Passes(interval), interval);
            var y3 := InvalidateStep(InvalidateStep(y2, TickBegins, interval), TickDelivers, interval);
            var y4 := InvalidateStep(InvalidateStep(y3, Begins(2, Some(b)), interval), Commits(2, Some(7)), interval);
            var y5 := InvalidateStep(y4, Passes(interval), interval);
            var z := InvalidateStep(InvalidateStep(y5, TickBegins, interval), TickDelivers, interval);
            && Connected(y)
            && Payloads(z.log) == [InvalidatePayload(1, true, false), InvalidatePayload(2, false, true)]
            && Frames(z.part.ch) == [InvalidatePayload(2, false, true)]
  {
  }
}
