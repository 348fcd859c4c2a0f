/**
 `event: throughput`: a growing series sent in increments behind a per-direction watermark. A sample
 that is dropped is gone for good, so a displaced frame is accumulated, up to a cap.
*/
module Throughput {
  import opened Basics
  import opened Mailboxes

  datatype Sample = Sample(at: int, bytesPerSecond: int)

  datatype ThroughputPayload = ThroughputPayload(download: seq<Sample>, upload: seq<Sample>)

  const CAP := 48

  /** The suffix of an oldest-first window strictly newer than `since`. */
  function NewSince(samples: seq<Sample>, since: int): seq<Sample> {
    if samples == [] then []
    else if samples[0].at > since then samples
    else NewSince(samples[1..], since)
  }

  method NewThroughputSince(samples: seq<Sample>, since: int) returns (newer: seq<Sample>)
    ensures newer == NewSince(samples, since)
  {
    for i := 0 to |samples|
      invariant NewSince(samples, since) == NewSince(samples[i..], since)
    {
      if samples[i].at > since {
        return samples[i..];
      }
      assert samples[i..][1..] == samples[i + 1..];
    }
    return [];
  }

  function Cap(samples: seq<Sample>): seq<Sample> {
    if |samples| <= CAP then samples else samples[|samples| - CAP..]
  }

  /** sendLatestThroughput's rule: the displaced samples come first, then the cap drops the oldest. */
  function MergeThroughput(older: ThroughputPayload, newer: ThroughputPayload): ThroughputPayload {
    ThroughputPayload(Cap(older.download + newer.download), Cap(older.upload + newer.upload))
  }

  datatype ThroughputPart = ThroughputPart(downAt: int, upAt: int, ch: Chan<ThroughputPayload>)

  function LastAt(samples: seq<Sample>, otherwise: int): int {
    if samples == [] then otherwise else samples[|samples| - 1].at
  }

  /** The first frame carries the whole windows; a zero watermark stands for "nothing seen". */
  function SubscribeThroughput(down: seq<Sample>, up: seq<Sample>): ThroughputPart {
    ThroughputPart(LastAt(down, 0), LastAt(up, 0), Chan([ThroughputPayload(down, up)], None))
  }

  function TickThroughput(p: ThroughputPart, down: seq<Sample>, up: seq<Sample>): ThroughputPart {
    var newDown, newUp := NewSince(down, p.downAt), NewSince(up, p.upAt);
    if newDown == [] && newUp == [] then p
    else ThroughputPart(LastAt(newDown, p.downAt), LastAt(newUp, p.upAt),
                        Put(p.ch, ThroughputPayload(newDown, newUp), MergeThroughput))
  }

  // ---------------------------------------------------------------- one direction of a run

  function Side(f: ThroughputPayload, up: bool): seq<Sample> {
    if up then f.upload else f.download
  }

  function MarkOf(p: ThroughputPart, up: bool): int {
    if up then p.upAt else p.downAt
  }

  function Concat(frames: seq<ThroughputPayload>, up: bool): seq<Sample> {
    if frames == [] then [] else Concat(frames[..|frames| - 1], up) + Side(frames[|frames| - 1], up)
  }

  function Queued(p: ThroughputPart, up: bool): seq<Sample> {
    if p.ch.pending.Some? then Side(p.ch.pending.value, up) else []
  }

  ghost predicate Increasing(s: seq<Sample>) {
    forall i, j | 0 <= i < j < |s| :: s[i].at < s[j].at
  }

  /**
   Where a direction of one connection stands in the series `all` of every sample ever taken:
   `start` the first sample sent, `read` the first not covered by frames the client read, `mark` the
   first newer than the watermark, `lost` how many samples the cap dropped.
  */
  datatype Track = Track(start: nat, read: nat, mark: nat, lost: nat)

  ghost predicate SeriesOk(all: seq<Sample>) {
    Increasing(all) && forall i | 0 <= i < |all| :: all[i].at > 0
  }

  /** The watermark lies between sample `mark - 1` and sample `mark`. */
  ghost predicate MarkInv(all: seq<Sample>, mark: nat, watermark: int) {
    && mark <= |all|
    && (forall i | 0 <= i < mark :: all[i].at <= watermark)
    && (forall i | mark <= i < |all| :: all[i].at > watermark)
  }

  /** What is queued is the newest part of what the client has not read, all of it up to the cap. */
  ghost predicate QueueInv(all: seq<Sample>, queued: seq<Sample>, pending: bool, read: nat, mark: nat) {
    && read <= mark <= |all|
    && |queued| <= mark - read
    && queued == all[mark - |queued|..mark]
    && (pending ==> |queued| >= Min(CAP, mark - read))
    && (!pending ==> read == mark)
  }

  /** What was read is in order and from the part read. */
  ghost predicate GotInv(all: seq<Sample>, got: seq<Sample>, start: nat, read: nat) {
    && start <= read <= |all|
    && Increasing(got)
    && forall i | 0 <= i < |got| :: got[i] in all[start..read]
  }

  ghost predicate TrackInv(all: seq<Sample>, p: ThroughputPart, up: bool, t: Track) {
    var got, queued := Concat(p.ch.delivered, up), Queued(p, up);
    && SeriesOk(all)
    && MarkInv(all, t.mark, MarkOf(p, up))
    && QueueInv(all, queued, p.ch.pending.Some?, t.read, t.mark)
    && GotInv(all, got, t.start, t.read)
    // nothing is unaccounted for
    && t.start <= t.read <= t.mark <= |all|
    && |got| + |queued| + t.lost == t.mark - t.start
    && (t.lost == 0 ==> got == all[t.start..t.read])
  }

  datatype ThroughputSystem = ThroughputSystem(
    down: seq<Sample>, up: seq<Sample>, part: ThroughputPart, downTrack: Track, upTrack: Track)

  function SeriesOf(y: ThroughputSystem, up: bool): seq<Sample> {
    if up then y.up else y.down
  }

  function TrackOf(y: ThroughputSystem, up: bool): Track {
    if up then y.upTrack else y.downTrack
  }

  /** Which part of a series a fetch was answered with, whenever that was. */
  datatype Extent = Extent(from: nat, to: nat)

  predicate Within(x: Option<Extent>, all: seq<Sample>) {
    x.Some? ==> x.value.from <= x.value.to <= |all|
  }

  /** A fetch that fails answers with nothing. */
  function Window(all: seq<Sample>, x: Option<Extent>): seq<Sample>
    requires Within(x, all)
  {
    if x.Some? then all[x.value.from..x.value.to] else []
  }

  /** A window still holds everything newer than the watermark, unless nothing was seen so far. */
  predicate Covers(x: Option<Extent>, t: Track) {
    x.Some? && t.mark > 0 ==> x.value.from <= t.mark
  }

  /** A tick may deliver windows it was answered long ago; a connection may open on such windows, too. */
  datatype ThroughputEvent =
    | Measured(sample: Sample, isUp: bool)
    | ThroughputTick(down: Option<Extent>, up: Option<Extent>)
    | ThroughputReceive

  function Dropped(p: ThroughputPart, newer: seq<Sample>, up: bool): nat {
    if p.ch.pending.Some? && |Queued(p, up)| + |newer| > CAP then |Queued(p, up)| + |newer| - CAP else 0
  }

  /** The first window that has samples sets the start. */
  function Begun(t: Track, x: Option<Extent>): Track {
    if t.mark == 0 && x.Some? && x.value.from < x.value.to then Track(x.value.from, x.value.from, x.value.from, 0)
    else t
  }

  function Advance(t: Track, to: nat, newer: seq<Sample>, dropped: nat): Track {
    t.(mark := if newer == [] then t.mark else to, lost := t.lost + dropped)
  }

  function Reached(x: Option<Extent>): nat {
    if x.Some? then x.value.to else 0
  }

  /** The environment's side: sample times increase, windows are of the series and cover. */
  ghost predicate Admissible(y: ThroughputSystem, e: ThroughputEvent) {
    match e
    case Measured(s, up) =>
      var all := SeriesOf(y, up);
      s.at > 0 && s.at > MarkOf(y.part, up) && forall i | 0 <= i < |all| :: all[i].at < s.at
    case ThroughputTick(d, u) =>
      Within(d, y.down) && Within(u, y.up) && Covers(d, y.downTrack) && Covers(u, y.upTrack)
    case ThroughputReceive => true
  }

  ghost function ThroughputStep(y: ThroughputSystem, e: ThroughputEvent): ThroughputSystem
    requires Admissible(y, e)
  {
    match e
    case Measured(s, true) => y.(up := y.up + [s])
    case Measured(s, false) => y.(down := y.down + [s])
    case ThroughputTick(d, u) =>
      var down, up := Window(y.down, d), Window(y.up, u);
      var newDown, newUp := NewSince(down, y.part.downAt), NewSince(up, y.part.upAt);
      var sends := newDown != [] || newUp != [];
      y.(part := TickThroughput(y.part, down, up),
         downTrack := Advance(Begun(y.downTrack, d), Reached(d), newDown,
                              if sends then Dropped(y.part, newDown, false) else 0),
         upTrack := Advance(Begun(y.upTrack, u), Reached(u), newUp,
                            if sends then Dropped(y.part, newUp, true) else 0))
    case ThroughputReceive =>
      y.(part := y.part.(ch := Take(y.part.ch)),
         downTrack := y.downTrack.(read := y.downTrack.mark),
         upTrack := y.upTrack.(read := y.upTrack.mark))
  }

  ghost predicate ThroughputInv(y: ThroughputSystem) {
    && TrackInv(y.down, y.part, false, y.downTrack)
    && TrackInv(y.up, y.part, true, y.upTrack)
  }

  ghost predicate RunsTo(y: ThroughputSystem, es: seq<ThroughputEvent>, z: ThroughputSystem)
    decreases |es|
  {
    if es == [] then z == y
    else Admissible(y, es[0]) && RunsTo(ThroughputStep(y, es[0]), es[1..], z)
  }

  function Opening(x: Option<Extent>): Track {
    if x.Some? && x.value.from < x.value.to then Track(x.value.from, x.value.to, x.value.to, 0) else Track(0, 0, 0, 0)
  }

  /** The state of a connection just opened, with what its fetches had answered or without. */
  function Open(down: seq<Sample>, up: seq<Sample>, d: Option<Extent>, u: Option<Extent>): ThroughputSystem
    requires Within(d, down) && Within(u, up)
  {
    ThroughputSystem(down, up, SubscribeThroughput(Window(down, d), Window(up, u)), Opening(d), Opening(u))
  }

  // ---------------------------------------------------------------- proofs

  lemma {:induction false} NewSinceIs(all: seq<Sample>, k: nat, to: nat, mark: nat, since: int)
    requires k <= to <= |all| && mark <= |all|
    requires forall i | 0 <= i < mark :: all[i].at <= since
    requires forall i | mark <= i < |all| :: all[i].at > since
    ensures NewSince(all[k..to], since)
         == (if to <= mark then [] else if k <= mark then all[mark..to] else all[k..to])
    decreases |all| - k
  {
    if k < to && k < mark {
      assert all[k..to][1..] == all[k + 1..to];
      NewSinceIs(all, k + 1, to, mark, since);
    }
  }

  /** A fresh increment behind what is queued, then the cap. */
  lemma QueueAfterPut(all: seq<Sample>, queued: seq<Sample>, pending: bool, read: nat, mark: nat, to: nat,
                      newer: seq<Sample>)
    requires QueueInv(all, queued, pending, read, mark)
    requires newer == [] || (mark <= to <= |all| && newer == all[mark..to])
    ensures var mark' := if newer == [] then mark else to;
            var after := if pending then Cap(queued + newer) else newer;
            && QueueInv(all, after, true, read, mark')
            && |after| + (if pending && |queued| + |newer| > CAP then |queued| + |newer| - CAP else 0)
               == |queued| + mark' - mark
  {
    var mark' := if newer == [] then mark else to;
    var both := queued + newer;
    assert both == all[mark - |queued|..mark'];
    if !pending {
      assert queued == [];
    } else if |both| > CAP {
      assert both[|both| - CAP..] == all[mark' - CAP..mark'];
    }
  }

  /** What a direction's invariant says beside its watermark. */
  ghost predicate Accounted(all: seq<Sample>, p: ThroughputPart, up: bool, t: Track) {
    var got, queued := Concat(p.ch.delivered, up), Queued(p, up);
    && QueueInv(all, queued, p.ch.pending.Some?, t.read, t.mark)
    && GotInv(all, got, t.start, t.read)
    && t.start <= t.read <= t.mark <= |all|
    && |got| + |queued| + t.lost == t.mark - t.start
    && (t.lost == 0 ==> got == all[t.start..t.read])
  }

  /** One direction across a tick: `newer` is all of the window past the watermark, or nothing. */
  lemma TickKeepsTrack(all: seq<Sample>, p: ThroughputPart, up: bool, t: Track, to: nat, q: ThroughputPart,
                       f: ThroughputPayload)
    requires SeriesOk(all) && Accounted(all, p, up, t)
    requires MarkInv(all, if Side(f, up) == [] then t.mark else to, LastAt(Side(f, up), MarkOf(p, up)))
    requires var newer := Side(f, up);
             && (newer == [] || (t.mark <= to <= |all| && newer == all[t.mark..to]))
             && q.ch == Put(p.ch, f, MergeThroughput) && MarkOf(q, up) == LastAt(newer, MarkOf(p, up))
    ensures TrackInv(all, q, up, Advance(t, to, Side(f, up), Dropped(p, Side(f, up), up)))
  {
    hide QueueInv, GotInv, SeriesOk, MarkInv;
    var newer := Side(f, up);
    QueueAfterPut(all, Queued(p, up), p.ch.pending.Some?, t.read, t.mark, to, newer);
    assert Queued(q, up) == if p.ch.pending.Some? then Cap(Queued(p, up) + newer) else newer;
  }

  /** What is new in a window: its part past the watermark, all of it if nothing was seen so far. */
  lemma NewInWindow(all: seq<Sample>, t: Track, watermark: int, x: Option<Extent>)
    requires SeriesOk(all) && MarkInv(all, t.mark, watermark) && Within(x, all) && Covers(x, t)
    ensures var (newer, b) := (NewSince(Window(all, x), watermark), Begun(t, x));
            if newer == [] then b == t
            else x.Some? && b.mark < x.value.to && newer == all[b.mark..x.value.to]
  {
    if x.Some? {
      if t.mark == 0 && x.value.from < x.value.to {
        assert all[0].at > watermark;
      }
      NewSinceIs(all, x.value.from, x.value.to, t.mark, watermark);
    }
  }

  lemma MarkAfterTick(all: seq<Sample>, mark: nat, to: nat)
    requires SeriesOk(all) && mark < to <= |all|
    ensures MarkInv(all, to, LastAt(all[mark..to], 0))
  {
    var newer := all[mark..to];
    assert newer[|newer| - 1] == all[to - 1];
  }

  lemma EmptyQueue(all: seq<Sample>, pending: bool, k: nat)
    requires k <= |all|
    ensures QueueInv(all, [], pending, k, k) && GotInv(all, [], k, k)
  {
  }

  lemma NothingSeen(all: seq<Sample>, p: ThroughputPart, up: bool, t: Track, x: Option<Extent>)
    requires TrackInv(all, p, up, t) && Within(x, all)
    ensures Accounted(all, p, up, Begun(t, x))
  {
    hide MarkInv, SeriesOk, QueueInv, GotInv, Concat, Queued;
    if t.mark == 0 && x.Some? {
      EmptyQueue(all, p.ch.pending.Some?, x.value.from);
      assert all[x.value.from..x.value.from] == [];
    }
  }

  /** What is new in a window, against where the direction stands once the window has set its start. */
  lemma NewSinceWindow(all: seq<Sample>, p: ThroughputPart, up: bool, t: Track, x: Option<Extent>)
    requires TrackInv(all, p, up, t) && Within(x, all) && Covers(x, t)
    ensures var (newer, b) := (NewSince(Window(all, x), MarkOf(p, up)), Begun(t, x));
            && Accounted(all, p, up, b)
            && (newer == [] || (b.mark <= Reached(x) <= |all| && newer == all[b.mark..Reached(x)]))
            && (newer == [] ==> b == t)
            && MarkInv(all, if newer == [] then b.mark else Reached(x), LastAt(newer, MarkOf(p, up)))
  {
    hide MarkInv, SeriesOk, QueueInv, GotInv, Accounted, NewSince;
    NothingSeen(all, p, up, t, x);
    NewInWindow(all, t, MarkOf(p, up), x);
    var newer := NewSince(Window(all, x), MarkOf(p, up));
    if newer != [] {
      MarkAfterTick(all, Begun(t, x).mark, x.value.to);
    }
  }

  lemma GotAfterRead(all: seq<Sample>, got: seq<Sample>, start: nat, read: nat, queued: seq<Sample>, mark: nat)
    requires SeriesOk(all) && GotInv(all, got, start, read) && QueueInv(all, queued, true, read, mark)
    ensures GotInv(all, got + queued, start, mark)
  {
    var both: seq<Sample> := got + queued;
    forall i, j | 0 <= i < j < |both| ensures both[i].at < both[j].at {
      if i < |got| <= j {
        var k :| 0 <= k < |all[start..read]| && all[start..read][k] == got[i];
        assert got[i] == all[start + k];
        assert both[j] == all[mark - |queued| + (j - |got|)];
      }
    }
    forall i | 0 <= i < |both| ensures both[i] in all[start..mark] {
      if i < |got| {
        var k :| 0 <= k < |all[start..read]| && all[start..read][k] == got[i];
        assert all[start..mark][k] == both[i];
      } else {
        assert all[start..mark][mark - |queued| + (i - |got|) - start] == both[i];
      }
    }
  }

  lemma ReceiveKeepsTrack(all: seq<Sample>, p: ThroughputPart, up: bool, t: Track)
    requires TrackInv(all, p, up, t)
    ensures TrackInv(all, p.(ch := Take(p.ch)), up, t.(read := t.mark))
  {
    hide GotInv, MarkInv, SeriesOk;
    var got, queued := Concat(p.ch.delivered, up), Queued(p, up);
    if p.ch.pending.Some? {
      var ds := Take(p.ch).delivered;
      assert ds[..|ds| - 1] == p.ch.delivered;
      assert Concat(ds, up) == got + queued;
      GotAfterRead(all, got, t.start, t.read, queued, t.mark);
      if t.lost == 0 {
        assert |got| == t.read - t.start && |queued| == t.mark - t.read;
        assert all[t.start..t.read] + all[t.read..t.mark] == all[t.start..t.mark];
      }
    }
  }

  lemma MeasureKeepsTrack(all: seq<Sample>, p: ThroughputPart, up: bool, t: Track, s: Sample)
    requires TrackInv(all, p, up, t)
    requires s.at > 0 && s.at > MarkOf(p, up) && forall i | 0 <= i < |all| :: all[i].at < s.at
    ensures TrackInv(all + [s], p, up, t)
  {
    assert forall i, j | 0 <= i <= j <= |all| :: (all + [s])[i..j] == all[i..j];
    assert all[|all|..] == [];
  }

  lemma StepKeepsThroughput(y: ThroughputSystem, e: ThroughputEvent)
    requires ThroughputInv(y) && Admissible(y, e)
    ensures ThroughputInv(ThroughputStep(y, e))
  {
    hide TrackInv, MarkInv, Accounted, SeriesOk;
    match e
    case Measured(s, up) =>
      MeasureKeepsTrack(SeriesOf(y, up), y.part, up, TrackOf(y, up), s);
    case ThroughputTick(d, u) =>
      NewSinceWindow(y.down, y.part, false, y.downTrack, d);
      NewSinceWindow(y.up, y.part, true, y.upTrack, u);
      SeriesStay(y);
      var q := ThroughputStep(y, e).part;
      var f := ThroughputPayload(NewSince(Window(y.down, d), y.part.downAt), NewSince(Window(y.up, u), y.part.upAt));
      if f.download != [] || f.upload != [] {
        TickKeepsTrack(y.down, y.part, false, Begun(y.downTrack, d), Reached(d), q, f);
        TickKeepsTrack(y.up, y.part, true, Begun(y.upTrack, u), Reached(u), q, f);
      }
    case ThroughputReceive =>
      ReceiveKeepsTrack(y.down, y.part, false, y.downTrack);
      ReceiveKeepsTrack(y.up, y.part, true, y.upTrack);
  }

  lemma SeriesStay(y: ThroughputSystem)
    requires ThroughputInv(y)
    ensures SeriesOk(y.down) && SeriesOk(y.up)
  {
    hide SeriesOk, MarkInv, QueueInv, GotInv;
  }

  lemma OpenKeepsTrack(all: seq<Sample>, x: Option<Extent>, p: ThroughputPart, up: bool)
    requires SeriesOk(all) && Within(x, all)
    requires p.ch.pending.None? && |p.ch.delivered| == 1
    requires Side(p.ch.delivered[0], up) == Window(all, x) && MarkOf(p, up) == LastAt(Window(all, x), 0)
    ensures TrackInv(all, p, up, Opening(x))
  {
    hide SeriesOk, MarkInv, GotInv, QueueInv, Concat, Window;
    ConcatOne(p.ch.delivered, up);
    OpenIsTracked(all, x);
  }

  lemma ConcatOne(frames: seq<ThroughputPayload>, up: bool)
    requires |frames| == 1
    ensures Concat(frames, up) == Side(frames[0], up)
  {
    assert frames[..0] == [];
  }

  lemma OpenIsTracked(all: seq<Sample>, x: Option<Extent>)
    requires SeriesOk(all) && Within(x, all)
    ensures var t := Opening(x);
            && t.start <= t.read == t.mark <= |all| && t.lost == 0 && Window(all, x) == all[t.start..t.read]
            && MarkInv(all, t.mark, LastAt(Window(all, x), 0))
            && QueueInv(all, [], false, t.read, t.mark) && GotInv(all, Window(all, x), t.start, t.read)
  {
    hide SeriesOk, MarkInv, QueueInv, GotInv;
    var t := Opening(x);
    assert Window(all, x) == all[t.start..t.read];
    EmptyQueue(all, false, t.mark);
    SliceIsGot(all, t.start, t.mark);
    if t.start < t.mark {
      MarkAfterTick(all, t.start, t.mark);
    } else {
      NoMark(all);
    }
  }

  lemma NoMark(all: seq<Sample>)
    requires SeriesOk(all)
    ensures MarkInv(all, 0, 0)
  {
  }

  lemma SliceIsGot(all: seq<Sample>, a: nat, b: nat)
    requires SeriesOk(all) && a <= b <= |all|
    ensures GotInv(all, all[a..b], a, b)
  {
  }

  lemma OpenKeepsThroughput(down: seq<Sample>, up: seq<Sample>, d: Option<Extent>, u: Option<Extent>)
    requires Within(d, down) && Within(u, up) && SeriesOk(down) && SeriesOk(up)
    ensures ThroughputInv(Open(down, up, d, u))
  {
    hide TrackInv, SeriesOk;
    var y := Open(down, up, d, u);
    OpenKeepsTrack(down, d, y.part, false);
    OpenKeepsTrack(up, u, y.part, true);
  }

  lemma {:induction false} RunKeepsThroughput(y: ThroughputSystem, es: seq<ThroughputEvent>, z: ThroughputSystem)
    requires ThroughputInv(y) && RunsTo(y, es, z)
    ensures ThroughputInv(z)
    decreases |es|
  {
    hide ThroughputInv, ThroughputStep, Admissible;
    if es != [] {
      StepKeepsThroughput(y, es[0]);
      RunKeepsThroughput(ThroughputStep(y, es[0]), es[1..], z);
    }
  }

  /**
   Exactly once, in either direction of every run, however old the windows its ticks deliver. What the
   client read plus what is queued is in order and free of duplicates; together with the samples the
   cap dropped it accounts for every sample from the first window's on up to the watermark; without a
   drop it is every one of them.
  */
  lemma ExactlyOnce(y: ThroughputSystem, es: seq<ThroughputEvent>, z: ThroughputSystem, up: bool)
    requires ThroughputInv(y) && RunsTo(y, es, z)
    ensures var got, t, all := Concat(Frames(z.part.ch), up), TrackOf(z, up), SeriesOf(z, up);
            && t.start <= t.mark <= |all|
            && Increasing(got)
            && (forall i | 0 <= i < |got| :: got[i] in all[t.start..t.mark])
            && |got| + t.lost == t.mark - t.start
            && (t.lost == 0 ==> got == all[t.start..t.mark])
  {
    RunKeepsThroughput(y, es, z);
    var all, t := SeriesOf(z, up), TrackOf(z, up);
    ReceiveKeepsTrack(all, z.part, up, t);
    var ch := Take(z.part.ch);
    TakeKeepsFrames(z.part.ch);
    assert Frames(ch) == ch.delivered;
  }

  /** Only the oldest unread samples are ever missing: up to 48 unread ones, none is. */
  lemma OnlyOldestUnreadLost(y: ThroughputSystem, es: seq<ThroughputEvent>, z: ThroughputSystem, up: bool)
    requires ThroughputInv(y) && RunsTo(y, es, z) && z.part.ch.pending.Some?
    ensures var queued, t, all := Queued(z.part, up), TrackOf(z, up), SeriesOf(z, up);
            && |queued| <= t.mark - t.read <= t.mark <= |all|
            && queued == all[t.mark - |queued|..t.mark]
            && (t.mark - t.read <= 48 ==> queued == all[t.read..t.mark])
            && (t.mark - t.read > 48 ==> |queued| >= 48)
  {
    hide SeriesOk, MarkInv, GotInv, QueueInv, RunsTo;
    RunKeepsThroughput(y, es, z);
    QueueIsNewest(SeriesOf(z, up), Queued(z.part, up), TrackOf(z, up).read, TrackOf(z, up).mark);
  }

  lemma QueueIsNewest(all: seq<Sample>, queued: seq<Sample>, read: nat, mark: nat)
    requires QueueInv(all, queued, true, read, mark)
    ensures |queued| <= mark - read <= mark <= |all|
    ensures queued == all[mark - |queued|..mark]
    ensures mark - read <= 48 ==> queued == all[read..mark]
    ensures mark - read > 48 ==> |queued| >= 48
  {
  }

  /** A frame that displaces another holds the newest 48 of what both would have told, or all if they are fewer. */
  lemma DisplacingFrameIsCapped(p: ThroughputPart, down: seq<Sample>, up: seq<Sample>, isUp: bool)
    requires p.ch.pending.Some? && TickThroughput(p, down, up) != p
    ensures var both := Queued(p, isUp) + NewSince(if isUp then up else down, MarkOf(p, isUp));
            Queued(TickThroughput(p, down, up), isUp) == both[if |both| <= 48 then 0 else |both| - 48..]
  {
  }
}
