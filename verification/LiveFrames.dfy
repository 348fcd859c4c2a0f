/**
 `event: live`: whole job objects, delta-encoded per subscriber against what that subscriber was
 last sent, plus the down/up/detail snapshot.
*/
module LiveFrames {
  import opened Basics
  import opened KeyedLists
  import opened Mailboxes
  import opened AlbumLive

  /** The fields toJobDTO copies from the job row unchanged. */
  datatype Header = Header(title: string, artist: string, status: string, peer: string, state: string, retries: int)

  datatype JobView = JobView(
    id: int, header: Header, attempt: Option<Candidate>, albumBytesDone: int, albumBytesRemaining: int)

  datatype JobBody = JobBody(
    header: Header, speed: int, queuePosition: nat, etaSeconds: int, bytesDone: int, framedAt: int)

  datatype Detail = Detail(job: Item<JobBody>, attempts: seq<seq<string>>)

  datatype Scalars = Scalars(down: int, up: int, detail: Option<Detail>)

  datatype LivePayload = LivePayload(jobs: seq<Item<JobBody>>, scalars: Scalars)

  const SECOND := 1_000_000_000

  /** The wire format of a time has no fractional seconds. */
  function FormatTime(t: int): int {
    t / SECOND
  }

  function ParseTime(s: int): int {
    s * SECOND
  }

  lemma FormatParse(s: int)
    ensures FormatTime(ParseTime(s)) == s
  {
  }

  /** toJobDTO, less the job's id. */
  function ToJobBody(view: JobView, idx: LiveIndex, persisted: map<int, map<string, int>>, framedAt: int): JobBody {
    match view.attempt
    case None => JobBody(view.header, 0, 0, 0, view.albumBytesDone, FormatTime(framedAt))
    case Some(c) =>
      var a := Aggregate(c.username, c.files, idx);
      JobBody(view.header, a.speed, if a.queuePosition.Some? then a.queuePosition.value else 0,
              EtaSeconds(view.albumBytesRemaining, a.speedAvg),
              JobBytesDone(c.username, c.files, c.id, view.albumBytesDone, idx, persisted),
              FormatTime(framedAt))
  }

  /** What a job's object says, in terms of its view, the live entries and the persisted bytes. */
  ghost predicate Tells(b: JobBody, v: JobView, idx: LiveIndex, persisted: map<int, map<string, int>>) {
    && b.header == v.header
    && match v.attempt
       case None => b.speed == 0 && b.queuePosition == 0 && b.etaSeconds == 0 && b.bytesDone == v.albumBytesDone
       case Some(c) =>
         && b.speed == Total(c.files, map f | f in c.files ::
              if InFlight(c.username, f, idx) then idx.byFallback[(c.username, f)].speed else 0)
         && b.etaSeconds == EtaSeconds(v.albumBytesRemaining, Total(c.files, map f | f in c.files ::
              if InFlight(c.username, f, idx) then idx.byFallback[(c.username, f)].speedAverage else 0))
         && (b.queuePosition == 0 <==> forall f | f in c.files && InFlight(c.username, f, idx) ::
               idx.byFallback[(c.username, f)].queuePosition == 0)
         && (b.queuePosition > 0 ==>
               && (exists f :: f in c.files && InFlight(c.username, f, idx)
                               && idx.byFallback[(c.username, f)].queuePosition == b.queuePosition)
               && (forall f | f in c.files && InFlight(c.username, f, idx) ::
                     var p := idx.byFallback[(c.username, f)].queuePosition; p == 0 || b.queuePosition <= p))
         && b.bytesDone
            == if (exists f | f in c.files :: (c.username, f) in idx.byFallback) && c.id in persisted
               then Total(c.files, map f | f in c.files ::
                      if (c.username, f) in idx.byFallback then idx.byFallback[(c.username, f)].bytesDone
                      else if f in persisted[c.id] then persisted[c.id][f] else 0)
               else v.albumBytesDone
  }

  /**
   The live overlay of a job's object: bytes live where matched and persisted elsewhere, if something
   is matched and the persisted bytes are held; speed, queue position and time left from the files
   queued or in progress.
  */
  lemma BodyTells(v: JobView, idx: LiveIndex, persisted: map<int, map<string, int>>, framedAt: int)
    ensures var b := ToJobBody(v, idx, persisted, framedAt);
            Tells(b, v, idx, persisted) && b.framedAt == framedAt / 1_000_000_000
  {
    if v.attempt.Some? {
      var c := v.attempt.value;
      AggregateIs(c.username, c.files, idx);
      QueuePositionIsLeast(c.username, c.files, idx);
      assert Aggregate(c.username, c.files, idx).queuePosition.Some? ==>
        Aggregate(c.username, c.files, idx).queuePosition.value > 0;
      JobBytesDoneIs(c.username, c.files, c.id, v.albumBytesDone, idx, persisted);
      hide Aggregate, Total, JobBytesDone, LiveMatched, EtaSeconds;
      forall f ensures InFlight(c.username, f, idx) <==> Working(c.username, f, idx).Some? {}
    }
  }

  predicate ViewLive(view: JobView, idx: LiveIndex) {
    view.attempt.Some? && LiveMatched(view.attempt.value.username, view.attempt.value.files, idx)
  }

  /** What one tick reads: the caches and live data, taken before the hub's lock. */
  datatype LiveInput = LiveInput(
    views: map<int, JobView>, idx: LiveIndex, persisted: map<int, map<string, int>>, scalars: Scalars, now: int)

  /** A job's object this tick: only a live-matched job gets a fresh frame time. */
  function NextBody(lastJobs: map<int, JobBody>, id: int, view: JobView, t: LiveInput): JobBody {
    var framedAt := if !ViewLive(view, t.idx) && id in lastJobs then ParseTime(lastJobs[id].framedAt) else t.now;
    ToJobBody(view, t.idx, t.persisted, framedAt)
  }

  /** Some file of the job's current candidate has a live entry, in whatever state. */
  ghost predicate SomeLive(v: JobView, idx: LiveIndex) {
    v.attempt.Some? && exists f :: f in v.attempt.value.files && (v.attempt.value.username, f) in idx.byFallback
  }

  lemma NextBodyTells(lastJobs: map<int, JobBody>, id: int, v: JobView, t: LiveInput)
    ensures var b := NextBody(lastJobs, id, v, t);
            && Tells(b, v, t.idx, t.persisted)
            && b.framedAt == if !SomeLive(v, t.idx) && id in lastJobs then lastJobs[id].framedAt
                             else t.now / 1_000_000_000
  {
    hide Tells, ToJobBody;
    BodyTells(v, t.idx, t.persisted, t.now);
    if id in lastJobs {
      BodyTells(v, t.idx, t.persisted, ParseTime(lastJobs[id].framedAt));
    }
    if ViewLive(v, t.idx) {
      var i :| 0 <= i < |v.attempt.value.files|
               && (v.attempt.value.username, v.attempt.value.files[i]) in t.idx.byFallback;
      assert v.attempt.value.files[i] in v.attempt.value.files;
    }
    if SomeLive(v, t.idx) {
      var f :| f in v.attempt.value.files && (v.attempt.value.username, f) in t.idx.byFallback;
      var i :| 0 <= i < |v.attempt.value.files| && v.attempt.value.files[i] == f;
      assert ViewLive(v, t.idx);
    }
  }

  function NextLast(jobIds: set<int>, lastJobs: map<int, JobBody>, t: LiveInput): map<int, JobBody> {
    map id | id in jobIds && id in t.views :: NextBody(lastJobs, id, t.views[id], t)
  }

  function Changed(prev: map<int, JobBody>, next: map<int, JobBody>): map<int, JobBody> {
    map id | id in next && !(id in prev && prev[id] == next[id]) :: next[id]
  }

  lemma VisitId(seen: set<int>, id: int, lastJobs: map<int, JobBody>, t: LiveInput)
    requires id !in seen
    ensures NextLast(seen + {id}, lastJobs, t)
         == if id in t.views then NextLast(seen, lastJobs, t)[id := NextBody(lastJobs, id, t.views[id], t)]
            else NextLast(seen, lastJobs, t)
  {
  }

  lemma ChangedExtends(prev: map<int, JobBody>, next: map<int, JobBody>, id: int, body: JobBody)
    requires id !in next
    ensures Changed(prev, next[id := body])
         == if id in prev && prev[id] == body then Changed(prev, next) else Changed(prev, next)[id := body]
  {
  }

  /** buildJobsDelta: ranges over the scope in any order, then sorts. */
  method BuildJobsDelta(jobIds: set<int>, lastJobs: map<int, JobBody>, t: LiveInput)
    returns (nextLast: map<int, JobBody>, delta: seq<Item<JobBody>>)
    requires forall id | id in t.views :: t.views[id].id == id
    ensures nextLast == NextLast(jobIds, lastJobs, t)
    ensures delta == Listing(Changed(lastJobs, nextLast))
  {
    nextLast := map[];
    var changed: map<int, JobBody> := map[];
    var rest := jobIds;
    ghost var seen: set<int> := {};
    while rest != {}
      invariant seen + rest == jobIds && seen !! rest
      invariant nextLast == NextLast(seen, lastJobs, t)
      invariant changed == Changed(lastJobs, nextLast)
      decreases |rest|
    {
      var id := AnyOf(rest);
      rest := rest - {id};
      VisitId(seen, id, lastJobs, t);
      seen := seen + {id};
      if id in t.views {
        var view := t.views[id];
        var framedAt := t.now;
        if !ViewLive(view, t.idx) && id in lastJobs {
          framedAt := ParseTime(lastJobs[id].framedAt);
        }
        var body := ToJobBody(view, t.idx, t.persisted, framedAt);
        ChangedExtends(lastJobs, nextLast, id, body);
        nextLast := nextLast[id := body];
        if !(id in lastJobs && lastJobs[id] == body) {
          changed := changed[view.id := body];
        }
      }
    }
    assert seen == jobIds;
    delta := SortEntries(changed);
    AscendingUnique(delta, Listing(changed));
  }

  /** sendLatest's rule for a displaced frame: job deltas are united, the snapshot fields superseded. */
  function MergeLive(older: LivePayload, newer: LivePayload): LivePayload {
    LivePayload(Merge(older.jobs, newer.jobs), newer.scalars)
  }

  /** One subscriber's `live` state: what the hub believes it told the client, and the mailbox. */
  datatype LivePart = LivePart(jobIds: set<int>, last: Scalars, lastJobs: map<int, JobBody>, ch: Chan<LivePayload>)

  ghost function SubscribeLive(jobIds: set<int>, t: LiveInput): LivePart {
    var next := NextLast(jobIds, map[], t);
    LivePart(jobIds, t.scalars, next, Chan([LivePayload(Listing(Changed(map[], next)), t.scalars)], None))
  }

  ghost function DeltaOf(p: LivePart, t: LiveInput): map<int, JobBody> {
    Changed(p.lastJobs, NextLast(p.jobIds, p.lastJobs, t))
  }

  ghost function TickLive(p: LivePart, t: LiveInput): LivePart {
    var next := NextLast(p.jobIds, p.lastJobs, t);
    var delta := Listing(Changed(p.lastJobs, next));
    if delta != [] || p.last != t.scalars then
      LivePart(p.jobIds, t.scalars, next, Put(p.ch, LivePayload(delta, t.scalars), MergeLive))
    else
      p.(lastJobs := next)
  }

  /** The client's job map after these frames. */
  function ClientJobs(frames: seq<LivePayload>): map<int, JobBody> {
    if frames == [] then map[]
    else ClientJobs(frames[..|frames| - 1]) + ToMap(frames[|frames| - 1].jobs)
  }

  /** The client's map overridden by the queued delta. */
  ghost function Told(p: LivePart): map<int, JobBody> {
    ClientJobs(Frames(p.ch))
  }

  ghost predicate LiveInv(p: LivePart) {
    && p.ch.delivered != []
    && (p.ch.pending.Some? ==> Ascending(p.ch.pending.value.jobs))
    && (forall id | id in p.lastJobs :: id in Told(p) && Told(p)[id] == p.lastJobs[id])
    && Frames(p.ch)[|Frames(p.ch)| - 1].scalars == p.last
  }

  /** Displacing a frame loses nothing of it: the union tells the client what both frames would have. */
  lemma PutTellsBoth(c: Chan<LivePayload>, f: LivePayload)
    requires c.pending.Some? ==> Ascending(c.pending.value.jobs)
    requires Ascending(f.jobs)
    ensures ClientJobs(Frames(Put(c, f, MergeLive))) == ClientJobs(Frames(c)) + ToMap(f.jobs)
  {
    var before, after := Frames(c), Frames(Put(c, f, MergeLive));
    assert after[..|after| - 1] == c.delivered;
    if c.pending.Some? {
      assert before[..|before| - 1] == c.delivered;
      MergeIsUnion(c.pending.value.jobs, f.jobs);
      UnionAssociates(ClientJobs(c.delivered), ToMap(c.pending.value.jobs), ToMap(f.jobs));
    } else {
      assert before == c.delivered;
    }
  }

  lemma SubscribeKeepsLive(jobIds: set<int>, t: LiveInput)
    ensures LiveInv(SubscribeLive(jobIds, t))
  {
    var p := SubscribeLive(jobIds, t);
    assert Frames(p.ch) == p.ch.delivered;
    var f := p.ch.delivered[0];
    assert [f][..0] == [] && ClientJobs([]) == map[];
    assert ClientJobs([f]) == map[] + ToMap(f.jobs);
  }

  lemma TickKeepsLive(p: LivePart, t: LiveInput)
    requires LiveInv(p)
    ensures LiveInv(TickLive(p, t))
  {
    var q := TickLive(p, t);
    var delta := Listing(DeltaOf(p, t));
    if delta != [] || p.last != t.scalars {
      var f := LivePayload(delta, t.scalars);
      PutTellsBoth(p.ch, f);
      if p.ch.pending.Some? {
        MergeIsUnion(p.ch.pending.value.jobs, delta);
      }
    } else {
      assert DeltaOf(p, t) == ToMap(delta) == map[];
      forall id | id in q.lastJobs ensures id in Told(q) && Told(q)[id] == q.lastJobs[id] {
        assert id !in DeltaOf(p, t);
      }
    }
  }

  datatype LiveEvent = LiveTick(input: LiveInput) | LiveReceive

  ghost function LiveStep(p: LivePart, e: LiveEvent): LivePart {
    match e
    case LiveTick(t) => TickLive(p, t)
    case LiveReceive => p.(ch := Take(p.ch))
  }

  ghost function LiveRun(p: LivePart, es: seq<LiveEvent>): LivePart {
    if es == [] then p else LiveStep(LiveRun(p, es[..|es| - 1]), es[|es| - 1])
  }

  /**
   Losslessness over every interleaving of ticks and reads: the client's map overridden by the
   queued frame holds exactly what the hub believes it told the client, job by job, and the last
   down/up/detail sent or queued is the one the hub diffs against.
  */
  lemma {:induction false} LiveLossless(jobIds: set<int>, t0: LiveInput, es: seq<LiveEvent>)
    ensures LiveInv(LiveRun(SubscribeLive(jobIds, t0), es))
  {
    if es == [] {
      SubscribeKeepsLive(jobIds, t0);
    } else {
      var p := LiveRun(SubscribeLive(jobIds, t0), es[..|es| - 1]);
      LiveLossless(jobIds, t0, es[..|es| - 1]);
      match es[|es| - 1]
      case LiveTick(t) => TickKeepsLive(p, t);
      case LiveReceive => TakeKeepsFrames(p.ch);
    }
  }

  /**
   So right after any tick a client that drains its mailbox shows, for every job in its scope the
   hub has a view of, the object built from that very tick's data, and that tick's speeds and detail.
   The frame time is that tick's too, unless nothing of the job is live and it had one before.
  */
  lemma TickThenDrainIsCurrent(jobIds: set<int>, t0: LiveInput, es: seq<LiveEvent>, t: LiveInput)
    ensures var p := LiveRun(SubscribeLive(jobIds, t0), es);
            var q := LiveStep(LiveStep(p, LiveTick(t)), LiveReceive);
            && q.ch.pending.None?
            && (forall id | id in jobIds && id in t.views ::
                 id in ClientJobs(q.ch.delivered)
                 && var b := ClientJobs(q.ch.delivered)[id];
                    && b == NextBody(p.lastJobs, id, t.views[id], t)
                    && Tells(b, t.views[id], t.idx, t.persisted)
                    && b.framedAt == if !SomeLive(t.views[id], t.idx) && id in p.lastJobs then p.lastJobs[id].framedAt
                                     else t.now / 1_000_000_000)
            && q.ch.delivered != [] && q.ch.delivered[|q.ch.delivered| - 1].scalars == t.scalars
  {
    hide Tells, ToJobBody, SomeLive, NextBody;
    var p := LiveRun(SubscribeLive(jobIds, t0), es);
    LiveLossless(jobIds, t0, es);
    ScopeIsFixed(jobIds, t0, es);
    TickKeepsLive(p, t);
    TakeKeepsFrames(TickLive(p, t).ch);
    var q := LiveStep(TickLive(p, t), LiveReceive);
    assert Frames(q.ch) == q.ch.delivered;
    hide TickLive, LiveRun, LiveInv;
    forall id | id in jobIds && id in t.views
      ensures Tells(NextBody(p.lastJobs, id, t.views[id], t), t.views[id], t.idx, t.persisted)
      ensures NextBody(p.lastJobs, id, t.views[id], t).framedAt
           == if !SomeLive(t.views[id], t.idx) && id in p.lastJobs then p.lastJobs[id].framedAt
              else t.now / 1_000_000_000
    {
      NextBodyTells(p.lastJobs, id, t.views[id], t);
    }
  }

  lemma {:induction false} ScopeIsFixed(jobIds: set<int>, t0: LiveInput, es: seq<LiveEvent>)
    ensures LiveRun(SubscribeLive(jobIds, t0), es).jobIds == jobIds
  {
    if es != [] {
      ScopeIsFixed(jobIds, t0, es[..|es| - 1]);
    }
  }

  /** A tick in which job `id` still has view `v` and no live transfer of its own. */
  ghost predicate IdleIn(id: int, v: JobView, t: LiveInput) {
    id in t.views && t.views[id] == v && !ViewLive(v, t.idx)
  }

  /** An idle job's object depends on nothing but its view and its frame time. */
  lemma IdleBody(v: JobView, t: LiveInput, framedAt: int)
    requires !ViewLive(v, t.idx)
    ensures ToJobBody(v, t.idx, t.persisted, framedAt)
         == JobBody(v.header, 0, 0, 0, v.albumBytesDone, FormatTime(framedAt))
  {
    if v.attempt.Some? {
      AggregateWithoutMatch(v.attempt.value.username, v.attempt.value.files, t.idx);
    }
  }

  /**
   An idle job whose view does not change is sent at most once: from the second such tick on it is
   in no delta, whatever the clock, the other transfers and the reader do.
  */
  lemma {:induction false} IdleJobFallsSilent(p: LivePart, id: int, v: JobView, es: seq<LiveEvent>, t: LiveInput)
    requires id in p.jobIds
    requires forall e | e in es && e.LiveTick? :: IdleIn(id, v, e.input)
    requires exists e :: e in es && e.LiveTick?
    requires IdleIn(id, v, t)
    ensures var q := LiveRun(p, es);
            && q.jobIds == p.jobIds
            && id in q.lastJobs
            && q.lastJobs[id] == JobBody(v.header, 0, 0, 0, v.albumBytesDone, q.lastJobs[id].framedAt)
            && id !in DeltaOf(q, t)
  {
    assert es != [];
    var init, e := es[..|es| - 1], es[|es| - 1];
    assert es == init + [e];
    var q := LiveRun(p, es);
    if exists d :: d in init && d.LiveTick? {
      IdleJobFallsSilent(p, id, v, init, if e.LiveTick? then e.input else t);
    } else {
      OnlyReceives(p, init);
      assert e.LiveTick?;
    }
    if e.LiveTick? {
      var prev := LiveRun(p, init);
      var framedAt := if id in prev.lastJobs then ParseTime(prev.lastJobs[id].framedAt) else e.input.now;
      IdleBody(v, e.input, framedAt);
      assert q.lastJobs == NextLast(prev.jobIds, prev.lastJobs, e.input);
    }
    IdleBody(v, t, ParseTime(q.lastJobs[id].framedAt));
    FormatParse(q.lastJobs[id].framedAt);
  }

  lemma {:induction false} OnlyReceives(p: LivePart, es: seq<LiveEvent>)
    requires forall e | e in es :: !e.LiveTick?
    ensures LiveRun(p, es).jobIds == p.jobIds && LiveRun(p, es).lastJobs == p.lastJobs
  {
    if es != [] {
      OnlyReceives(p, es[..|es| - 1]);
      assert es[|es| - 1] in es;
    }
  }

  /** A live-matched job is resent whenever the displayed second moved, even if nothing else did. */
  lemma LiveJobIsReframed(p: LivePart, id: int, t: LiveInput)
    requires id in p.jobIds && id in t.views && ViewLive(t.views[id], t.idx)
    requires id in p.lastJobs ==> p.lastJobs[id].framedAt != FormatTime(t.now)
    ensures id in DeltaOf(p, t) && DeltaOf(p, t)[id].framedAt == FormatTime(t.now)
  {
    assert NextLast(p.jobIds, p.lastJobs, t)[id].framedAt == FormatTime(t.now);
  }
}
