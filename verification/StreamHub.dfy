/**
 The hub as the program holds it: subscribers with their cursors and mailboxes, the registration map,
 and the contexts of the broadcaster goroutines it starts and cancels.
*/
module StreamHub {
  import opened Basics
  import opened KeyedLists
  import opened Mailboxes
  import opened LiveFrames
  import opened Throughput
  import opened Invalidation
  import opened SearchStream
  import AlbumLive
  import SearchSessions

  /** What one tick captures before it takes the hub's lock, and the poll it makes while holding it. */
  datatype TickData = TickData(
    views: map<int, JobView>, idx: AlbumLive.LiveIndex, persisted: map<int, map<string, int>>,
    down: int, up: int, details: map<int, Detail>, now: int,
    downWindow: seq<Sample>, upWindow: seq<Sample>, jobsGen: nat, uploadsGen: nat,
    poll: (nat, string, nat) -> Option<SearchSessions.SearchDelta>)

  /** Everything one connection's frames depend on. */
  datatype Conn = Conn(
    jobId: int, wantThroughput: bool, searchId: string,
    live: LivePart, notices: InvalidatePart, throughput: ThroughputPart, search: SearchPart)

  function LiveInputFor(jobId: int, t: TickData): LiveInput {
    LiveInput(t.views, t.idx, t.persisted,
              Scalars(t.down, t.up, if jobId > 0 && jobId in t.details then Some(t.details[jobId]) else None), t.now)
  }

  /** Only a connection that names a job gets a detail, and that job's. */
  lemma DetailIsOwn(jobId: int, t: TickData, d: Detail)
    ensures LiveInputFor(jobId, t).scalars.detail == Some(d) <==>
            jobId >= 1 && jobId in t.details && t.details[jobId] == d
  {
  }

  ghost function TickConn(c: Conn, id: nat, t: TickData, interval: int): Conn {
    Conn(c.jobId, c.wantThroughput, c.searchId,
         TickLive(c.live, LiveInputFor(c.jobId, t)),
         TickInvalidate(c.notices, Snapshot(t.jobsGen, t.uploadsGen, t.now), interval),
         if c.wantThroughput then TickThroughput(c.throughput, t.downWindow, t.upWindow) else c.throughput,
         if c.searchId != "" then TickSearch(c.search, t.poll(id, c.searchId, c.search.cursor)) else c.search)
  }

  /** Which mailboxes the connection's reader emptied. */
  datatype Reads = Reads(live: bool, notices: bool, throughput: bool, search: bool)

  function Received(c: Conn, r: Reads): Conn {
    c.(live := if r.live then c.live.(ch := Take(c.live.ch)) else c.live,
       notices := if r.notices then c.notices.(ch := Take(c.notices.ch)) else c.notices,
       throughput := if r.throughput then c.throughput.(ch := Take(c.throughput.ch)) else c.throughput,
       search := if r.search then c.search.(ch := Take(c.search.ch)) else c.search)
  }

  /** A connection as subscribe sets it up; the first frames are written before the reader starts. */
  ghost function OpenConn(jobId: int, jobIds: set<int>, wantThroughput: bool, searchId: string, id: nat, t: TickData)
    : Conn
  {
    Conn(jobId, wantThroughput, searchId,
         SubscribeLive(jobIds, LiveInputFor(jobId, t)),
         InvalidatePart(t.jobsGen, t.uploadsGen, t.now, Chan([], None)),
         if wantThroughput then SubscribeThroughput(t.downWindow, t.upWindow)
         else ThroughputPart(LastAt(t.downWindow, 0), LastAt(t.upWindow, 0), Chan([], None)),
         if searchId != "" then SubscribeSearch(t.poll(id, searchId, 0))
         else SearchPart(0, false, false, false, Chan([], None)))
  }

  ghost function TickAll(cs: map<nat, Conn>, raced: map<nat, Reads>, t: TickData, interval: int): map<nat, Conn>
    requires raced.Keys == cs.Keys
  {
    map id | id in cs :: TickConn(Received(cs[id], raced[id]), id, t, interval)
  }

  class Subscriber {
    const jobId: int
    const jobIds: set<int>
    const wantThroughput: bool
    const searchId: string
    var last: Scalars
    var lastJobs: map<int, JobBody>
    var downAt: int
    var upAt: int
    var seenJobs: nat
    var seenUploads: nat
    var lastInvalidateAt: int
    var searchSeq: nat
    var searchDone: bool
    var searchTruncated: bool
    var searchExpiredSent: bool
    const live: Mailbox<LivePayload>
    const throughput: Mailbox<ThroughputPayload>
    const notices: Mailbox<InvalidatePayload>
    const search: Mailbox<SearchPayload>

    ghost const Repr: set<object> := {this, live, throughput, notices, search}

    constructor (jobId: int, jobIds: set<int>, wantThroughput: bool, searchId: string, ghost id: nat, t: TickData,
                 answer: Option<SearchSessions.SearchDelta>)
      requires forall id | id in t.views :: t.views[id].id == id
      requires answer == t.poll(id, searchId, 0)
      ensures Valid() && fresh(Repr)
      ensures State() == OpenConn(jobId, jobIds, wantThroughput, searchId, id, t)
    {
      var input := LiveInputFor(jobId, t);
      var nextLast, delta := BuildJobsDelta(jobIds, map[], input);
      this.jobId, this.jobIds, this.wantThroughput, this.searchId := jobId, jobIds, wantThroughput, searchId;
      last, lastJobs := input.scalars, nextLast;
      seenJobs, seenUploads, lastInvalidateAt := t.jobsGen, t.uploadsGen, t.now;
      downAt := LastAt(t.downWindow, 0);
      upAt := LastAt(t.upWindow, 0);
      live := new Mailbox([LivePayload(delta, input.scalars)]);
      throughput := new Mailbox(if wantThroughput then [ThroughputPayload(t.downWindow, t.upWindow)] else []);
      notices := new Mailbox([]);
      searchSeq, searchDone, searchTruncated, searchExpiredSent := 0, false, false, false;
      if searchId == "" {
        search := new Mailbox([]);
      } else if answer.Some? {
        var d := answer.value;
        search := new Mailbox([PayloadOf(d)]);
        searchSeq, searchDone, searchTruncated := d.seqNo, d.done, d.truncated;
      } else {
        search := new Mailbox([EXPIRED_NOTICE]);
        searchExpiredSent := true;
      }
    }

    ghost predicate Valid() {
      && (live as object) !in {this, throughput, notices, search}
      && (throughput as object) !in {this, notices, search}
      && (notices as object) !in {this, search}
      && (search as object) != this
    }

    ghost function LiveOf(): LivePart reads this, live {
      LivePart(jobIds, last, lastJobs, live.View())
    }

    ghost function NoticesOf(): InvalidatePart reads this, notices {
      InvalidatePart(seenJobs, seenUploads, lastInvalidateAt, notices.View())
    }

    ghost function ThroughputOf(): ThroughputPart reads this, throughput {
      ThroughputPart(downAt, upAt, throughput.View())
    }

    ghost function SearchOf(): SearchPart reads this, search {
      SearchPart(searchSeq, searchDone, searchTruncated, searchExpiredSent, search.View())
    }

    ghost function State(): Conn reads Repr {
      Conn(jobId, wantThroughput, searchId, LiveOf(), NoticesOf(), ThroughputOf(), SearchOf())
    }

    method TickLiveFrame(t: LiveInput) returns (ghost raced: bool)
      requires Valid() && forall id | id in t.views :: t.views[id].id == id
      modifies `last, `lastJobs, live
      ensures LiveOf() == TickLive(if raced then old(LiveOf()).(ch := Take(old(LiveOf()).ch)) else old(LiveOf()), t)
    {
      raced := false;
      var nextLast, delta := BuildJobsDelta(jobIds, lastJobs, t);
      lastJobs := nextLast;
      if delta != [] || last != t.scalars {
        last := t.scalars;
        var sent;
        sent, raced := live.SendLatest(LivePayload(delta, t.scalars), MergeLive);
      }
    }

    method TickNotice(t: Snapshot, interval: int) returns (ghost raced: bool)
      modifies `seenJobs, `seenUploads, `lastInvalidateAt, notices
      ensures NoticesOf()
           == TickInvalidate(if raced then old(NoticesOf()).(ch := Take(old(NoticesOf()).ch)) else old(NoticesOf()),
                             t, interval)
    {
      raced := false;
      var jobsChanged, uploadsChanged := t.jobs != seenJobs, t.uploads != seenUploads;
      if (jobsChanged || uploadsChanged) && t.now - lastInvalidateAt >= interval {
        var sent;
        sent, raced := notices.SendLatest(
          InvalidatePayload(t.jobs + t.uploads, jobsChanged, uploadsChanged), MergeInvalidate);
        seenJobs := t.jobs;
        seenUploads := t.uploads;
        lastInvalidateAt := t.now;
      }
    }

    method TickSamples(down: seq<Sample>, up: seq<Sample>) returns (ghost raced: bool)
      modifies `downAt, `upAt, throughput
      ensures ThroughputOf()
           == TickThroughput(if raced then old(ThroughputOf()).(ch := Take(old(ThroughputOf()).ch))
                             else old(ThroughputOf()), down, up)
    {
      raced := false;
      var newDown := NewThroughputSince(down, downAt);
      var newUp := NewThroughputSince(up, upAt);
      if |newDown| > 0 || |newUp| > 0 {
        var sent;
        sent, raced := throughput.SendLatest(ThroughputPayload(newDown, newUp), MergeThroughput);
        if |newDown| > 0 {
          downAt := newDown[|newDown| - 1].at;
        }
        if |newUp| > 0 {
          upAt := newUp[|newUp| - 1].at;
        }
      }
    }

    method TickResults(answer: Option<SearchSessions.SearchDelta>) returns (ghost raced: bool)
      modifies `searchSeq, `searchDone, `searchTruncated, `searchExpiredSent, search
      ensures SearchOf()
           == TickSearch(if raced then old(SearchOf()).(ch := Take(old(SearchOf()).ch)) else old(SearchOf()), answer)
    {
      raced := false;
      var sent;
      if answer.None? {
        if !searchExpiredSent {
          sent, raced := search.SendLatest(EXPIRED_NOTICE, MergeSearch);
          searchExpiredSent := true;
        }
        return;
      }
      var d := answer.value;
      if |d.groups| == 0 && d.done == searchDone && d.truncated == searchTruncated {
        return;
      }
      searchSeq, searchDone, searchTruncated := d.seqNo, d.done, d.truncated;
      sent, raced := search.SendLatest(PayloadOf(d), MergeSearch);
    }

    /** One subscriber's part of a tick. */
    method Tick(id: nat, t: TickData, interval: int) returns (ghost r: Reads)
      requires Valid() && forall id | id in t.views :: t.views[id].id == id
      modifies Repr
      ensures State() == TickConn(Received(old(State()), r), id, t, interval)
    {
      hide TickLive, TickInvalidate, TickThroughput, TickSearch;
      ghost var a := TickLiveFrame(LiveInputFor(jobId, t));
      ghost var b := TickNotice(Snapshot(t.jobsGen, t.uploadsGen, t.now), interval);
      ghost var c, d := false, false;
      if wantThroughput {
        c := TickSamples(t.downWindow, t.upWindow);
      }
      if searchId != "" {
        var answer := t.poll(id, searchId, searchSeq);
        d := TickResults(answer);
      }
      r := Reads(a, b, c, d);
    }
  }

  /** The cancellable context of one broadcaster goroutine. */
  class Context {
    var cancelled: bool

    constructor ()
      ensures !cancelled
    {
      cancelled := false;
    }
  }

  class Hub {
    const interval: int
    var subs: map<nat, Subscriber>
    var nextId: nat
    var cancel: Option<Context>
    ghost var started: set<Context>

    /**
     A broadcaster is live exactly while someone is subscribed, and every other one ever started has
     been cancelled. Subscribers share nothing.
    */
    ghost predicate Valid()
      reads this, started
    {
      && (cancel.Some? <==> subs != map[])
      && (cancel.Some? ==> cancel.value in started)
      && (forall c | c in started :: c.cancelled <==> cancel != Some(c))
      && (forall id | id in subs ::
            id < nextId && subs[id].Valid() && this !in subs[id].Repr && started !! subs[id].Repr)
      && (forall i, j | i in subs && j in subs && i != j :: subs[i].Repr !! subs[j].Repr)
    }

    constructor (interval: int)
      ensures Valid() && subs == map[] && started == {} && this.interval == interval
    {
      this.interval := interval;
      subs, nextId, cancel, started := map[], 0, None, {};
    }

    /** The registering half of subscribe. */
    method Register(sub: Subscriber) returns (id: nat, spawned: Option<Context>)
      requires Valid() && sub.Valid() && this !in sub.Repr && started !! sub.Repr
      requires forall i | i in subs :: subs[i].Repr !! sub.Repr
      modifies this
      ensures Valid()
      ensures id == old(nextId) && id !in old(subs) && subs == old(subs)[id := sub]
      ensures spawned.Some? <==> old(subs) == map[]
      ensures cancel == if spawned.Some? then spawned else old(cancel)
      ensures started == if spawned.Some? then old(started) + {spawned.value} else old(started)
    {
      id := nextId;
      nextId := nextId + 1;
      subs := subs[id := sub];
      spawned := None;
      assert id in subs;
      if cancel.None? {
        var ctx := new Context();
        cancel := Some(ctx);
        spawned := cancel;
        started := started + {ctx};
      }
    }

    method Unsubscribe(id: nat)
      requires Valid()
      modifies this, started
      ensures Valid()
      ensures subs == old(subs) - {id} && started == old(started)
      ensures forall c | c in started :: c.cancelled <==> old(c.cancelled) || subs == map[]
    {
      subs := subs - {id};
      if |subs| == 0 && cancel.Some? {
        cancel.value.cancelled := true;
        cancel := None;
      }
    }

    ghost function Footprint(): set<object>
      reads this
    {
      set id, o | id in subs && o in subs[id].Repr :: o
    }

    ghost function States(): map<nat, Conn>
      reads this, Footprint()
    {
      map id | id in subs :: subs[id].State()
    }

    method TickOne(id: nat, t: TickData) returns (ghost r: Reads)
      requires Valid() && id in subs && forall v | v in t.views :: t.views[v].id == v
      modifies Footprint()
      ensures Valid() && unchanged(this)
      ensures States() == old(States())[id := TickConn(Received(old(States())[id], r), id, t, interval)]
    {
      hide TickConn, Received, Subscriber.State;
      assert subs[id].Repr <= Footprint();
      r := subs[id].Tick(id, t, interval);
    }

    method TickEveryone(t: TickData) returns (ghost raced: map<nat, Reads>)
      requires Valid() && forall v | v in t.views :: t.views[v].id == v
      modifies Footprint()
      ensures Valid() && unchanged(this)
      ensures raced.Keys == subs.Keys && States() == TickAll(old(States()), raced, t, interval)
    {
      hide TickConn, Received, Valid, Subscriber.State, TickAll;
      raced := map id | id in subs :: Reads(false, false, false, false);
      ghost var was := States();
      assert was.Keys == subs.Keys;
      var rest := subs.Keys;
      AllTicked(was, raced, t, interval);
      hide States, Progress, Footprint;
      while rest != {}
        invariant Valid() && unchanged(this)
        invariant rest <= subs.Keys == raced.Keys == was.Keys
        invariant States() == Progress(was, rest, raced, t, interval)
        decreases |rest|
      {
        var id := AnyOf(rest);
        ghost var r := TickOne(id, t);
        TickAnother(was, rest, raced, t, interval, id, r);
        rest := rest - {id};
        raced := raced[id := r];
      }
      AllTicked(was, raced, t, interval);
    }

    /** The locked half of tick, run by the goroutine of `ctx`. */
    method Deliver(ctx: Context, t: TickData) returns (ghost raced: map<nat, Reads>)
      requires Valid() && ctx in started && forall v | v in t.views :: t.views[v].id == v
      modifies Footprint()
      ensures Valid() && unchanged(this) && unchanged(started)
      ensures raced.Keys == subs.Keys
      ensures States() == if ctx.cancelled then old(States()) else TickAll(old(States()), raced, t, interval)
    {
      if ctx.cancelled {
        return map id | id in subs :: Reads(false, false, false, false);
      }
      raced := TickEveryone(t);
    }
  }

  /** The states once everyone but `rest` has been served. */
  ghost function Progress(was: map<nat, Conn>, rest: set<nat>, raced: map<nat, Reads>, t: TickData, interval: int)
    : map<nat, Conn>
    requires raced.Keys == was.Keys
  {
    map id | id in was :: if id in rest then was[id] else TickConn(Received(was[id], raced[id]), id, t, interval)
  }

  lemma TickAnother(was: map<nat, Conn>, rest: set<nat>, raced: map<nat, Reads>, t: TickData, interval: int,
                    id: nat, r: Reads)
    requires raced.Keys == was.Keys && id in rest && rest <= was.Keys
    ensures Progress(was, rest - {id}, raced[id := r], t, interval)
         == Progress(was, rest, raced, t, interval)[id := TickConn(Received(was[id], r), id, t, interval)]
    ensures Progress(was, rest, raced, t, interval)[id] == was[id]
  {
    hide TickConn, Received;
  }

  lemma AllTicked(was: map<nat, Conn>, raced: map<nat, Reads>, t: TickData, interval: int)
    requires raced.Keys == was.Keys
    ensures Progress(was, {}, raced, t, interval) == TickAll(was, raced, t, interval)
    ensures Progress(was, was.Keys, raced, t, interval) == was
  {
    hide TickConn, Received;
  }
}
