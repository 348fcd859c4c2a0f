/**
 The hub over the byte caches, step by step. A refresh is not atomic: it fetches the live transfers,
 reads the store three times and commits, and a connecting client's refresh does so on its own
 goroutine while the broadcaster's ticks run. A fetch of the live transfers can fail, which looks
 like nothing being live. A tick takes its frame from the caches before it waits for the connections.
 Time is the environment's: it moves between any two events.
*/
module OverlayHub {
  import opened Basics
  import opened AlbumLive
  import opened ByteOverlay

  /** What a fetch of the live transfers sees. */
  function Seen(w: World, ok: bool): World {
    if ok then w else map k | k in w :: w[k].(live := None)
  }

  /**
   A refresh under way: its snapshot, and so far its store reads (jobs, details, bytes). For the
   proofs: how many frames had been shown when it began, and the keys enqueued since.
  */
  datatype Flight = Flight(
    snap: World, ok: bool, begun: nat, stirred: set<FileKey>, prev: CandidateBytes, seen: seq<World>)

  /** What the connection was last shown: every file's bytes and state, and which of them as finished. */
  datatype Screen = Screen(
    shown: map<(Candidate, string), int>, states: map<(Candidate, string), TransferState>,
    over: set<(Candidate, string)>)

  /** Framed: the caches are read, and the frame waits to be shown. */
  datatype Stage = Fetched | Refreshing | Ready | Framed(frame: Screen)

  /** A tick under way; it refreshes with its own snapshot if that moved the matched files. */
  datatype Tick = Tick(flight: Flight, stage: Stage)

  /**
   The world, the committed cache with the snapshot it is based on and the keys enqueued since, the
   refreshes and the tick under way, and what the connection was last shown.
  */
  datatype Hub = Hub(
    w: World, cache: Cache, basis: World, basisOk: bool, stirred: set<FileKey>,
    flights: map<nat, Flight>, tick: Option<Tick>, screen: Screen, frames: nat)

  datatype Event =
    | Moves(step: EnvStep)
    | Begins(id: nat, ok: bool)
    | Reads(id: nat)
    | Commits(id: nat)
    | TickFetches(ok: bool)
    | TickCompares
    | TickReads
    | TickCommits
    | TickFrames
    | TickShows

  // ---------------------------------------------------------------- the invariant of every run

  /** A key that was idle then and has not been enqueued since has not changed. */
  ghost predicate IdleKept(was: World, stirred: set<FileKey>, w: World)
    requires was.Keys == w.Keys
  {
    forall k | k in was && was[k].live.None? && k !in stirred :: w[k] == was[k]
  }

  ghost predicate FlightOk(fl: Flight, w: World) {
    && WorldOk(fl.snap) && RowsGrow(fl.snap, w) && |fl.seen| <= 3
    && (!fl.ok ==> forall k | k in fl.snap :: fl.snap[k].live.None?)
    && (fl.ok ==> AllLater(fl.snap, w) && IdleKept(fl.snap, fl.stirred, w))
    && (forall i | 0 <= i < |fl.seen| :: RowsGrow(fl.snap, fl.seen[i]) && RowsGrow(fl.seen[i], w))
  }

  ghost predicate BasisOk(cands: seq<Candidate>, h: Hub) {
    && WorldOk(h.basis) && h.basis.Keys == h.w.Keys
    && h.cache.matched == LiveMatchedFileSet(cands, Snapshot(h.basis))
    && (forall c, f | c in cands && f in c.files ::
          (c.username, f) in h.basis && h.basis[(c.username, f)].bytes <= Cached(h.cache, c, f))
    && (h.basisOk ==> AllLater(h.basis, h.w) && IdleKept(h.basis, h.stirred, h.w))
  }

  /** Nothing shown is ahead of the world `v`. */
  ghost predicate Held(cands: seq<Candidate>, s: Screen, v: World)
    requires Tracked(cands, v) && s.shown.Keys == AllFiles(cands)
  {
    forall c, f | c in cands && f in c.files ::
      s.shown[(c, f)] <= Value(v[(c.username, f)]) && ((c, f) in s.over ==> Over(v[(c.username, f)]))
  }

  ghost predicate ScreenOk(cands: seq<Candidate>, s: Screen, v: World)
    requires Tracked(cands, v)
  {
    && s.shown.Keys == s.states.Keys == AllFiles(cands) && s.over <= AllFiles(cands) && Held(cands, s, v)
    && (forall p | p in AllFiles(cands) :: p in s.over <==> s.states[p] in {Completed, Errored, Cancelled})
  }

  /** Unless a frame was shown since, nothing shown is ahead of what a refresh saw when it began. */
  ghost predicate FlightFits(cands: seq<Candidate>, fl: Flight, s: Screen, frames: nat, w: World)
    requires Tracked(cands, w)
  {
    && FlightOk(fl, w) && BytesOk(cands, fl.prev, w) && fl.begun <= frames
    && (fl.ok && fl.begun == frames ==> ScreenOk(cands, s, fl.snap))
  }

  ghost predicate TickFits(cands: seq<Candidate>, t: Tick, w: World)
    requires Tracked(cands, w)
  {
    && FlightOk(t.flight, w) && BytesOk(cands, t.flight.prev, w)
    && (t.stage.Framed? ==> ScreenOk(cands, t.stage.frame, w))
  }

  ghost predicate HubOk(cands: seq<Candidate>, h: Hub) {
    && WorldOk(h.w) && Tracked(cands, h.w) && CacheOk(cands, h.cache, h.w) && BasisOk(cands, h)
    && ScreenOk(cands, h.screen, h.w)
    && (forall id | id in h.flights :: FlightFits(cands, h.flights[id], h.screen, h.frames, h.w))
    && (h.tick.Some? ==> TickFits(cands, h.tick.value, h.w))
  }

  // ---------------------------------------------------------------- steps

  /** What a tick that fetched `snap` shows from `cache`. */
  ghost function Frames(cands: seq<Candidate>, cache: Cache, snap: World): Screen
    requires forall c, f | c in cands && f in c.files :: (c.username, f) in snap && (c.username, f) in cache.states
  {
    Screen(ShowAll(cands, cache, snap), StateAll(cands, cache, snap), OverAll(cands, cache, snap))
  }

  /** The tick's snapshot has the matched files of the cache. */
  predicate Agrees(cands: seq<Candidate>, cache: Cache, fl: Flight) {
    LiveMatchedFileSet(cands, Snapshot(fl.snap)) == cache.matched
  }

  function Stirs(stirred: set<FileKey>, e: EnvStep): set<FileKey> {
    if e.Enqueue? then stirred + {e.key} else stirred
  }

  function StirFlight(fl: Flight, e: EnvStep): Flight {
    fl.(stirred := Stirs(fl.stirred, e))
  }

  function Fetch(h: Hub, ok: bool): Flight {
    Flight(Seen(h.w, ok), ok, h.frames, {}, map[], [])
  }

  /** The previous bytes are kept aside once the jobs have been read. */
  function ReadNext(h: Hub, fl: Flight): Flight {
    fl.(seen := fl.seen + [h.w], prev := if fl.seen == [] then h.cache.bytes else fl.prev)
  }

  ghost function CacheOf(cands: seq<Candidate>, fl: Flight): Cache
    requires |fl.seen| == 3 && Tracked(cands, fl.seen[2])
  {
    Refreshed(cands, fl.prev, fl.snap, fl.seen[0], fl.seen[1], fl.seen[2])
  }

  ghost function Committed(cands: seq<Candidate>, h: Hub, fl: Flight): Hub
    requires Tracked(cands, h.w) && FlightOk(fl, h.w) && |fl.seen| == 3
  {
    assert RowsGrow(fl.seen[2], h.w);
    h.(cache := CacheOf(cands, fl), basis := fl.snap, basisOk := fl.ok, stirred := fl.stirred)
  }

  ghost function Step(cands: seq<Candidate>, h: Hub, e: Event): Hub
    requires HubOk(cands, h)
  {
    match e
    case Moves(s) =>
      h.(w := EnvNext(h.w, s), stirred := Stirs(h.stirred, s),
         flights := map id | id in h.flights :: StirFlight(h.flights[id], s),
         tick := if h.tick.Some? then Some(Tick(StirFlight(h.tick.value.flight, s), h.tick.value.stage)) else None)
    case Begins(id, ok) => h.(flights := h.flights[id := Fetch(h, ok)])
    case Reads(id) =>
      if id in h.flights && |h.flights[id].seen| < 3
      then h.(flights := h.flights[id := ReadNext(h, h.flights[id])]) else h
    case Commits(id) =>
      if id in h.flights && |h.flights[id].seen| == 3
      then Committed(cands, h, h.flights[id]).(flights := h.flights - {id}) else h
    case TickFetches(ok) => if h.tick.None? then h.(tick := Some(Tick(Fetch(h, ok), Fetched))) else h
    case TickCompares =>
      if h.tick.Some? && h.tick.value.stage == Fetched then
        var fl := h.tick.value.flight;
        h.(tick := Some(Tick(fl, if Agrees(cands, h.cache, fl) then Ready else Refreshing)))
      else h
    case TickReads =>
      if h.tick.Some? && h.tick.value.stage == Refreshing && |h.tick.value.flight.seen| < 3
      then h.(tick := Some(Tick(ReadNext(h, h.tick.value.flight), Refreshing))) else h
    case TickCommits =>
      if h.tick.Some? && h.tick.value.stage == Refreshing && |h.tick.value.flight.seen| == 3
      then Committed(cands, h, h.tick.value.flight).(tick := Some(Tick(h.tick.value.flight, Ready))) else h
    case TickFrames =>
      if h.tick.Some? && h.tick.value.stage == Ready then
        var fl := h.tick.value.flight;
        h.(tick := Some(Tick(fl, Framed(Frames(cands, h.cache, fl.snap)))))
      else h
    case TickShows =>
      if h.tick.Some? && h.tick.value.stage.Framed?
      then h.(tick := None, frames := h.frames + 1, screen := h.tick.value.stage.frame) else h
  }

  // ---------------------------------------------------------------- every step keeps the invariant

  lemma LaterTransitive(f: FileState, g: FileState, h: FileState)
    requires Later(f, g) && Later(g, h)
    ensures Later(f, h)
  {
  }

  lemma GrowsOn(a: World, b: World, e: EnvStep)
    requires RowsGrow(a, b) && WorldOk(b)
    ensures RowsGrow(a, EnvNext(b, e))
  {
    hide EnvNext;
    AllStepLater(b, e);
    var z := EnvNext(b, e);
    forall k | k in a ensures a[k].bytes <= z[k].bytes && (Terminal(a[k].state) ==> Terminal(z[k].state)) {
      assert Later(b[k], z[k]);
    }
  }

  lemma AllStepLater(w: World, e: EnvStep)
    requires WorldOk(w)
    ensures AllLater(w, EnvNext(w, e)) && WorldOk(EnvNext(w, e))
  {
    hide AfterStep, Later;
    if w != map[] {
      var k := ElementOf(w.Keys);
      StepIsLater(w, e, k);
    }
    forall k | k in w ensures k in EnvNext(w, e) && Later(w[k], EnvNext(w, e)[k]) {
      StepIsLater(w, e, k);
    }
  }

  lemma LaterOn(a: World, b: World, e: EnvStep)
    requires AllLater(a, b) && WorldOk(b)
    ensures AllLater(a, EnvNext(b, e))
  {
    hide EnvNext, Later;
    AllStepLater(b, e);
    forall k | k in a ensures Later(a[k], EnvNext(b, e)[k]) {
      LaterTransitive(a[k], b[k], EnvNext(b, e)[k]);
    }
  }

  lemma IdleOn(was: World, stirred: set<FileKey>, w: World, e: EnvStep)
    requires was.Keys == w.Keys && WorldOk(w) && IdleKept(was, stirred, w)
    ensures EnvNext(w, e).Keys == w.Keys && IdleKept(was, Stirs(stirred, e), EnvNext(w, e))
  {
    AllStepLater(w, e);
    forall k | k in was && was[k].live.None? && k !in Stirs(stirred, e) ensures EnvNext(w, e)[k] == was[k] {
      assert w[k] == was[k];
    }
  }

  lemma FlightOn(fl: Flight, w: World, e: EnvStep)
    requires FlightOk(fl, w) && WorldOk(w)
    ensures FlightOk(StirFlight(fl, e), EnvNext(w, e))
  {
    hide EnvNext, Later, WorldOk, IdleKept, AllLater;
    GrowsOn(fl.snap, w, e);
    if fl.ok {
      LaterOn(fl.snap, w, e);
      IdleOn(fl.snap, fl.stirred, w, e);
    }
    forall i | 0 <= i < |fl.seen| ensures RowsGrow(fl.seen[i], EnvNext(w, e)) {
      GrowsOn(fl.seen[i], w, e);
    }
  }

  lemma HeldLater(shown: int, over: bool, f: FileState, g: FileState)
    requires shown <= Value(f) && (over ==> Over(f)) && Later(f, g)
    ensures shown <= Value(g) && (over ==> Over(g))
  {
  }

  lemma ScreenOn(cands: seq<Candidate>, s: Screen, v: World, w: World)
    requires Tracked(cands, v) && AllLater(v, w) && ScreenOk(cands, s, v)
    ensures Tracked(cands, w) && ScreenOk(cands, s, w)
  {
    hide Later, Value, Over;
    forall c, f | c in cands && f in c.files
      ensures s.shown[(c, f)] <= Value(w[(c.username, f)]) && ((c, f) in s.over ==> Over(w[(c.username, f)]))
    {
      HeldLater(s.shown[(c, f)], (c, f) in s.over, v[(c.username, f)], w[(c.username, f)]);
    }
  }

  lemma FitsOn(cands: seq<Candidate>, h: Hub, fl: Flight, e: EnvStep)
    requires WorldOk(h.w) && Tracked(cands, h.w) && FlightFits(cands, fl, h.screen, h.frames, h.w)
    ensures Tracked(cands, EnvNext(h.w, e))
    ensures FlightFits(cands, StirFlight(fl, e), h.screen, h.frames, EnvNext(h.w, e))
  {
    hide EnvNext, Later, WorldOk, IdleKept, FlightOk, BytesOk, ScreenOk, RowsGrow;
    AllStepLater(h.w, e);
    FlightOn(fl, h.w, e);
    BytesOn(cands, fl.prev, h.w, EnvNext(h.w, e));
  }

  lemma TickOn(cands: seq<Candidate>, t: Tick, w: World, e: EnvStep)
    requires WorldOk(w) && Tracked(cands, w) && TickFits(cands, t, w)
    ensures Tracked(cands, EnvNext(w, e)) && TickFits(cands, Tick(StirFlight(t.flight, e), t.stage), EnvNext(w, e))
  {
    hide EnvNext, Later, WorldOk, IdleKept, FlightOk, BytesOk, ScreenOk, RowsGrow;
    AllStepLater(w, e);
    FlightOn(t.flight, w, e);
    BytesOn(cands, t.flight.prev, w, EnvNext(w, e));
    if t.stage.Framed? {
      ScreenOn(cands, t.stage.frame, w, EnvNext(w, e));
    }
  }

  lemma FetchOk(h: Hub, ok: bool)
    requires WorldOk(h.w)
    ensures FlightOk(Fetch(h, ok), h.w)
  {
  }

  lemma ReadOk(h: Hub, fl: Flight)
    requires FlightOk(fl, h.w) && WorldOk(h.w) && |fl.seen| < 3
    ensures FlightOk(ReadNext(h, fl), h.w)
  {
    hide IdleKept, AllLater, WorldOk;
  }

  lemma BytesOn(cands: seq<Candidate>, bytes: CandidateBytes, v: World, w: World)
    requires Tracked(cands, v) && BytesOk(cands, bytes, v) && AllLater(v, w)
    ensures Tracked(cands, w) && BytesOk(cands, bytes, w)
  {
    forall k | k in v ensures v[k].bytes <= w[k].bytes {
      assert Later(v[k], w[k]);
    }
    hide Later;
  }

  lemma CacheOn(cands: seq<Candidate>, cache: Cache, v: World, w: World)
    requires Tracked(cands, v) && CacheOk(cands, cache, v) && AllLater(v, w)
    ensures Tracked(cands, w) && CacheOk(cands, cache, w)
  {
    hide HasMatch, BytesOk;
    BytesOn(cands, cache.bytes, v, w);
    forall k | k in v ensures v[k].bytes <= w[k].bytes && (Terminal(v[k].state) ==> Terminal(w[k].state)) {
      assert Later(v[k], w[k]);
    }
    hide Later;
  }

  lemma MoveKeepsHub(cands: seq<Candidate>, h: Hub, e: EnvStep)
    requires HubOk(cands, h)
    ensures HubOk(cands, Step(cands, h, Moves(e)))
  {
    hide EnvNext, Later, CacheOk, WorldOk, Cached, LiveMatchedFileSet, Snapshot, IdleKept, FlightFits, TickFits,
         ScreenOk, StirFlight;
    var z := Step(cands, h, Moves(e));
    AllStepLater(h.w, e);
    CacheOn(cands, h.cache, h.w, z.w);
    ScreenOn(cands, h.screen, h.w, z.w);
    if h.basisOk {
      LaterOn(h.basis, h.w, e);
      IdleOn(h.basis, h.stirred, h.w, e);
    }
    forall id | id in z.flights ensures FlightFits(cands, z.flights[id], z.screen, z.frames, z.w) {
      FitsOn(cands, h, h.flights[id], e);
    }
    if h.tick.Some? {
      TickOn(cands, h.tick.value, h.w, e);
    }
  }

  /** A commit leaves a sound cache, however old what it brings. */
  lemma CommittedCache(cands: seq<Candidate>, w: World, fl: Flight)
    requires Tracked(cands, w) && FlightOk(fl, w) && BytesOk(cands, fl.prev, w) && |fl.seen| == 3
    ensures Tracked(cands, fl.seen[2]) && CacheOk(cands, CacheOf(cands, fl), w)
    ensures forall c, f | c in cands && f in c.files ::
              && (c.username, f) in fl.snap && fl.snap[(c.username, f)].bytes <= Cached(CacheOf(cands, fl), c, f)
              && (c.username, f) in CacheOf(cands, fl).states
              && (Terminal(fl.snap[(c.username, f)].state) ==> Terminal(CacheOf(cands, fl).states[(c.username, f)]))
  {
    hide AllLater, IdleKept, WorldOk, CacheOk, HasMatch, Cached, BytesOk;
    var (a, b, d) := (fl.seen[0], fl.seen[1], fl.seen[2]);
    assert RowsGrow(a, w) && RowsGrow(b, w) && RowsGrow(d, w);
    assert RowsGrow(fl.snap, a) && RowsGrow(fl.snap, b) && RowsGrow(fl.snap, d);
    assert Tracked(cands, fl.snap) && Tracked(cands, d);
    RefreshFillsCache(cands, fl.prev, fl.snap, a, b, d, w);
    forall c, f | c in cands && f in c.files
      ensures fl.snap[(c.username, f)].bytes <= Cached(CacheOf(cands, fl), c, f)
      ensures (c.username, f) in CacheOf(cands, fl).states
              && (Terminal(fl.snap[(c.username, f)].state) ==> Terminal(CacheOf(cands, fl).states[(c.username, f)]))
    {
      RefreshIsNoOlder(cands, fl.prev, fl.snap, a, b, d, c, f);
    }
  }

  lemma CommitKeepsCache(cands: seq<Candidate>, h: Hub, fl: Flight)
    requires HubOk(cands, h) && FlightOk(fl, h.w) && BytesOk(cands, fl.prev, h.w) && |fl.seen| == 3
    ensures var z := Committed(cands, h, fl); CacheOk(cands, z.cache, z.w) && BasisOk(cands, z)
  {
    CommittedCache(cands, h.w, fl);
    hide CacheOk, AllLater, IdleKept, HasMatch, Cached, RowsGrow, BytesOk;
  }

  lemma FetchFits(cands: seq<Candidate>, h: Hub, ok: bool)
    requires HubOk(cands, h)
    ensures FlightFits(cands, Fetch(h, ok), h.screen, h.frames, h.w)
    ensures TickFits(cands, Tick(Fetch(h, ok), Fetched), h.w)
  {
    hide FlightOk, CacheOk, BasisOk, ScreenOk, FlightFits;
    FetchOk(h, ok);
    FetchesFit(cands, h, ok);
  }

  lemma FetchesFit(cands: seq<Candidate>, h: Hub, ok: bool)
    requires WorldOk(h.w) && Tracked(cands, h.w) && ScreenOk(cands, h.screen, h.w) && FlightOk(Fetch(h, ok), h.w)
    ensures FlightFits(cands, Fetch(h, ok), h.screen, h.frames, h.w)
  {
    hide FlightOk, ScreenOk;
  }

  lemma ReadFits(cands: seq<Candidate>, h: Hub, fl: Flight)
    requires HubOk(cands, h) && FlightOk(fl, h.w) && BytesOk(cands, fl.prev, h.w) && |fl.seen| < 3
    ensures FlightOk(ReadNext(h, fl), h.w) && BytesOk(cands, ReadNext(h, fl).prev, h.w)
  {
    hide FlightOk, BytesOk, BasisOk, ScreenOk, FlightFits, TickFits;
    ReadOk(h, fl);
  }

  lemma FlightStepKeepsHub(cands: seq<Candidate>, h: Hub, e: Event)
    requires HubOk(cands, h)
    requires e.Begins? || e.Reads? || e.TickFetches? || e.TickReads? || e.TickCompares?
    ensures HubOk(cands, Step(cands, h, e))
  {
    hide FlightOk, CacheOk, WorldOk, Tracked, Cached, Agrees, AllLater, IdleKept, BytesOk, ScreenOk, Fetch;
    match e
    case Begins(_, ok) => FetchFits(cands, h, ok);
    case TickFetches(ok) => FetchFits(cands, h, ok);
    case Reads(id) =>
      if id in h.flights && |h.flights[id].seen| < 3 {
        ReadFits(cands, h, h.flights[id]);
      }
    case TickReads =>
      if h.tick.Some? && |h.tick.value.flight.seen| < 3 {
        ReadFits(cands, h, h.tick.value.flight);
      }
    case _ =>
  }

  lemma CommitStepKeepsHub(cands: seq<Candidate>, h: Hub, e: Event)
    requires HubOk(cands, h) && (e.Commits? || e.TickCommits?)
    ensures HubOk(cands, Step(cands, h, e))
  {
    hide FlightOk, CacheOk, WorldOk, Tracked, CacheOf, Cached, LiveMatchedFileSet, Snapshot, AllLater, IdleKept,
         BytesOk, ScreenOk;
    if e.Commits? && e.id in h.flights && |h.flights[e.id].seen| == 3 {
      CommitKeepsCache(cands, h, h.flights[e.id]);
    }
    if e.TickCommits? && h.tick.Some? && |h.tick.value.flight.seen| == 3 {
      CommitKeepsCache(cands, h, h.tick.value.flight);
    }
  }

  /** A frame has one value for every file. */
  lemma FrameDomain(cands: seq<Candidate>, cache: Cache, snap: World)
    requires Tracked(cands, snap) && cache.states.Keys == snap.Keys
    ensures forall c, f | c in cands && f in c.files :: (c.username, f) in snap && (c.username, f) in cache.states
    ensures Frames(cands, cache, snap).shown.Keys == AllFiles(cands)
    ensures Frames(cands, cache, snap).states.Keys == AllFiles(cands)
    ensures Frames(cands, cache, snap).over <= AllFiles(cands)
    ensures forall c, f | c in cands && f in c.files :: (c, f) in AllFiles(cands)
    ensures forall p | p in AllFiles(cands) ::
              && p.0 in cands && p.1 in p.0.files
              && Frames(cands, cache, snap).states[p] == StateShown(cache, snap, p.0, p.1)
              && (p in Frames(cands, cache, snap).over <==>
                    Frames(cands, cache, snap).states[p] in {Completed, Errored, Cancelled})
    ensures forall c, f | c in cands && f in c.files ::
              && Frames(cands, cache, snap).shown[(c, f)] == Shown(cache, snap, c, f)
              && ((c, f) in Frames(cands, cache, snap).over <==> Terminal(StateShown(cache, snap, c, f)))
  {
    hide Shown, StateShown;
  }

  lemma SnapIsBehind(cands: seq<Candidate>, fl: Flight, w: World, c: Candidate, f: string)
    requires FlightOk(fl, w) && Tracked(cands, w) && c in cands && f in c.files
    ensures var (k, snap) := ((c.username, f), fl.snap);
            && k in snap && k in w && (snap[k].live.Some? ==> Later(snap[k], w[k]))
  {
    hide WorldOk, IdleKept, Later;
  }

  /** Whatever the cache, what a tick takes from it is not ahead of the truth. */
  lemma FrameIsHeld(cands: seq<Candidate>, cache: Cache, fl: Flight, w: World)
    requires Tracked(cands, w) && WorldOk(w) && CacheOk(cands, cache, w) && FlightOk(fl, w)
    ensures Tracked(cands, fl.snap) && cache.states.Keys == fl.snap.Keys
    ensures forall c, f | c in cands && f in c.files :: (c.username, f) in fl.snap && (c.username, f) in cache.states
    ensures ScreenOk(cands, Frames(cands, cache, fl.snap), w)
  {
    hide Shown, HasMatch, LiveMatchedFileSet, Snapshot, Frames, BytesOk, FileOk, Value, IdleKept, AllLater;
    assert Tracked(cands, fl.snap);
    FrameDomain(cands, cache, fl.snap);
    forall c, f | c in cands && f in c.files
      ensures Shown(cache, fl.snap, c, f) <= Value(w[(c.username, f)])
      ensures Terminal(StateShown(cache, fl.snap, c, f)) ==> Over(w[(c.username, f)])
    {
      SnapIsBehind(cands, fl, w, c, f);
      ShownIsBehind(cands, cache, fl.snap, w, c, f);
    }
  }

  lemma FrameKeepsHub(cands: seq<Candidate>, h: Hub)
    requires HubOk(cands, h)
    ensures HubOk(cands, Step(cands, h, TickFrames))
  {
    hide CacheOk, ScreenOk, FlightOk, BytesOk, FlightFits, WorldOk, Frames, Tracked, Cached;
    if h.tick.Some? && h.tick.value.stage == Ready {
      FrameIsHeld(cands, h.cache, h.tick.value.flight, h.w);
    }
  }

  lemma ShowKeepsHub(cands: seq<Candidate>, h: Hub)
    requires HubOk(cands, h)
    ensures HubOk(cands, Step(cands, h, TickShows))
  {
    hide CacheOk, ScreenOk, FlightOk, BytesOk, WorldOk, Tracked, Cached;
  }

  /** Every event, in any order, keeps the caches sound, and nothing shown is ahead of the truth. */
  lemma StepKeepsHub(cands: seq<Candidate>, h: Hub, e: Event)
    requires HubOk(cands, h)
    ensures HubOk(cands, Step(cands, h, e))
  {
    hide HubOk, Step;
    match e
    case Moves(s) => MoveKeepsHub(cands, h, s);
    case Commits(_) => CommitStepKeepsHub(cands, h, e);
    case TickCommits => CommitStepKeepsHub(cands, h, e);
    case TickFrames => FrameKeepsHub(cands, h);
    case TickShows => ShowKeepsHub(cands, h);
    case _ => FlightStepKeepsHub(cands, h, e);
  }

  ghost function Next(cands: seq<Candidate>, h: Hub, e: Event): (z: Hub)
    requires HubOk(cands, h)
    ensures HubOk(cands, z)
  {
    StepKeepsHub(cands, h, e);
    Step(cands, h, e)
  }
}
