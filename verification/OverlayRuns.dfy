/**
 Whole runs of the hub over the byte caches: when what a connection is shown goes only forward, and
 how far from the truth it is.
*/
module OverlayRuns {
  import opened Basics
  import opened AlbumLive
  import opened ByteOverlay
  import LiveFrames
  import opened OverlayHub

  // ---------------------------------------------------------------- when nothing goes back

  /** Nothing shown of a file is ahead of it, or ahead of what the next frame would take from the cache. */
  predicate Kept(shown: int, over: bool, matched: bool, cached: int, rowOver: bool, f: FileState) {
    && shown <= Value(f)
    && (!matched ==> shown <= cached)
    && (over ==> rowOver || (matched && if f.live.Some? then Terminal(f.live.value.state) else Terminal(f.state)))
  }

  lemma KeptLater(shown: int, over: bool, matched: bool, cached: int, rowOver: bool, f: FileState, g: FileState)
    requires Kept(shown, over, matched, cached, rowOver, f) && Later(f, g)
    ensures Kept(shown, over, matched, cached, rowOver, g)
  {
  }

  /** A refresh based on `f`, with rows read no earlier, seen when the file is `g`. */
  lemma KeptByRefresh(shown: int, over: bool, f: FileState, g: FileState, cached: int, rowOver: bool)
    requires shown <= Value(f) && (over ==> Over(f)) && Later(f, g)
    requires f.bytes <= cached && (Terminal(f.state) ==> rowOver)
    ensures Kept(shown, over, f.live.Some?, cached, rowOver, g)
  {
  }

  /** Nothing shown is ahead of what the next frame would take from the cache. */
  ghost predicate AllKept(cands: seq<Candidate>, s: Screen, cache: Cache, v: World)
    requires Tracked(cands, v) && s.shown.Keys == AllFiles(cands) && cache.states.Keys == v.Keys
  {
    forall c, f | c in cands && f in c.files ::
      Kept(s.shown[(c, f)], (c, f) in s.over, (c.id, f) in cache.matched, Cached(cache, c, f),
           Terminal(cache.states[(c.username, f)]), v[(c.username, f)])
  }

  /** From `w` on the live transfers can come to be, or still are, exactly the matched ones. */
  ghost predicate CanMatch(cands: seq<Candidate>, matched: set<MatchedFile>, w: World)
    requires Tracked(cands, w)
  {
    && (forall m | m in matched :: exists c :: c in cands && m.0 == c.id && m.1 in c.files)
    && (forall c, f | c in cands && f in c.files && (c.id, f) in matched ::
          w[(c.username, f)].live.Some? || !Terminal(w[(c.username, f)].state))
    && (forall c, d, f | c in cands && d in cands && f in c.files && f in d.files && c.username == d.username ::
          (c.id, f) in matched <==> (d.id, f) in matched)
  }

  ghost predicate Forward(s: Screen, t: Screen) {
    s.shown.Keys == t.shown.Keys && (forall p | p in s.shown :: s.shown[p] <= t.shown[p]) && s.over <= t.over
  }

  /** A cache is behind nothing on the screen, unless the trigger is bound to replace it first. */
  ghost predicate Settled(cands: seq<Candidate>, s: Screen, cache: Cache, w: World)
    requires Tracked(cands, w) && s.shown.Keys == AllFiles(cands) && cache.states.Keys == w.Keys
  {
    CanMatch(cands, cache.matched, w) ==> AllKept(cands, s, cache, w)
  }

  /** What a refresh has read at a given place, or would read there now. */
  function ReadAt(fl: Flight, i: nat, w: World): World {
    if i < |fl.seen| then fl.seen[i] else w
  }

  /** A refreshing tick shows live bytes where its snapshot has them, and else the row of the read that serves it. */
  ghost function RefreshShown(fl: Flight, w: World, c: Candidate, f: string): int
    requires FlightOk(fl, w) && (c.username, f) in w
  {
    var (k, i) := ((c.username, f), if LiveMatched(c.username, c.files, Snapshot(fl.snap)) then 2 else 0);
    if fl.snap[k].live.Some? then fl.snap[k].live.value.bytes
    else
      assert i < |fl.seen| ==> RowsGrow(fl.seen[i], w);
      ReadAt(fl, i, w)[k].bytes
  }

  ghost function RefreshState(fl: Flight, w: World, c: Candidate, f: string): TransferState
    requires FlightOk(fl, w) && (c.username, f) in w
  {
    var k := (c.username, f);
    assert 1 < |fl.seen| ==> RowsGrow(fl.seen[1], w);
    ShownState(ReadAt(fl, 1, w)[k].state, if fl.snap[k].live.Some? then Some(fl.snap[k].live.value.state) else None)
  }

  ghost predicate RefreshOver(fl: Flight, w: World, c: Candidate, f: string)
    requires FlightOk(fl, w) && (c.username, f) in w
  {
    var k := (c.username, f);
    assert 1 < |fl.seen| ==> RowsGrow(fl.seen[1], w);
    (fl.snap[k].live.Some? && Terminal(fl.snap[k].live.value.state)) || Terminal(ReadAt(fl, 1, w)[k].state)
  }

  ghost function RefreshFrame(cands: seq<Candidate>, fl: Flight, w: World): Screen
    requires FlightOk(fl, w) && Tracked(cands, w)
  {
    Screen(map p: (Candidate, string) | p in AllFiles(cands) :: RefreshShown(fl, w, p.0, p.1),
           map p: (Candidate, string) | p in AllFiles(cands) :: RefreshState(fl, w, p.0, p.1),
           set p: (Candidate, string) | p in AllFiles(cands) && RefreshOver(fl, w, p.0, p.1))
  }

  /** What a tick would show, with this cache committed, if it ran to its end at once. */
  ghost function NextFrame(cands: seq<Candidate>, t: Tick, cache: Cache, w: World): Screen
    requires Tracked(cands, w) && TickFits(cands, t, w) && cache.states.Keys == w.Keys
  {
    assert t.flight.snap.Keys == w.Keys;
    match t.stage
    case Framed(frame) => frame
    case Ready => Frames(cands, cache, t.flight.snap)
    case Refreshing => RefreshFrame(cands, t.flight, w)
    case Fetched =>
      if Agrees(cands, cache, t.flight) then Frames(cands, cache, t.flight.snap) else RefreshFrame(cands, t.flight, w)
  }

  /**
   When a committed cache is harmless: between ticks, if it is settled; during one, if the frame the
   tick would show at once goes forward, and leaves settled a cache that it will not replace or check.
  */
  ghost predicate Harmless(cands: seq<Candidate>, h: Hub, cache: Cache)
    requires HubOk(cands, h) && cache.states.Keys == h.w.Keys
  {
    if h.tick.None? then Settled(cands, h.screen, cache, h.w)
    else
      var t := h.tick.value;
      var s := NextFrame(cands, t, cache, h.w);
      && Forward(h.screen, s)
      && (t.stage.Ready? || t.stage.Framed? ==> s.shown.Keys == AllFiles(cands) && Settled(cands, s, cache, h.w))
  }

  /** Whatever another refresh commits is harmless, and so is a tick that could not fetch the live transfers. */
  ghost predicate Good(cands: seq<Candidate>, h: Hub, e: Event)
    requires HubOk(cands, h)
  {
    && (e.TickFetches? && !e.ok && h.tick.None? ==>
          var z := Next(cands, h, e);
          z.cache.states.Keys == z.w.Keys && Harmless(cands, z, z.cache))
    && (e.Commits? && e.id in h.flights && |h.flights[e.id].seen| == 3 ==>
          var fl := h.flights[e.id];
          && RowsGrow(fl.seen[2], h.w) && CacheOf(cands, fl).states.Keys == h.w.Keys
          && Harmless(cands, h, CacheOf(cands, fl)))
  }

  /** What good runs keep. */
  ghost predicate Calm(cands: seq<Candidate>, h: Hub) {
    HubOk(cands, h) && Harmless(cands, h, h.cache)
  }

  // ---------------------------------------------------------------- good steps

  lemma KeptOn(cands: seq<Candidate>, s: Screen, cache: Cache, v: World, w: World)
    requires Tracked(cands, v) && Tracked(cands, w) && s.shown.Keys == AllFiles(cands) && AllLater(v, w)
    requires cache.states.Keys == v.Keys && AllKept(cands, s, cache, v)
    ensures AllKept(cands, s, cache, w)
  {
    hide Later, Kept, Cached;
    forall c, f | c in cands && f in c.files
      ensures Kept(s.shown[(c, f)], (c, f) in s.over, (c.id, f) in cache.matched, Cached(cache, c, f),
                   Terminal(cache.states[(c.username, f)]), w[(c.username, f)])
    {
      KeptLater(s.shown[(c, f)], (c, f) in s.over, (c.id, f) in cache.matched, Cached(cache, c, f),
                Terminal(cache.states[(c.username, f)]), v[(c.username, f)], w[(c.username, f)]);
    }
  }

  /** What can still be matched later could be matched before. */
  lemma CanMatchBefore(cands: seq<Candidate>, matched: set<MatchedFile>, v: World, w: World)
    requires Tracked(cands, v) && Tracked(cands, w) && AllLater(v, w) && CanMatch(cands, matched, w)
    ensures CanMatch(cands, matched, v)
  {
    forall c, f | c in cands && f in c.files && (c.id, f) in matched
      ensures v[(c.username, f)].live.Some? || !Terminal(v[(c.username, f)].state)
    {
      assert Later(v[(c.username, f)], w[(c.username, f)]);
    }
  }

  /** The files matched now are matchable. */
  lemma MatchedCanMatch(cands: seq<Candidate>, w: World)
    requires Tracked(cands, w)
    ensures CanMatch(cands, LiveMatchedFileSet(cands, Snapshot(w)), w)
  {
    var m := LiveMatchedFileSet(cands, Snapshot(w));
    var cache := Cache(m, map[], map[], map[]);
    forall c | c in cands ensures forall f | f in c.files :: (c.id, f) in m <==> w[(c.username, f)].live.Some? {
      MatchMeansLive(cands, cache, w, c);
    }
  }

  lemma HubDomains(cands: seq<Candidate>, h: Hub)
    requires HubOk(cands, h)
    ensures Tracked(cands, h.w) && h.cache.states.Keys == h.w.Keys && h.cache.rows.Keys == h.w.Keys
    ensures h.screen.shown.Keys == AllFiles(cands) && h.screen.over <= AllFiles(cands) && WorldOk(h.w)
    ensures h.tick.Some? ==>
              && TickFits(cands, h.tick.value, h.w)
              && Tracked(cands, h.tick.value.flight.snap) && h.tick.value.flight.snap.Keys == h.w.Keys
  {
    hide BasisOk, WorldOk, AllLater, IdleKept, FlightFits, BytesOk;
  }

  lemma SettledOn(cands: seq<Candidate>, s: Screen, cache: Cache, v: World, w: World)
    requires Tracked(cands, v) && Tracked(cands, w) && s.shown.Keys == AllFiles(cands) && AllLater(v, w)
    requires cache.states.Keys == v.Keys && Settled(cands, s, cache, v)
    ensures Settled(cands, s, cache, w)
  {
    hide AllKept, CanMatch, AllLater;
    if CanMatch(cands, cache.matched, w) {
      CanMatchBefore(cands, cache.matched, v, w);
      KeptOn(cands, s, cache, v, w);
    }
  }

  lemma NextFrameDomain(cands: seq<Candidate>, t: Tick, cache: Cache, w: World)
    requires Tracked(cands, w) && TickFits(cands, t, w) && cache.states.Keys == w.Keys
    ensures NextFrame(cands, t, cache, w).shown.Keys == AllFiles(cands)
    ensures NextFrame(cands, t, cache, w).over <= AllFiles(cands)
  {
    hide FlightOk, BytesOk, Agrees, Shown, StateShown, RefreshShown, RefreshOver;
  }

  lemma ForwardOn(s: Screen, t: Screen, u: Screen)
    requires Forward(s, t) && Forward(t, u)
    ensures Forward(s, u)
  {
  }

  /** Reads still to come only see more. */
  lemma RefreshFrameGrows(cands: seq<Candidate>, fl: Flight, w: World, e: EnvStep)
    requires FlightOk(fl, w) && Tracked(cands, w) && WorldOk(w)
    ensures Tracked(cands, EnvNext(w, e)) && FlightOk(StirFlight(fl, e), EnvNext(w, e))
    ensures Forward(RefreshFrame(cands, fl, w), RefreshFrame(cands, StirFlight(fl, e), EnvNext(w, e)))
  {
    hide EnvNext, FlightOk, RefreshState, RefreshShown, RefreshOver, StirFlight, Later;
    AllStepLater(w, e);
    FlightOn(fl, w, e);
    assert Tracked(cands, EnvNext(w, e));
    var (s, t) := (RefreshFrame(cands, fl, w), RefreshFrame(cands, StirFlight(fl, e), EnvNext(w, e)));
    forall p | p in AllFiles(cands) ensures s.shown[p] <= t.shown[p] && (p in s.over ==> p in t.over) {
      StirsOnly(fl, e);
      RefreshFileGrows(fl, StirFlight(fl, e), w, EnvNext(w, e), p.0, p.1);
    }
  }

  lemma RefreshFileGrows(fl: Flight, g: Flight, w: World, v: World, c: Candidate, f: string)
    requires FlightOk(fl, w) && FlightOk(g, v) && (c.username, f) in w && (c.username, f) in v
    requires g.snap == fl.snap && g.seen == fl.seen && Later(w[(c.username, f)], v[(c.username, f)])
    ensures RefreshShown(fl, w, c, f) <= RefreshShown(g, v, c, f)
    ensures RefreshOver(fl, w, c, f) ==> RefreshOver(g, v, c, f)
  {
    hide FlightOk, LiveMatched, Snapshot;
  }

  lemma NextFrameGrows(cands: seq<Candidate>, t: Tick, cache: Cache, w: World, e: EnvStep)
    requires Tracked(cands, w) && TickFits(cands, t, w) && cache.states.Keys == w.Keys && WorldOk(w)
    ensures Tracked(cands, EnvNext(w, e)) && EnvNext(w, e).Keys == w.Keys
    ensures var t' := Tick(StirFlight(t.flight, e), t.stage);
            && TickFits(cands, t', EnvNext(w, e))
            && var (a, b) := (NextFrame(cands, t, cache, w), NextFrame(cands, t', cache, EnvNext(w, e)));
               Forward(a, b) && (t.stage.Ready? || t.stage.Framed? ==> a == b)
  {
    hide EnvNext, FlightOk, BytesOk, ScreenOk, Snapshot, LiveMatchedFileSet, RefreshFrame, Frames, StirFlight, Tracked;
    TickOn(cands, t, w, e);
    AllStepLater(w, e);
    StirsOnly(t.flight, e);
    RefreshFrameGrows(cands, t.flight, w, e);
  }

  lemma StirsOnly(fl: Flight, e: EnvStep)
    ensures StirFlight(fl, e) == fl.(stirred := Stirs(fl.stirred, e))
  {
  }

  lemma MoveIsGood(cands: seq<Candidate>, h: Hub, e: EnvStep)
    requires Calm(cands, h)
    ensures Calm(cands, Step(cands, h, Moves(e)))
  {
    hide EnvNext, CacheOk, BasisOk, WorldOk, Settled, FlightFits, TickFits, ScreenOk, Tracked, NextFrame, Forward,
         StirFlight;
    var z := Step(cands, h, Moves(e));
    MoveKeepsHub(cands, h, e);
    HubDomains(cands, h);
    HubDomains(cands, z);
    AllStepLater(h.w, e);
    if h.tick.Some? {
      var t := h.tick.value;
      NextFrameGrows(cands, t, h.cache, h.w, e);
      NextFrameDomain(cands, t, h.cache, h.w);
      ForwardOn(h.screen, NextFrame(cands, t, h.cache, h.w), NextFrame(cands, z.tick.value, h.cache, z.w));
      if t.stage.Ready? || t.stage.Framed? {
        SettledOn(cands, NextFrame(cands, t, h.cache, h.w), h.cache, h.w, z.w);
      }
    } else {
      SettledOn(cands, h.screen, h.cache, h.w, z.w);
    }
  }

  lemma LaterReflexive(w: World)
    ensures AllLater(w, w)
  {
  }

  /** One file of a frame: not behind what was shown before, and not ahead of anything now. */
  lemma ShownAdvances(shown: int, over: bool, cached: int, rowState: TransferState, v: FileState, w: FileState)
    requires Kept(shown, over, v.live.Some?, cached, Terminal(rowState), v) && Later(v, w) && FileOk(w)
    requires cached <= w.bytes && (Terminal(rowState) ==> Terminal(w.state))
    ensures var shown' := if v.live.Some? then v.live.value.bytes else cached;
            var over' := Terminal(ShownState(rowState, if v.live.Some? then Some(v.live.value.state) else None));
            && shown <= shown' && (over ==> over')
            && shown' <= Value(w) && (over' ==> Over(w))
            && Kept(shown', over', v.live.Some?, cached, Terminal(rowState), w)
  {
  }

  /** A frame of the present, from a cache that has the present matches, goes forward. */
  lemma FileAdvances(cands: seq<Candidate>, h: Hub, c: Candidate, f: string)
    requires HubOk(cands, h) && c in cands && f in c.files
    requires h.cache.matched == LiveMatchedFileSet(cands, Snapshot(h.w)) && AllKept(cands, h.screen, h.cache, h.w)
    ensures var k := (c.username, f);
            && k in h.cache.states && k in h.w && (c, f) in h.screen.shown
            && h.screen.shown[(c, f)] <= Shown(h.cache, h.w, c, f)
            && ((c, f) in h.screen.over ==> Terminal(StateShown(h.cache, h.w, c, f)))
  {
    hide HasMatch, Cached, Snapshot, LiveMatchedFileSet, Kept, Later, IdleKept, BasisOk, Held, Over, Value, FileOk,
         BytesOk, Shown, FlightFits, TickFits;
    var k := (c.username, f);
    HubDomains(cands, h);
    LaterReflexive(h.w);
    MatchMeansLive(cands, h.cache, h.w, c);
    ShownAgrees(cands, h.cache, h.w, h.w, c, f);
    CacheIsBehind(cands, h.cache, h.w, c, f);
    ShownAdvances(h.screen.shown[(c, f)], (c, f) in h.screen.over, Cached(h.cache, c, f), h.cache.states[k], h.w[k],
                  h.w[k]);
  }

  lemma PresentFrame(cands: seq<Candidate>, h: Hub)
    requires HubOk(cands, h)
    requires h.cache.matched == LiveMatchedFileSet(cands, Snapshot(h.w)) && Settled(cands, h.screen, h.cache, h.w)
    ensures Tracked(cands, h.w) && h.cache.states.Keys == h.w.Keys
    ensures forall c, f | c in cands && f in c.files :: (c.username, f) in h.w && (c.username, f) in h.cache.states
    ensures Forward(h.screen, Frames(cands, h.cache, h.w))
  {
    hide HubOk, Shown, StateShown, Kept, Cached, LiveMatchedFileSet, Snapshot, Frames, CanMatch, AllKept;
    HubDomains(cands, h);
    FrameDomain(cands, h.cache, h.w);
    MatchedCanMatch(cands, h.w);
    forall c, f | c in cands && f in c.files
      ensures h.screen.shown[(c, f)] <= Frames(cands, h.cache, h.w).shown[(c, f)]
      ensures (c, f) in h.screen.over ==> (c, f) in Frames(cands, h.cache, h.w).over
    {
      FileAdvances(cands, h, c, f);
    }
  }

  /** A refresh of the present goes forward. */
  lemma PresentRefresh(cands: seq<Candidate>, h: Hub)
    requires HubOk(cands, h)
    ensures Tracked(cands, h.w) && FlightOk(Fetch(h, true), h.w)
    ensures Forward(h.screen, RefreshFrame(cands, Fetch(h, true), h.w))
  {
    hide CacheOk, BasisOk, FlightFits, TickFits, FlightOk, LiveMatched, Snapshot;
    FetchOk(h, true);
  }

  lemma AfterFetch(cands: seq<Candidate>, h: Hub, ok: bool)
    requires HubOk(cands, h)
    ensures Step(cands, h, TickFetches(ok))
         == if h.tick.None? then h.(tick := Some(Tick(Fetch(h, ok), Fetched))) else h
  {
    hide HubOk;
  }

  lemma FetchIsGood(cands: seq<Candidate>, h: Hub)
    requires Calm(cands, h)
    ensures Calm(cands, Step(cands, h, TickFetches(true)))
  {
    hide HubOk, Step, FlightOk, Settled, LiveMatchedFileSet, Snapshot, Tracked, RefreshFrame, Frames, Forward, BytesOk;
    CalmHub(cands, h);
    FlightStepKeepsHub(cands, h, TickFetches(true));
    AfterFetch(cands, h, true);
    HubDomains(cands, h);
    HubDomains(cands, Step(cands, h, TickFetches(true)));
    PresentRefresh(cands, h);
    if h.tick.None? && h.cache.matched == LiveMatchedFileSet(cands, Snapshot(h.w)) {
      PresentFrame(cands, h);
    }
  }

  /** Begun and read by other refreshes, nothing changes for the tick. */
  lemma OthersAreGood(cands: seq<Candidate>, h: Hub, e: Event)
    requires Calm(cands, h) && (e.Begins? || e.Reads?)
    ensures Calm(cands, Step(cands, h, e))
  {
    FlightStepKeepsHub(cands, h, e);
    HubDomains(cands, h);
    hide HubOk, Settled, NextFrame, Tracked, Forward;
  }

  lemma CommitIsGood(cands: seq<Candidate>, h: Hub, id: nat)
    requires Calm(cands, h) && Good(cands, h, Commits(id))
    ensures Calm(cands, Step(cands, h, Commits(id)))
  {
    CommitStepKeepsHub(cands, h, Commits(id));
    HubDomains(cands, h);
    HubDomains(cands, Step(cands, h, Commits(id)));
    hide CacheOk, BasisOk, WorldOk, Settled, ScreenOk, Tracked, RowsGrow, FlightOk, CacheOf, NextFrame, Forward,
         FlightFits, TickFits;
  }

  // ---------------------------------------------------------------- a tick on its way

  lemma FileSettles(v: FileState, w: FileState, cached: int, rowState: TransferState)
    requires (v.live.Some? ==> Later(v, w)) && FileOk(w)
    requires cached <= w.bytes && (Terminal(rowState) ==> Terminal(w.state))
    ensures Kept(if v.live.Some? then v.live.value.bytes else cached,
                 Terminal(ShownState(rowState, if v.live.Some? then Some(v.live.value.state) else None)),
                 v.live.Some?, cached, Terminal(rowState), w)
  {
  }

  /** A frame from a cache that has the tick's own matches leaves that cache settled. */
  lemma AgreedFrameSettles(cands: seq<Candidate>, h: Hub, fl: Flight)
    requires HubOk(cands, h) && FlightOk(fl, h.w) && Agrees(cands, h.cache, fl)
    ensures Tracked(cands, h.w) && Tracked(cands, fl.snap) && h.cache.states.Keys == h.w.Keys == fl.snap.Keys
    ensures Frames(cands, h.cache, fl.snap).shown.Keys == AllFiles(cands)
    ensures Settled(cands, Frames(cands, h.cache, fl.snap), h.cache, h.w)
  {
    hide HasMatch, Cached, Snapshot, LiveMatchedFileSet, Kept, Later, IdleKept, BasisOk, Held, FileOk, BytesOk, Shown,
         FlightFits, TickFits, Frames, AllLater, CanMatch, Terminal;
    assert Tracked(cands, fl.snap);
    FrameDomain(cands, h.cache, fl.snap);
    var t := Frames(cands, h.cache, fl.snap);
    forall c, f | c in cands && f in c.files
      ensures Kept(t.shown[(c, f)], (c, f) in t.over, (c.id, f) in h.cache.matched, Cached(h.cache, c, f),
                   Terminal(h.cache.states[(c.username, f)]), h.w[(c.username, f)])
    {
      var k := (c.username, f);
      MatchMeansLive(cands, h.cache, fl.snap, c);
      ShownAgrees(cands, h.cache, fl.snap, h.w, c, f);
      CacheIsBehind(cands, h.cache, h.w, c, f);
      SnapIsBehind(cands, fl, h.w, c, f);
      FileSettles(fl.snap[k], h.w[k], Cached(h.cache, c, f), h.cache.states[k]);
    }
  }

  lemma AfterCompare(cands: seq<Candidate>, h: Hub)
    requires HubOk(cands, h) && h.tick.Some? && h.tick.value.stage == Fetched
    ensures var (z, fl) := (Step(cands, h, TickCompares), h.tick.value.flight);
            z == h.(tick := Some(Tick(fl, if Agrees(cands, h.cache, fl) then Ready else Refreshing)))
  {
    hide HubOk, Agrees;
  }

  lemma AfterRead(cands: seq<Candidate>, h: Hub)
    requires HubOk(cands, h) && h.tick.Some? && h.tick.value.stage == Refreshing && |h.tick.value.flight.seen| < 3
    ensures Step(cands, h, TickReads) == h.(tick := Some(Tick(ReadNext(h, h.tick.value.flight), Refreshing)))
  {
    hide HubOk;
  }

  lemma AfterTickCommit(cands: seq<Candidate>, h: Hub)
    requires HubOk(cands, h) && h.tick.Some? && h.tick.value.stage == Refreshing && |h.tick.value.flight.seen| == 3
    ensures var (z, fl) := (Step(cands, h, TickCommits), h.tick.value.flight);
            && Tracked(cands, fl.seen[2])
            && z == h.(cache := CacheOf(cands, fl), basis := fl.snap, basisOk := fl.ok, stirred := fl.stirred,
                       tick := Some(Tick(fl, Ready)))
  {
    hide CacheOk, BasisOk, WorldOk, FlightFits, ScreenOk, BytesOk, AllLater, IdleKept, CacheOf;
    assert RowsGrow(h.tick.value.flight.seen[2], h.w);
  }

  lemma AfterFrames(cands: seq<Candidate>, h: Hub)
    requires HubOk(cands, h) && h.tick.Some? && h.tick.value.stage == Ready
    ensures var fl := h.tick.value.flight;
            && Tracked(cands, fl.snap) && h.cache.states.Keys == fl.snap.Keys
            && Step(cands, h, TickFrames) == h.(tick := Some(Tick(fl, Framed(Frames(cands, h.cache, fl.snap)))))
  {
    HubDomains(cands, h);
    hide HubOk, Frames;
  }

  lemma AfterShow(cands: seq<Candidate>, h: Hub)
    requires HubOk(cands, h) && h.tick.Some? && h.tick.value.stage.Framed?
    ensures Step(cands, h, TickShows) == h.(tick := None, frames := h.frames + 1, screen := h.tick.value.stage.frame)
  {
    hide HubOk;
  }

  lemma CompareDecidesNothing(cands: seq<Candidate>, h: Hub)
    requires HubOk(cands, h) && h.tick.Some? && h.tick.value.stage == Fetched && h.cache.states.Keys == h.w.Keys
    ensures var z := Step(cands, h, TickCompares);
            && HubOk(cands, z) && z.screen == h.screen && z.cache == h.cache && z.w == h.w
            && z.tick.Some? && z.tick.value.flight == h.tick.value.flight
            && z.tick.value.stage == (if Agrees(cands, h.cache, h.tick.value.flight) then Ready else Refreshing)
            && NextFrame(cands, z.tick.value, z.cache, z.w) == NextFrame(cands, h.tick.value, h.cache, h.w)
            && NextFrame(cands, z.tick.value, z.cache, z.w).shown.Keys == AllFiles(cands)
            && (z.tick.value.stage == Ready ==>
                  Settled(cands, NextFrame(cands, z.tick.value, z.cache, z.w), z.cache, z.w))
            && (Harmless(cands, z, z.cache) <==> Harmless(cands, h, h.cache))
  {
    hide HubOk, Step, FlightOk, BytesOk, Settled, Agrees, Tracked, RefreshFrame, Frames, Forward;
    FlightStepKeepsHub(cands, h, TickCompares);
    AfterCompare(cands, h);
    HubDomains(cands, h);
    NextFrameDomain(cands, h.tick.value, h.cache, h.w);
    if Agrees(cands, h.cache, h.tick.value.flight) {
      AgreedFrameSettles(cands, h, h.tick.value.flight);
    }
  }

  lemma ReadDecidesNothing(cands: seq<Candidate>, h: Hub)
    requires HubOk(cands, h) && h.tick.Some? && h.tick.value.stage == Refreshing && |h.tick.value.flight.seen| < 3
    requires h.cache.states.Keys == h.w.Keys
    ensures var z := Step(cands, h, TickReads);
            && HubOk(cands, z) && z.screen == h.screen && z.cache == h.cache && z.w == h.w && z.tick.Some?
            && z.tick.value.stage == Refreshing && |z.tick.value.flight.seen| == |h.tick.value.flight.seen| + 1
            && NextFrame(cands, z.tick.value, z.cache, z.w) == NextFrame(cands, h.tick.value, h.cache, h.w)
            && (Harmless(cands, z, z.cache) <==> Harmless(cands, h, h.cache))
  {
    hide HubOk, Step, FlightOk, BytesOk, Settled, Agrees, Tracked, RefreshFrame, Frames, Forward, ReadNext;
    FlightStepKeepsHub(cands, h, TickReads);
    AfterRead(cands, h);
    HubDomains(cands, h);
    HubDomains(cands, Step(cands, h, TickReads));
    ReadKeepsFrame(cands, h, h.tick.value.flight);
  }

  lemma ReadKeepsFrame(cands: seq<Candidate>, h: Hub, fl: Flight)
    requires Tracked(cands, h.w) && WorldOk(h.w) && FlightOk(fl, h.w) && |fl.seen| < 3
    ensures FlightOk(ReadNext(h, fl), h.w)
    ensures RefreshFrame(cands, ReadNext(h, fl), h.w) == RefreshFrame(cands, fl, h.w)
    ensures |ReadNext(h, fl).seen| == |fl.seen| + 1
  {
    hide FlightOk, RefreshShown, RefreshOver, RefreshState, ReadNext;
    ReadOk(h, fl);
    ReadIsThere(h, fl);
    var g := ReadNext(h, fl);
    forall p | p in AllFiles(cands)
      ensures p.0 in cands && p.1 in p.0.files
      ensures RefreshShown(g, h.w, p.0, p.1) == RefreshShown(fl, h.w, p.0, p.1)
      ensures RefreshOver(g, h.w, p.0, p.1) <==> RefreshOver(fl, h.w, p.0, p.1)
      ensures RefreshState(g, h.w, p.0, p.1) == RefreshState(fl, h.w, p.0, p.1)
    {
      ReadKeepsFile(fl, g, h.w, p.0, p.1);
    }
  }

  lemma ReadIsThere(h: Hub, fl: Flight)
    requires |fl.seen| < 3
    ensures var g := ReadNext(h, fl);
            && g.snap == fl.snap && |g.seen| == |fl.seen| + 1
            && forall i | 0 <= i < 3 :: ReadAt(g, i, h.w) == ReadAt(fl, i, h.w)
  {
  }

  lemma ReadKeepsFile(fl: Flight, g: Flight, w: World, c: Candidate, f: string)
    requires FlightOk(fl, w) && FlightOk(g, w) && (c.username, f) in w && g.snap == fl.snap
    requires forall i | 0 <= i < 3 :: ReadAt(g, i, w) == ReadAt(fl, i, w)
    ensures RefreshShown(g, w, c, f) == RefreshShown(fl, w, c, f)
    ensures RefreshOver(g, w, c, f) <==> RefreshOver(fl, w, c, f)
    ensures RefreshState(g, w, c, f) == RefreshState(fl, w, c, f)
  {
    hide FlightOk, LiveMatched, Snapshot, ShownState, ReadAt;
  }

  /** What a finished refresh serves for one file. */
  lemma RefreshServesFile(cands: seq<Candidate>, fl: Flight, w: World, c: Candidate, f: string)
    requires Tracked(cands, w) && FlightOk(fl, w) && |fl.seen| == 3 && c in cands && f in c.files
    ensures Tracked(cands, fl.seen[2]) && (c.username, f) in fl.snap && (c.username, f) in CacheOf(cands, fl).states
    ensures Shown(CacheOf(cands, fl), fl.snap, c, f) == RefreshShown(fl, w, c, f)
    ensures StateShown(CacheOf(cands, fl), fl.snap, c, f) == RefreshState(fl, w, c, f)
    ensures Terminal(StateShown(CacheOf(cands, fl), fl.snap, c, f)) <==> RefreshOver(fl, w, c, f)
  {
    hide FlightOk, Refreshed, Tracked, HasMatch, LiveMatched, Snapshot, LiveMatchedFileSet;
    CommitHas(cands, fl, w);
    var cache := CacheOf(cands, fl);
    MatchMeansLive(cands, cache, fl.snap, c);
    RefreshServes(cands, fl.prev, fl.snap, fl.seen[0], fl.seen[1], fl.seen[2], c);
    LiveIsMatched(fl.snap, c, f);
  }

  lemma LiveIsMatched(snap: World, c: Candidate, f: string)
    requires f in c.files && (c.username, f) in snap
    ensures snap[(c.username, f)].live.Some? ==> LiveMatched(c.username, c.files, Snapshot(snap))
  {
    var i :| 0 <= i < |c.files| && c.files[i] == f;
  }

  lemma RefreshIsShown(cands: seq<Candidate>, fl: Flight, w: World)
    requires Tracked(cands, w) && FlightOk(fl, w) && |fl.seen| == 3
    ensures Tracked(cands, fl.seen[2]) && Tracked(cands, fl.snap) && CacheOf(cands, fl).states.Keys == fl.snap.Keys
    ensures Frames(cands, CacheOf(cands, fl), fl.snap) == RefreshFrame(cands, fl, w)
  {
    hide CacheOf, FlightOk, Shown, StateShown, RefreshShown, RefreshOver, RefreshState, RowsGrow;
    CommitHas(cands, fl, w);
    var (s, t) := (Frames(cands, CacheOf(cands, fl), fl.snap), RefreshFrame(cands, fl, w));
    FrameDomain(cands, CacheOf(cands, fl), fl.snap);
    forall p | p in AllFiles(cands)
      ensures s.shown[p] == t.shown[p] && s.states[p] == t.states[p] && (p in s.over <==> p in t.over)
    {
      RefreshServesFile(cands, fl, w, p.0, p.1);
    }
    assert s.shown == t.shown && s.states == t.states && s.over == t.over;
  }

  lemma TickCommitDecidesNothing(cands: seq<Candidate>, h: Hub)
    requires HubOk(cands, h) && h.tick.Some? && h.tick.value.stage == Refreshing && |h.tick.value.flight.seen| == 3
    requires h.cache.states.Keys == h.w.Keys
    ensures var z := Step(cands, h, TickCommits);
            && HubOk(cands, z) && z.screen == h.screen && z.w == h.w && z.cache.states.Keys == z.w.Keys
            && z.tick == Some(Tick(h.tick.value.flight, Ready))
            && NextFrame(cands, z.tick.value, z.cache, z.w) == NextFrame(cands, h.tick.value, h.cache, h.w)
            && NextFrame(cands, z.tick.value, z.cache, z.w).shown.Keys == AllFiles(cands)
            && Settled(cands, NextFrame(cands, z.tick.value, z.cache, z.w), z.cache, z.w)
            && (Harmless(cands, z, z.cache) <==> Harmless(cands, h, h.cache))
  {
    hide HubOk, Step, FlightOk, BytesOk, Settled, Tracked, RefreshFrame, Frames, Forward, CacheOf;
    CommitStepKeepsHub(cands, h, TickCommits);
    AfterTickCommit(cands, h);
    HubDomains(cands, h);
    var z := Step(cands, h, TickCommits);
    HubDomains(cands, z);
    RefreshIsShown(cands, h.tick.value.flight, h.w);
    CommitHas(cands, h.tick.value.flight, h.w);
    AgreedFrameSettles(cands, z, h.tick.value.flight);
  }

  lemma FrameDecidesNothing(cands: seq<Candidate>, h: Hub)
    requires HubOk(cands, h) && h.tick.Some? && h.tick.value.stage == Ready && h.cache.states.Keys == h.w.Keys
    ensures var z := Step(cands, h, TickFrames);
            && HubOk(cands, z) && z.screen == h.screen && z.cache == h.cache && z.w == h.w && z.tick.Some?
            && z.tick.value.stage.Framed?
            && NextFrame(cands, z.tick.value, z.cache, z.w) == NextFrame(cands, h.tick.value, h.cache, h.w)
            && (Harmless(cands, z, z.cache) <==> Harmless(cands, h, h.cache))
  {
    hide HubOk, Step, FlightOk, BytesOk, Settled, Tracked, Frames, Forward, ScreenOk;
    FrameKeepsHub(cands, h);
    AfterFrames(cands, h);
    HubDomains(cands, h);
    HubDomains(cands, Step(cands, h, TickFrames));
  }

  /** Whether a tick is where the event finds it. */
  predicate AtStage(h: Hub, e: Event) {
    h.tick.Some? &&
    match e
    case TickCompares => h.tick.value.stage == Fetched
    case TickReads => h.tick.value.stage == Refreshing && |h.tick.value.flight.seen| < 3
    case TickCommits => h.tick.value.stage == Refreshing && |h.tick.value.flight.seen| == 3
    case TickFrames => h.tick.value.stage == Ready
    case _ => false
  }

  lemma OffStageIsIdle(cands: seq<Candidate>, h: Hub, e: Event)
    requires HubOk(cands, h) && (e.TickCompares? || e.TickReads? || e.TickCommits? || e.TickFrames?) && !AtStage(h, e)
    ensures Step(cands, h, e) == h
  {
    hide HubOk;
  }

  lemma TickIsGood(cands: seq<Candidate>, h: Hub, e: Event)
    requires Calm(cands, h) && (e.TickCompares? || e.TickReads? || e.TickCommits? || e.TickFrames?)
    ensures Calm(cands, Step(cands, h, e))
  {
    hide Harmless, HubOk, Step, NextFrame, Settled;
    CalmHub(cands, h);
    HubDomains(cands, h);
    if !AtStage(h, e) {
      OffStageIsIdle(cands, h, e);
    } else {
      match e
      case TickCompares => CompareDecidesNothing(cands, h);
      case TickReads => ReadDecidesNothing(cands, h);
      case TickCommits => TickCommitDecidesNothing(cands, h);
      case TickFrames => FrameDecidesNothing(cands, h);
    }
  }

  lemma ShowIsGood(cands: seq<Candidate>, h: Hub)
    requires Calm(cands, h)
    ensures var z := Step(cands, h, TickShows); Calm(cands, z) && Forward(h.screen, z.screen)
  {
    hide HubOk, Step, Settled, Tracked, FlightOk, BytesOk, Forward, ScreenOk;
    CalmHub(cands, h);
    HubDomains(cands, h);
    if h.tick.Some? && h.tick.value.stage.Framed? {
      ShowKeepsHub(cands, h);
      AfterShow(cands, h);
      HubDomains(cands, Step(cands, h, TickShows));
    } else {
      NoShow(cands, h);
      ForwardSame(h.screen);
    }
  }

  lemma ForwardSame(s: Screen)
    ensures Forward(s, s)
  {
  }

  lemma NoShow(cands: seq<Candidate>, h: Hub)
    requires HubOk(cands, h) && (h.tick.None? || !h.tick.value.stage.Framed?)
    ensures Step(cands, h, TickShows) == h
  {
    hide HubOk;
  }

  lemma CalmHub(cands: seq<Candidate>, h: Hub)
    requires Calm(cands, h)
    ensures HubOk(cands, h)
  {
  }

  /** Only a frame changes what is shown. */
  lemma UnlessShown(cands: seq<Candidate>, h: Hub, e: Event)
    requires HubOk(cands, h)
    ensures !e.TickShows? ==> Step(cands, h, e).screen == h.screen
  {
    hide HubOk;
  }

  /** A good step keeps the run calm and takes nothing back. */
  lemma StepIsGood(cands: seq<Candidate>, h: Hub, e: Event)
    requires Calm(cands, h) && Good(cands, h, e)
    ensures var z := Step(cands, h, e); Calm(cands, z) && Forward(h.screen, z.screen)
  {
    hide Step, Harmless, CacheOf, HubOk;
    CalmHub(cands, h);
    UnlessShown(cands, h, e);
    match e
    case Moves(s) => MoveIsGood(cands, h, s);
    case TickFetches(ok) =>
      if ok {
        FetchIsGood(cands, h);
      } else if h.tick.Some? {
        NoFetch(cands, h, e);
      }
    case Commits(id) => CommitIsGood(cands, h, id);
    case TickShows => ShowIsGood(cands, h);
    case Begins(_, _) => OthersAreGood(cands, h, e);
    case Reads(_) => OthersAreGood(cands, h, e);
    case _ => TickIsGood(cands, h, e);
  }

  lemma NoFetch(cands: seq<Candidate>, h: Hub, e: Event)
    requires HubOk(cands, h) && h.tick.Some? && e.TickFetches?
    ensures Step(cands, h, e) == h
  {
    hide HubOk;
  }

  // ---------------------------------------------------------------- whole runs

  ghost function Run(cands: seq<Candidate>, h: Hub, es: seq<Event>): (z: Hub)
    requires HubOk(cands, h)
    ensures HubOk(cands, z)
    decreases |es|
  {
    if es == [] then h else Run(cands, Next(cands, h, es[0]), es[1..])
  }

  ghost predicate GoodRun(cands: seq<Candidate>, h: Hub, es: seq<Event>)
    requires HubOk(cands, h)
    decreases |es|
  {
    es == [] || (Good(cands, h, es[0]) && GoodRun(cands, Next(cands, h, es[0]), es[1..]))
  }

  lemma FinishedIsOver(cands: seq<Candidate>, h: Hub)
    requires HubOk(cands, h)
    ensures h.screen.states.Keys == AllFiles(cands)
    ensures forall p | p in h.screen.states ::
              p in h.screen.over <==> h.screen.states[p] in {Completed, Errored, Cancelled}
  {
    hide BasisOk, CacheOk, WorldOk, FlightFits, TickFits, Held;
  }

  lemma {:induction false} GoodRunsGoForward(cands: seq<Candidate>, h: Hub, es: seq<Event>)
    requires Calm(cands, h) && GoodRun(cands, h, es)
    ensures var z := Run(cands, h, es); Calm(cands, z) && Forward(h.screen, z.screen)
    decreases |es|
  {
    hide Calm, Good, Step;
    CalmHub(cands, h);
    if es != [] {
      StepIsGood(cands, h, es[0]);
      CalmHub(cands, Next(cands, h, es[0]));
      GoodRunsGoForward(cands, Next(cands, h, es[0]), es[1..]);
    }
  }

  /**
   Over every run in which whatever other refreshes commit, and every tick that fails to fetch, is
   harmless: no count shown goes down, and no file shown as completed, errored or cancelled is shown
   in any other state than those.
  */
  lemma ShownNeverGoesBack(cands: seq<Candidate>, h: Hub, es: seq<Event>)
    requires Calm(cands, h) && GoodRun(cands, h, es)
    ensures var z := Run(cands, h, es);
            && Calm(cands, z) && Forward(h.screen, z.screen)
            && (forall p | p in h.screen.shown :: p in z.screen.shown && h.screen.shown[p] <= z.screen.shown[p])
            && (forall p | p in h.screen.states && h.screen.states[p] in {Completed, Errored, Cancelled} ::
                  p in z.screen.states && z.screen.states[p] in {Completed, Errored, Cancelled})
  {
    hide Calm, HubOk, Run;
    CalmHub(cands, h);
    GoodRunsGoForward(cands, h, es);
    FinishedIsOver(cands, h);
    FinishedIsOver(cands, Run(cands, h, es));
  }

  /** The album total of what was last shown. */
  ghost function ShownTotal(s: Screen, c: Candidate): int {
    Total(c.files, map f | f in c.files && (c, f) in s.shown :: s.shown[(c, f)])
  }

  lemma TotalsFollow(cands: seq<Candidate>, s: Screen, t: Screen, c: Candidate)
    requires Forward(s, t) && s.shown.Keys == AllFiles(cands) && c in cands
    ensures ShownTotal(s, c) <= ShownTotal(t, c)
  {
    TotalMonotone(c.files, map f | f in c.files && (c, f) in s.shown :: s.shown[(c, f)],
                  map f | f in c.files && (c, f) in t.shown :: t.shown[(c, f)]);
  }

  /** Then no album total goes down either. */
  lemma TotalNeverGoesBack(cands: seq<Candidate>, h: Hub, es: seq<Event>, c: Candidate)
    requires Calm(cands, h) && GoodRun(cands, h, es) && c in cands
    ensures ShownTotal(h.screen, c) <= ShownTotal(Run(cands, h, es).screen, c)
  {
    hide Calm, HubOk, Forward, Run, ShownTotal;
    CalmHub(cands, h);
    ShownNeverGoesBack(cands, h, es);
    HubDomains(cands, h);
    TotalsFollow(cands, h.screen, Run(cands, h, es).screen, c);
  }

  /**
   A condition on the schedule alone: ticks fetch the live transfers, or nothing is matched anyway, and
   another refresh commits between ticks, with its fetch answered and no frame shown since.
  */
  ghost predicate InOrder(h: Hub, e: Event) {
    && (e.TickFetches? ==> e.ok || h.cache.matched == {})
    && (e.Commits? && e.id in h.flights ==>
          h.tick.None? && h.flights[e.id].ok && h.flights[e.id].begun == h.frames)
  }

  ghost predicate InOrderRun(cands: seq<Candidate>, h: Hub, es: seq<Event>)
    requires HubOk(cands, h)
    decreases |es|
  {
    es == [] || (InOrder(h, es[0]) && InOrderRun(cands, Next(cands, h, es[0]), es[1..]))
  }

  /** What a refresh brings is behind nothing that was shown when it took its snapshot. */
  lemma CommitIsKept(cands: seq<Candidate>, h: Hub, fl: Flight)
    requires HubOk(cands, h) && FlightFits(cands, fl, h.screen, h.frames, h.w) && |fl.seen| == 3
    requires fl.ok && fl.begun == h.frames
    ensures Tracked(cands, fl.seen[2]) && CacheOf(cands, fl).states.Keys == h.w.Keys
    ensures Tracked(cands, h.w) && RowsGrow(fl.seen[2], h.w) && AllKept(cands, h.screen, CacheOf(cands, fl), h.w)
  {
    hide CacheOk, BasisOk, BytesOk, IdleKept, TickFits, HasMatch, Cached, Kept, Later, Over, Value, LiveMatchedFileSet,
         Snapshot, Refreshed;
    CommittedCache(cands, h.w, fl);
    assert RowsGrow(fl.seen[1], h.w) && RowsGrow(fl.seen[2], h.w);
    var cache := CacheOf(cands, fl);
    CommitHas(cands, fl, h.w);
    forall c, f | c in cands && f in c.files
      ensures Kept(h.screen.shown[(c, f)], (c, f) in h.screen.over, (c.id, f) in cache.matched, Cached(cache, c, f),
                   Terminal(cache.states[(c.username, f)]), h.w[(c.username, f)])
    {
      var k := (c.username, f);
      MatchMeansLive(cands, cache, fl.snap, c);
      KeptByRefresh(h.screen.shown[(c, f)], (c, f) in h.screen.over, fl.snap[k], h.w[k], Cached(cache, c, f),
                    Terminal(cache.states[k]));
    }
  }

  lemma CommitHas(cands: seq<Candidate>, fl: Flight, w: World)
    requires Tracked(cands, w) && FlightOk(fl, w) && |fl.seen| == 3
    ensures Tracked(cands, fl.seen[2]) && Tracked(cands, fl.snap)
    ensures CacheOf(cands, fl).matched == LiveMatchedFileSet(cands, Snapshot(fl.snap))
    ensures CacheOf(cands, fl).rows == Rows(fl.seen[0]) && CacheOf(cands, fl).states == States(fl.seen[1])
    ensures fl.snap.Keys == fl.seen[0].Keys == fl.seen[1].Keys == fl.seen[2].Keys == w.Keys
  {
    assert RowsGrow(fl.seen[0], w) && RowsGrow(fl.seen[1], w) && RowsGrow(fl.seen[2], w);
  }

  /** A tick that finds nothing live, rightly or not, while nothing is matched, shows the rows it showed. */
  lemma IdleFetchIsHarmless(cands: seq<Candidate>, h: Hub)
    requires Calm(cands, h) && h.tick.None? && h.cache.matched == {}
    ensures Good(cands, h, TickFetches(false))
  {
    hide HubOk, Step, FlightOk, Settled, LiveMatchedFileSet, Snapshot, Tracked, RefreshFrame, Frames, Forward, BytesOk,
         AllKept;
    CalmHub(cands, h);
    HubDomains(cands, h);
    FetchOk(h, false);
    NothingMatched(cands, Fetch(h, false), h.w);
    SettledWhenIdle(cands, h);
    IdleFrame(cands, h);
    AfterFetch(cands, h, false);
    HubDomains(cands, Next(cands, h, TickFetches(false)));
  }

  lemma SettledWhenIdle(cands: seq<Candidate>, h: Hub)
    requires Calm(cands, h) && h.tick.None? && h.cache.matched == {}
    ensures HubOk(cands, h) && Tracked(cands, h.w) && h.screen.shown.Keys == AllFiles(cands)
    ensures h.cache.states.Keys == h.w.Keys && AllKept(cands, h.screen, h.cache, h.w)
  {
    HubDomains(cands, h);
    assert CanMatch(cands, {}, h.w);
    hide HubOk, AllKept;
  }

  lemma NothingMatched(cands: seq<Candidate>, fl: Flight, w: World)
    requires FlightOk(fl, w) && !fl.ok
    ensures LiveMatchedFileSet(cands, Snapshot(fl.snap)) == {}
  {
    hide WorldOk, RowsGrow;
    assert forall k :: k !in Snapshot(fl.snap).byFallback;
  }

  /** Without a match the rows are what a frame shows. */
  lemma RowsAreShown(cache: Cache, v: World, c: Candidate, f: string)
    requires cache.matched == {} && (c.username, f) in v && forall k | k in v :: v[k].live.None?
    requires (c.username, f) in cache.rows && (c.username, f) in cache.states
    ensures Shown(cache, v, c, f) == Cached(cache, c, f) == cache.rows[(c.username, f)]
    ensures StateShown(cache, v, c, f) == cache.states[(c.username, f)]
  {
    assert forall k :: k !in Snapshot(v).byFallback;
  }

  lemma IdleFrame(cands: seq<Candidate>, h: Hub)
    requires HubOk(cands, h) && Tracked(cands, h.w) && h.screen.shown.Keys == AllFiles(cands)
    requires h.cache.states.Keys == h.w.Keys && AllKept(cands, h.screen, h.cache, h.w) && h.cache.matched == {}
    ensures Tracked(cands, Seen(h.w, false)) && h.cache.states.Keys == Seen(h.w, false).Keys
    ensures Forward(h.screen, Frames(cands, h.cache, Seen(h.w, false)))
  {
    hide HubOk, Shown, StateShown, Cached, Frames;
    HubDomains(cands, h);
    FrameDomain(cands, h.cache, Seen(h.w, false));
    forall c, f | c in cands && f in c.files
      ensures h.screen.shown[(c, f)] <= Frames(cands, h.cache, Seen(h.w, false)).shown[(c, f)]
      ensures (c, f) in h.screen.over ==> (c, f) in Frames(cands, h.cache, Seen(h.w, false)).over
    {
      RowsAreShown(h.cache, Seen(h.w, false), c, f);
    }
  }

  lemma OrderlyCommitIsGood(cands: seq<Candidate>, h: Hub, id: nat)
    requires Calm(cands, h) && h.tick.None? && id in h.flights && |h.flights[id].seen| == 3
    requires h.flights[id].ok && h.flights[id].begun == h.frames
    ensures Good(cands, h, Commits(id))
  {
    CalmHub(cands, h);
    HubDomains(cands, h);
    assert FlightFits(cands, h.flights[id], h.screen, h.frames, h.w);
    CommitIsKept(cands, h, h.flights[id]);
    hide HubOk, CacheOf, AllKept, CanMatch, Tracked, RowsGrow;
  }

  lemma InOrderIsGood(cands: seq<Candidate>, h: Hub, e: Event)
    requires Calm(cands, h) && InOrder(h, e)
    ensures Good(cands, h, e)
  {
    hide Calm, HubOk, Harmless, CacheOf, RowsGrow;
    CalmHub(cands, h);
    if e.Commits? && e.id in h.flights && |h.flights[e.id].seen| == 3 {
      OrderlyCommitIsGood(cands, h, e.id);
    }
    if e.TickFetches? && !e.ok && h.tick.None? {
      IdleFetchIsHarmless(cands, h);
    }
  }

  /** Refreshes that do not overlap the ticks never take anything back. */
  lemma {:induction false} OrderlyRunsAreGood(cands: seq<Candidate>, h: Hub, es: seq<Event>)
    requires Calm(cands, h) && InOrderRun(cands, h, es)
    ensures GoodRun(cands, h, es)
    decreases |es|
  {
    hide Calm, Good, Step, InOrder;
    CalmHub(cands, h);
    if es != [] {
      InOrderIsGood(cands, h, es[0]);
      StepIsGood(cands, h, es[0]);
      OrderlyRunsAreGood(cands, Next(cands, h, es[0]), es[1..]);
    }
  }

  // ---------------------------------------------------------------- connecting

  /**
   A connection as subscribe leaves it: its own refresh committed, whether or not it could fetch the
   live transfers; its first frame built from that refresh's snapshot; other refreshes possibly under
   way, and possibly a tick begun before.
  */
  ghost function Opened(cands: seq<Candidate>, w: World, fl: Flight, flights: map<nat, Flight>, tick: Option<Tick>): Hub
    requires Tracked(cands, w) && FlightOk(fl, w) && |fl.seen| == 3
  {
    assert RowsGrow(fl.seen[1], w) && RowsGrow(fl.seen[2], w);
    var cache := CacheOf(cands, fl);
    assert cache.states == States(fl.seen[1]);
    Hub(w, cache, fl.snap, fl.ok, fl.stirred, flights, tick, Frames(cands, cache, fl.snap), 1)
  }

  /** Begun before the connection, and consistent with the world. */
  ghost predicate Underway(cands: seq<Candidate>, w: World, flights: map<nat, Flight>, tick: Option<Tick>)
    requires Tracked(cands, w)
  {
    && (forall id | id in flights ::
          FlightOk(flights[id], w) && BytesOk(cands, flights[id].prev, w) && flights[id].begun == 0)
    && (tick.Some? ==> TickFits(cands, tick.value, w))
  }

  lemma OpenedIsOk(cands: seq<Candidate>, w: World, fl: Flight, flights: map<nat, Flight>, tick: Option<Tick>)
    requires Tracked(cands, w) && WorldOk(w) && FlightOk(fl, w) && BytesOk(cands, fl.prev, w) && |fl.seen| == 3
    requires Underway(cands, w, flights, tick)
    ensures HubOk(cands, Opened(cands, w, fl, flights, tick))
  {
    CommittedCache(cands, w, fl);
    FrameIsHeld(cands, CacheOf(cands, fl), fl, w);
    CommitHas(cands, fl, w);
    hide CacheOk, AllLater, IdleKept, WorldOk, Cached, RowsGrow, FlightOk, BytesOk, ScreenOk, TickFits, Frames, CacheOf;
  }

  /**
   A connection starts a good run if no tick is under way, and otherwise exactly if its first frame
   is not ahead of what that tick would show at once.
  */
  lemma OpenedIsCalm(cands: seq<Candidate>, w: World, fl: Flight, flights: map<nat, Flight>, tick: Option<Tick>)
    requires Tracked(cands, w) && WorldOk(w) && FlightOk(fl, w) && BytesOk(cands, fl.prev, w) && |fl.seen| == 3
    requires Underway(cands, w, flights, tick)
    ensures var z := Opened(cands, w, fl, flights, tick);
            && HubOk(cands, z) && z.cache.states.Keys == z.w.Keys
            && (Calm(cands, z) <==> tick.None? || Harmless(cands, z, z.cache))
  {
    OpenedIsOk(cands, w, fl, flights, tick);
    var z := Opened(cands, w, fl, flights, tick);
    HubDomains(cands, z);
    CommitHas(cands, fl, w);
    AgreedFrameSettles(cands, z, fl);
    hide HubOk, Settled, FlightOk, BytesOk, Tracked, Frames, CacheOf, NextFrame, TickFits;
  }

  // ---------------------------------------------------------------- against the truth

  lemma HubIsBehind(cands: seq<Candidate>, h: Hub, c: Candidate, f: string)
    requires HubOk(cands, h) && c in cands && f in c.files
    ensures (c.username, f) in h.w && FileOk(h.w[(c.username, f)])
    ensures Cached(h.cache, c, f) <= h.w[(c.username, f)].bytes
  {
    hide CacheOk, BasisOk, FlightOk, Cached, FileOk;
    CacheIsBehind(cands, h.cache, h.w, c, f);
  }

  /** The frame a tick takes to show has the album total the code computes, whichever cache it finds. */
  lemma TickShowsFrame(cands: seq<Candidate>, h: Hub, c: Candidate)
    requires HubOk(cands, h) && h.tick.Some? && h.tick.value.stage == Ready && c in cands
    ensures var z := Next(cands, h, TickFrames);
            && z.tick.Some? && z.tick.value.stage.Framed?
            && ShownTotal(z.tick.value.stage.frame, c) == Frame(h.cache, h.tick.value.flight.snap, c)
            && forall view: LiveFrames.JobView, now: int
                 | view.attempt == Some(c) && view.albumBytesDone == AlbumBytes(h.cache.rows, c) ::
                 ShownTotal(z.tick.value.stage.frame, c)
                 == LiveFrames.ToJobBody(view, Snapshot(h.tick.value.flight.snap), h.cache.bytes, now).bytesDone
  {
    hide HubOk, Shown, Frame, Total, LiveMatchedFileSet, Snapshot, Step, StateShown, Frames;
    AfterFrames(cands, h);
    var snap := h.tick.value.flight.snap;
    FrameIsSum(h.cache, snap, c);
    FrameDomain(cands, h.cache, snap);
    var s := Frames(cands, h.cache, snap);
    assert (map f | f in c.files && (c, f) in s.shown :: s.shown[(c, f)]) == ShownValues(h.cache, snap, c);
    forall view: LiveFrames.JobView, now: int
      | view.attempt == Some(c) && view.albumBytesDone == AlbumBytes(h.cache.rows, c)
      ensures LiveFrames.ToJobBody(view, Snapshot(snap), h.cache.bytes, now).bytesDone == ShownTotal(s, c)
    {
      JobObjectShowsFrame(h.cache, snap, c, view, now);
    }
  }

  lemma RefreshedFile(cands: seq<Candidate>, h: Hub, c: Candidate, f: string)
    requires HubOk(cands, h) && h.tick.Some? && h.tick.value.flight.ok && h.basis == h.tick.value.flight.snap
    requires c in cands && f in c.files
    ensures var k := (c.username, f);
            && k in h.basis && k in h.w
            && Value(h.basis[k]) <= Shown(h.cache, h.basis, c, f) <= Value(h.w[k])
  {
    hide LiveMatchedFileSet, Snapshot, HasMatch, LiveMatched, Cached, BytesOk, IdleKept, Shown;
    ShownAgrees(cands, h.cache, h.basis, h.w, c, f);
    CacheIsBehind(cands, h.cache, h.w, c, f);
    assert FileOk(h.w[(c.username, f)]) && Later(h.basis[(c.username, f)], h.w[(c.username, f)]);
  }

  /** A tick showing from its own refresh shows a total between the truth at its snapshot and the truth now. */
  lemma RefreshedFrameIsTrue(cands: seq<Candidate>, h: Hub, c: Candidate)
    requires HubOk(cands, h) && h.tick.Some? && h.tick.value.stage == Ready && c in cands
    requires h.tick.value.flight.ok && h.basis == h.tick.value.flight.snap
    ensures Tracked(cands, h.basis) && Tracked(cands, h.w)
    ensures Truth(h.basis, c) <= Frame(h.cache, h.basis, c) <= Truth(h.w, c)
  {
    hide HubOk, Shown, Frame, Value, LiveMatchedFileSet, Snapshot;
    HubDomains(cands, h);
    var snap := h.basis;
    FrameIsSum(h.cache, snap, c);
    var shown := ShownValues(h.cache, snap, c);
    forall f | f in c.files
      ensures Value(snap[(c.username, f)]) <= shown[f] <= Value(h.w[(c.username, f)])
    {
      RefreshedFile(cands, h, c, f);
    }
    TotalMonotone(c.files, TrueValues(snap, c), shown);
    TotalMonotone(c.files, shown, TrueValues(h.w, c));
  }

  lemma QuietFile(cands: seq<Candidate>, h: Hub, c: Candidate, f: string)
    requires HubOk(cands, h) && c in cands && f in c.files
    requires LiveMatchedFileSet(cands, Snapshot(h.w)) == h.cache.matched
    ensures var (k, n) := ((c.username, f), Shown(h.cache, h.w, c, f));
            && n <= Value(h.w[k])
            && (n == Value(h.w[k]) <==> (h.w[k].live.None? ==> Cached(h.cache, c, f) == h.w[k].bytes))
  {
    hide HasMatch, LiveMatched, Cached, BytesOk, IdleKept, Shown, LiveMatchedFileSet, Snapshot;
    ShownAgrees(cands, h.cache, h.w, h.w, c, f);
    HubIsBehind(cands, h, c, f);
  }

  /**
   A tick that finds the matched files unmoved never overstates, and is exact precisely when each file
   that is not live has the byte count the cache holds for it.
  */
  lemma UnrefreshedFrameIsTrueIff(cands: seq<Candidate>, h: Hub, c: Candidate)
    requires HubOk(cands, h) && c in cands && LiveMatchedFileSet(cands, Snapshot(h.w)) == h.cache.matched
    ensures Tracked(cands, h.w)
    ensures Frame(h.cache, h.w, c) <= Truth(h.w, c)
    ensures Frame(h.cache, h.w, c) == Truth(h.w, c) <==>
              forall f | f in c.files ::
                h.w[(c.username, f)].live.None? ==> Cached(h.cache, c, f) == h.w[(c.username, f)].bytes
  {
    hide HubOk, Cached, Frame, LiveMatchedFileSet, Snapshot, HasMatch, CacheOk, Shown;
    HubDomains(cands, h);
    FrameIsSum(h.cache, h.w, c);
    forall f | f in c.files
      ensures Shown(h.cache, h.w, c, f) <= Value(h.w[(c.username, f)])
      ensures Shown(h.cache, h.w, c, f) == Value(h.w[(c.username, f)]) <==>
                (h.w[(c.username, f)].live.None? ==> Cached(h.cache, c, f) == h.w[(c.username, f)].bytes)
    {
      QuietFile(cands, h, c, f);
    }
    TotalMonotone(c.files, ShownValues(h.cache, h.w, c), TrueValues(h.w, c));
  }

  lemma QuietFileIsCached(cands: seq<Candidate>, h: Hub, c: Candidate, f: string)
    requires HubOk(cands, h) && c in cands && f in c.files
    requires LiveMatchedFileSet(cands, Snapshot(h.w)) == h.cache.matched && h.basisOk
    requires (c.id, f) in h.cache.matched || (c.username, f) !in h.stirred
    ensures h.w[(c.username, f)].live.None? ==> Cached(h.cache, c, f) == h.w[(c.username, f)].bytes
  {
    hide Cached, HasMatch, LiveMatchedFileSet, Snapshot, AllLater, CacheOk, FlightFits, TickFits, WorldOk, LiveMatched;
    assert Tracked(cands, h.basis);
    MatchMeansLive(cands, h.cache, h.w, c);
    MatchMeansLive(cands, h.cache, h.basis, c);
    CacheIsBehind(cands, h.cache, h.w, c, f);
  }

  /**
   The file-granular trigger leaves one gap: such a tick is exact unless a file that the committed
   refresh saw idle was enqueued since that refresh's snapshot, or its fetch had failed.
  */
  lemma QuietFrameIsTrue(cands: seq<Candidate>, h: Hub, c: Candidate)
    requires HubOk(cands, h) && c in cands && LiveMatchedFileSet(cands, Snapshot(h.w)) == h.cache.matched
    requires h.basisOk
    requires forall f | f in c.files :: (c.id, f) in h.cache.matched || (c.username, f) !in h.stirred
    ensures Tracked(cands, h.w) && Frame(h.cache, h.w, c) == Truth(h.w, c)
  {
    hide HubOk, Frame, Truth, Cached, LiveMatchedFileSet, Snapshot;
    UnrefreshedFrameIsTrueIff(cands, h, c);
    forall f | f in c.files
      ensures h.w[(c.username, f)].live.None? ==> Cached(h.cache, c, f) == h.w[(c.username, f)].bytes
    {
      QuietFileIsCached(cands, h, c, f);
    }
  }
}
