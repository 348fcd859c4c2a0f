/**
 What the hub's own schedule does not rule out: another client's refresh committing in the middle of
 things, a fetch of the live transfers that fails, a tick begun before the connection. For each,
 exactly when something shown goes back, and a run in which it does.
*/
module OverlayFaults {
  import opened Basics
  import opened AlbumLive
  import opened ByteOverlay
  import opened OverlayHub
  import opened OverlayRuns

  // ---------------------------------------------------------------- runs of ticks and moves alone

  ghost predicate Plain(es: seq<Event>) {
    forall e | e in es :: !e.Begins? && !e.Reads? && !e.Commits? && (e.TickFetches? ==> e.ok)
  }

  function MovesOf(steps: seq<EnvStep>): seq<Event> {
    seq(|steps|, i requires 0 <= i < |steps| => Moves(steps[i]))
  }

  lemma {:induction false} PlainIsGood(cands: seq<Candidate>, h: Hub, es: seq<Event>)
    requires HubOk(cands, h) && Plain(es)
    ensures GoodRun(cands, h, es)
    decreases |es|
  {
    hide HubOk, Step, Harmless, CacheOf;
    if es != [] {
      assert es[0] in es;
      PlainIsGood(cands, Next(cands, h, es[0]), es[1..]);
    }
  }

  lemma {:induction false} RunAppends(cands: seq<Candidate>, h: Hub, a: seq<Event>, b: seq<Event>)
    requires HubOk(cands, h)
    ensures Run(cands, h, a + b) == Run(cands, Run(cands, h, a), b)
    decreases |a|
  {
    hide HubOk, Step;
    if a == [] {
      assert a + b == b;
    } else {
      assert (a + b)[1..] == a[1..] + b;
      RunAppends(cands, Next(cands, h, a[0]), a[1..], b);
    }
  }

  lemma {:induction false} MovesOnly(cands: seq<Candidate>, h: Hub, steps: seq<EnvStep>)
    requires HubOk(cands, h) && h.tick.None?
    ensures var z := Run(cands, h, MovesOf(steps));
            z.w == EnvRun(h.w, steps) && z.cache == h.cache && z.screen == h.screen && z.tick.None?
    decreases |steps|
  {
    hide HubOk, EnvNext;
    if steps != [] {
      assert MovesOf(steps)[1..] == MovesOf(steps[1..]) && MovesOf(steps)[0] == Moves(steps[0]);
      MovesOnly(cands, Next(cands, h, Moves(steps[0])), steps[1..]);
    }
  }

  lemma RunFrom(cands: seq<Candidate>, h: Hub, e: Event, es: seq<Event>)
    requires HubOk(cands, h)
    ensures Run(cands, h, [e] + es) == Run(cands, Next(cands, h, e), es)
  {
    hide HubOk, Step;
    assert ([e] + es)[1..] == es;
  }

  lemma FourSteps(cands: seq<Candidate>, h: Hub, a: Event, b: Event, c: Event, d: Event)
    requires HubOk(cands, h)
    ensures Run(cands, h, [a, b, c, d]) == Next(cands, Next(cands, Next(cands, Next(cands, h, a), b), c), d)
  {
    hide HubOk, Step;
    assert [a, b, c, d][1..] == [b, c, d] && [b, c, d][1..] == [c, d] && [c, d][1..] == [d] && [d][1..] == [];
    var y := Next(cands, Next(cands, h, a), b);
    var z := Next(cands, y, c);
    assert Run(cands, z, [d]) == Next(cands, z, d);
    assert Run(cands, y, [c, d]) == Run(cands, z, [d]);
    assert Run(cands, Next(cands, h, a), [b, c, d]) == Run(cands, y, [c, d]);
  }

  /** Every event takes nothing back from what was shown before it. */
  ghost predicate ForwardRun(cands: seq<Candidate>, h: Hub, es: seq<Event>)
    requires HubOk(cands, h)
    decreases |es|
  {
    es == [] || (Forward(h.screen, Next(cands, h, es[0]).screen) && ForwardRun(cands, Next(cands, h, es[0]), es[1..]))
  }

  lemma {:induction false} ForwardRunIsForward(cands: seq<Candidate>, h: Hub, es: seq<Event>)
    requires HubOk(cands, h) && ForwardRun(cands, h, es)
    ensures Forward(h.screen, Run(cands, h, es).screen)
    decreases |es|
  {
    hide HubOk, Step;
    if es != [] {
      ForwardRunIsForward(cands, Next(cands, h, es[0]), es[1..]);
    }
  }

  lemma {:induction false} CalmPlainIsForward(cands: seq<Candidate>, h: Hub, es: seq<Event>)
    requires Calm(cands, h) && Plain(es)
    ensures ForwardRun(cands, h, es)
    decreases |es|
  {
    hide Calm, Good, Step;
    CalmHub(cands, h);
    if es != [] {
      assert es[0] in es;
      PlainIsGood(cands, h, [es[0]]);
      StepIsGood(cands, h, es[0]);
      CalmPlainIsForward(cands, Next(cands, h, es[0]), es[1..]);
    }
  }

  lemma {:induction false} ForwardRunSplits(cands: seq<Candidate>, h: Hub, a: seq<Event>, b: seq<Event>)
    requires HubOk(cands, h) && ForwardRun(cands, h, a + b)
    ensures ForwardRun(cands, Run(cands, h, a), b)
    decreases |a|
  {
    hide HubOk, Step;
    if a == [] {
      assert a + b == b;
    } else {
      assert (a + b)[1..] == a[1..] + b;
      ForwardRunSplits(cands, Next(cands, h, a[0]), a[1..], b);
    }
  }

  /** How many events a tick has before it, left alone. */
  function EventsLeft(t: Tick): nat {
    match t.stage
    case Framed(_) => 1
    case Ready => 2
    case Refreshing => if |t.flight.seen| < 3 then 6 - |t.flight.seen| else 3
    case Fetched => 7
  }

  lemma TickKeys(cands: seq<Candidate>, h: Hub)
    requires HubOk(cands, h) && h.tick.Some?
    ensures Tracked(cands, h.w) && TickFits(cands, h.tick.value, h.w) && h.cache.states.Keys == h.w.Keys
    ensures NextFrame(cands, h.tick.value, h.cache, h.w).shown.Keys == AllFiles(cands)
    ensures |h.tick.value.flight.seen| <= 3
  {
    HubDomains(cands, h);
    NextFrameDomain(cands, h.tick.value, h.cache, h.w);
    hide HubOk, NextFrame;
  }

  ghost predicate Replaces(t: Tick) {
    t.stage.Fetched? || t.stage.Refreshing?
  }

  /**
   What a tick would show at once it does show if nothing else happens. If it has yet to compare, or
   to refresh, all is calm from there on, whatever was shown before.
  */
  lemma {:induction false} TickEnds(cands: seq<Candidate>, h: Hub) returns (es: seq<Event>)
    requires HubOk(cands, h) && h.tick.Some?
    ensures Plain(es)
    ensures Tracked(cands, h.w) && TickFits(cands, h.tick.value, h.w) && h.cache.states.Keys == h.w.Keys
    ensures var (z, s) := (Run(cands, h, es), NextFrame(cands, h.tick.value, h.cache, h.w));
            && z.screen == s && z.w == h.w && z.tick.None? && s.shown.Keys == AllFiles(cands)
            && (!Replaces(h.tick.value) ==> z.cache == h.cache)
            && (Replaces(h.tick.value) || Settled(cands, s, h.cache, h.w) ==> Calm(cands, z))
    decreases EventsLeft(h.tick.value)
  {
    hide HubOk, Step, Run, NextFrame, Settled, Harmless, TickFits, Tracked, Calm;
    TickKeys(cands, h);
    match h.tick.value.stage
    case Framed(s) =>
      LastEvent(cands, h);
      es := [TickShows];
    case Ready =>
      FrameDecidesNothing(cands, h);
      es := TickGoesOn(cands, h, TickFrames);
    case Refreshing =>
      if |h.tick.value.flight.seen| < 3 {
        ReadDecidesNothing(cands, h);
        es := TickGoesOn(cands, h, TickReads);
      } else {
        TickCommitDecidesNothing(cands, h);
        es := TickGoesOn(cands, h, TickCommits);
      }
    case Fetched =>
      CompareDecidesNothing(cands, h);
      es := TickGoesOn(cands, h, TickCompares);
  }

  lemma {:induction false} TickGoesOn(cands: seq<Candidate>, h: Hub, e: Event) returns (es: seq<Event>)
    requires HubOk(cands, h) && h.tick.Some? && (e.TickCompares? || e.TickReads? || e.TickCommits? || e.TickFrames?)
    requires var z := Next(cands, h, e); z.tick.Some? && EventsLeft(z.tick.value) < EventsLeft(h.tick.value)
    ensures Plain(es)
    ensures var z := Next(cands, h, e);
            && Tracked(cands, z.w) && TickFits(cands, z.tick.value, z.w) && z.cache.states.Keys == z.w.Keys
            && var (y, s) := (Run(cands, h, es), NextFrame(cands, z.tick.value, z.cache, z.w));
               && y.screen == s && y.w == z.w && y.tick.None? && s.shown.Keys == AllFiles(cands)
               && (!Replaces(z.tick.value) ==> y.cache == z.cache)
               && (Replaces(z.tick.value) || Settled(cands, s, z.cache, z.w) ==> Calm(cands, y))
    decreases EventsLeft(h.tick.value), 0
  {
    hide HubOk, Step, Run, NextFrame, Settled, TickFits, Tracked, Calm;
    var rest := TickEnds(cands, Next(cands, h, e));
    RunFrom(cands, h, e, rest);
    es := [e] + rest;
  }

  lemma LastEvent(cands: seq<Candidate>, h: Hub)
    requires HubOk(cands, h) && h.tick.Some? && h.tick.value.stage.Framed?
    ensures var (z, s) := (Run(cands, h, [TickShows]), h.tick.value.stage.frame);
            && z.screen == s && z.w == h.w && z.tick.None? && z.cache == h.cache && Tracked(cands, h.w)
            && h.cache.states.Keys == h.w.Keys
            && TickFits(cands, h.tick.value, h.w) && NextFrame(cands, h.tick.value, h.cache, h.w) == s
            && s.shown.Keys == AllFiles(cands) && z.cache.states.Keys == z.w.Keys
            && (Settled(cands, s, h.cache, h.w) ==> Calm(cands, z))
  {
    hide HubOk, Step, Settled, Tracked;
    assert [TickShows][1..] == [];
    var z := Next(cands, h, TickShows);
    AfterShow(cands, h);
    HubDomains(cands, h);
    HubDomains(cands, z);
  }

  // ---------------------------------------------------------------- exactly the harmless caches

  /** The steps that bring one file's transfer to be live, or not. */
  function SteerOne(k: FileKey, f: FileState, live: bool): seq<EnvStep> {
    if live then (if f.live.Some? then [] else [Enqueue(k, LiveFile(f.bytes, InProgress))])
    else if f.live.None? then []
    else if Terminal(f.state) then [Purge(k)]
    else [Settle(k, Completed), Purge(k)]
  }

  lemma SteeredOne(w: World, k: FileKey, live: bool)
    requires k in w && (live ==> w[k].live.Some? || !Terminal(w[k].state))
    ensures var z := EnvRun(w, SteerOne(k, w[k], live));
            && k in z && z == w[k := z[k]] && z[k].live.Some? == live
            && (w[k].live.Some? == live ==> z[k] == w[k])
  {
    var es := SteerOne(k, w[k], live);
    if |es| == 1 {
      assert es[1..] == [];
    } else if |es| == 2 {
      var v := EnvNext(w, es[0]);
      assert es[1..] == [Purge(k)] && es[1..][1..] == [];
      assert EnvRun(v, [Purge(k)]) == EnvNext(v, Purge(k));
    }
    if w[k].live.Some? == live {
      assert w == w[k := w[k]];
    }
  }

  lemma {:induction false} EnvAppends(w: World, a: seq<EnvStep>, b: seq<EnvStep>)
    ensures EnvRun(w, a + b) == EnvRun(EnvRun(w, a), b)
    decreases |a|
  {
    hide EnvNext;
    if a == [] {
      assert a + b == b;
    } else {
      assert (a + b)[1..] == a[1..] + b;
      EnvAppends(EnvNext(w, a[0]), a[1..], b);
    }
  }

  /** The environment can make exactly the files in `target` live, among `keys`, leaving alone those that agree. */
  lemma {:induction false} Steered(w: World, keys: set<FileKey>, target: set<FileKey>) returns (steps: seq<EnvStep>)
    requires keys <= w.Keys
    requires forall k | k in keys && k in target :: w[k].live.Some? || !Terminal(w[k].state)
    ensures var z := EnvRun(w, steps);
            && z.Keys == w.Keys
            && (forall k | k in keys :: z[k].live.Some? == (k in target))
            && (forall k | k in w && (k !in keys || w[k].live.Some? == (k in target)) :: z[k] == w[k])
    decreases |keys|
  {
    hide SteerOne, EnvRun;
    steps := [];
    if keys == {} {
      assert EnvRun(w, []) == w by { NoSteps(w); }
    } else {
      var k := ElementOf(keys);
      var first := SteerOne(k, w[k], k in target);
      SteeredOne(w, k, k in target);
      var v := EnvRun(w, first);
      var rest := Steered(v, keys - {k}, target);
      EnvAppends(w, first, rest);
      steps := first + rest;
    }
  }

  lemma NoSteps(w: World)
    ensures EnvRun(w, []) == w
  {
  }

  /** So the live transfers can be steered to match a cache that can be matched. */
  lemma SteerTo(cands: seq<Candidate>, matched: set<MatchedFile>, w: World) returns (steps: seq<EnvStep>)
    requires Tracked(cands, w) && CanMatch(cands, matched, w)
    ensures var z := EnvRun(w, steps);
            && z.Keys == w.Keys && LiveMatchedFileSet(cands, Snapshot(z)) == matched
            && (forall c, f | c in cands && f in c.files ::
                  && z[(c.username, f)].live.Some? == ((c.id, f) in matched)
                  && (w[(c.username, f)].live.Some? == ((c.id, f) in matched)
                      ==> z[(c.username, f)] == w[(c.username, f)]))
  {
    hide EnvRun;
    var keys := set c, f | c in cands && f in c.files :: (c.username, f);
    var target := set c, f | c in cands && f in c.files && (c.id, f) in matched :: (c.username, f);
    forall c, f | c in cands && f in c.files ensures (c.username, f) in target <==> (c.id, f) in matched {
      if (c.username, f) in target {
        var d, g :| d in cands && g in d.files && (d.id, g) in matched && (d.username, g) == (c.username, f);
      }
    }
    steps := Steered(w, keys, target);
    var z := EnvRun(w, steps);
    MatchesExactly(cands, matched, z);
  }

  lemma MatchesExactly(cands: seq<Candidate>, matched: set<MatchedFile>, z: World)
    requires Tracked(cands, z)
    requires forall m | m in matched :: exists c :: c in cands && m.0 == c.id && m.1 in c.files
    requires forall c, f | c in cands && f in c.files :: z[(c.username, f)].live.Some? == ((c.id, f) in matched)
    ensures LiveMatchedFileSet(cands, Snapshot(z)) == matched
  {
    var m := LiveMatchedFileSet(cands, Snapshot(z));
    forall p | p in matched ensures p in m {
      var c :| c in cands && p.0 == c.id && p.1 in c.files;
      assert (c.username, p.1) in Snapshot(z).byFallback;
      assert p == (c.id, p.1);
    }
    forall p | p in m ensures p in matched {
      var c, f :| c in cands && f in c.files && (c.username, f) in Snapshot(z).byFallback && p == (c.id, f);
    }
  }

  function OneTick(): seq<Event> {
    [TickFetches(true), TickCompares, TickFrames, TickShows]
  }

  /** A tick that finds the live transfers as the cache knows them shows straight from the cache. */
  lemma QuietTick(cands: seq<Candidate>, h: Hub)
    requires HubOk(cands, h) && h.tick.None? && LiveMatchedFileSet(cands, Snapshot(h.w)) == h.cache.matched
    ensures Tracked(cands, h.w) && h.cache.states.Keys == h.w.Keys
    ensures Run(cands, h, OneTick()).screen == Frames(cands, h.cache, h.w)
  {
    hide HubOk, Frames, LiveMatchedFileSet, Snapshot, Step, Run;
    HubDomains(cands, h);
    FourSteps(cands, h, TickFetches(true), TickCompares, TickFrames, TickShows);
    AfterFetch(cands, h, true);
    var a := Next(cands, h, TickFetches(true));
    AfterCompare(cands, a);
    var b := Next(cands, a, TickCompares);
    AfterFrames(cands, b);
    AfterShow(cands, Next(cands, b, TickFrames));
  }

  lemma FileGoesBack(shown: int, over: bool, matched: bool, cached: int, rowState: TransferState, f: FileState,
                     g: FileState)
    requires !Kept(shown, over, matched, cached, Terminal(rowState), f)
    requires shown <= Value(f) && (over ==> Over(f))
    requires g.live.Some? == matched && (f.live.Some? == matched ==> g == f)
    ensures var shown' := if g.live.Some? then g.live.value.bytes else cached;
            var over' := Terminal(ShownState(rowState, if g.live.Some? then Some(g.live.value.state) else None));
            shown' < shown || (over && !over')
  {
  }

  lemma FrameGoesBack(cands: seq<Candidate>, h: Hub, s: Screen, u: World)
    requires HubOk(cands, h) && u.Keys == h.w.Keys && Tracked(cands, u) && ScreenOk(cands, s, u)
    requires h.cache.states.Keys == u.Keys && !AllKept(cands, s, h.cache, u)
    requires h.cache.matched == LiveMatchedFileSet(cands, Snapshot(h.w))
    requires forall c, f | c in cands && f in c.files ::
               u[(c.username, f)].live.Some? != ((c.id, f) in h.cache.matched)
               || h.w[(c.username, f)] == u[(c.username, f)]
    ensures Tracked(cands, h.w) && !Forward(s, Frames(cands, h.cache, h.w))
  {
    hide HasMatch, Cached, BasisOk, Kept, Value, Over, ShownState, FlightFits, TickFits, WorldOk, BytesOk, Shown,
         LiveMatchedFileSet, Snapshot, Frames;
    HubDomains(cands, h);
    FrameDomain(cands, h.cache, h.w);
    var c, f :| c in cands && f in c.files &&
      !Kept(s.shown[(c, f)], (c, f) in s.over, (c.id, f) in h.cache.matched, Cached(h.cache, c, f),
            Terminal(h.cache.states[(c.username, f)]), u[(c.username, f)]);
    var k := (c.username, f);
    MatchMeansLive(cands, h.cache, h.w, c);
    ShownAgrees(cands, h.cache, h.w, h.w, c, f);
    FileGoesBack(s.shown[(c, f)], (c, f) in s.over, (c.id, f) in h.cache.matched, Cached(h.cache, c, f),
                 h.cache.states[k], u[k], h.w[k]);
  }

  lemma ScreenFits(cands: seq<Candidate>, h: Hub)
    requires HubOk(cands, h)
    ensures Tracked(cands, h.w) && ScreenOk(cands, h.screen, h.w)
  {
  }

  /** A cache that is behind what was shown, and can be matched, will be shown: something goes back. */
  lemma BehindGoesBack(cands: seq<Candidate>, h: Hub) returns (es: seq<Event>)
    requires HubOk(cands, h) && h.tick.None? && Tracked(cands, h.w) && h.cache.states.Keys == h.w.Keys
    requires h.screen.shown.Keys == AllFiles(cands) && !Settled(cands, h.screen, h.cache, h.w)
    ensures Plain(es) && !Forward(h.screen, Run(cands, h, es).screen)
  {
    hide HubOk, EnvRun, HasMatch, Cached, LiveMatchedFileSet, Snapshot, CanMatch, Step, AllKept, Run, Forward, Frames,
         ScreenOk, OneTick;
    ScreenFits(cands, h);
    var steps := SteerTo(cands, h.cache.matched, h.w);
    MovesOnly(cands, h, steps);
    var v := Run(cands, h, MovesOf(steps));
    QuietTick(cands, v);
    RunAppends(cands, h, MovesOf(steps), OneTick());
    es := MovesOf(steps) + OneTick();
    MovesAndTick(steps);
    FrameGoesBack(cands, v, h.screen, h.w);
  }

  lemma MovesAndTick(steps: seq<EnvStep>)
    ensures Plain(MovesOf(steps) + OneTick())
  {
  }

  lemma HarmfulTick(cands: seq<Candidate>, h: Hub) returns (es: seq<Event>, shows: bool)
    requires HubOk(cands, h) && h.tick.Some? && h.cache.states.Keys == h.w.Keys && !Harmless(cands, h, h.cache)
    ensures Plain(es)
    ensures var z := Run(cands, h, es);
            && (shows ==> !Forward(h.screen, z.screen))
            && (!shows ==> z.tick.None? && Tracked(cands, z.w) && z.cache.states.Keys == z.w.Keys
                           && z.screen.shown.Keys == AllFiles(cands) && !Settled(cands, z.screen, z.cache, z.w))
  {
    hide HubOk, Run, Settled, Forward, NextFrame, TickFits, Tracked, Calm;
    es := TickEnds(cands, h);
    shows := !Forward(h.screen, Run(cands, h, es).screen);
  }

  lemma HarmfulGoesBack(cands: seq<Candidate>, h: Hub) returns (es: seq<Event>)
    requires HubOk(cands, h) && h.cache.states.Keys == h.w.Keys && !Harmless(cands, h, h.cache)
    ensures Plain(es) && !ForwardRun(cands, h, es)
  {
    hide HubOk, ForwardRun, Settled, Forward, NextFrame, TickFits, Tracked, Run, Calm;
    HubDomains(cands, h);
    if h.tick.None? {
      es := BehindGoesBack(cands, h);
      if ForwardRun(cands, h, es) {
        ForwardRunIsForward(cands, h, es);
      }
    } else {
      var shows;
      es, shows := HarmfulTick(cands, h);
      if shows {
        if ForwardRun(cands, h, es) {
          ForwardRunIsForward(cands, h, es);
        }
      } else {
        var rest := BehindGoesBack(cands, Run(cands, h, es));
        if ForwardRun(cands, h, es + rest) {
          ForwardRunSplits(cands, h, es, rest);
          ForwardRunIsForward(cands, Run(cands, h, es), rest);
        }
        es := es + rest;
      }
    }
  }

  /**
   In any state, whether between ticks or during one, however old its snapshot and whether or not it
   could fetch the live transfers: no later event takes anything back, whatever the environment and
   the ticks do, precisely if the committed cache is harmless.
  */
  lemma SafeIffHarmless(cands: seq<Candidate>, h: Hub)
    requires HubOk(cands, h)
    ensures h.cache.states.Keys == h.w.Keys
    ensures (forall es | Plain(es) :: ForwardRun(cands, h, es)) <==> Harmless(cands, h, h.cache)
  {
    HubDomains(cands, h);
    hide HubOk, ForwardRun, Plain, Harmless;
    if Harmless(cands, h, h.cache) {
      assert Calm(cands, h);
      forall es | Plain(es) ensures ForwardRun(cands, h, es) {
        CalmPlainIsForward(cands, h, es);
      }
    } else {
      var es := HarmfulGoesBack(cands, h);
      assert Plain(es) && !ForwardRun(cands, h, es);
    }
  }

  lemma CommittedHub(cands: seq<Candidate>, h: Hub, id: nat)
    requires HubOk(cands, h) && id in h.flights && |h.flights[id].seen| == 3
    ensures var (z, fl) := (Next(cands, h, Commits(id)), h.flights[id]);
            && Tracked(cands, fl.seen[2]) && RowsGrow(fl.seen[2], h.w) && CacheOf(cands, fl).states.Keys == h.w.Keys
            && z == h.(cache := CacheOf(cands, fl), basis := fl.snap, basisOk := fl.ok, stirred := fl.stirred,
                       flights := h.flights - {id})
  {
    hide AllLater, IdleKept, BytesOk, BasisOk, CacheOk, CacheOf, WorldOk, ScreenOk, TickFits;
    var fl := h.flights[id];
    assert FlightFits(cands, fl, h.screen, h.frames, h.w);
    assert RowsGrow(fl.seen[2], h.w);
    HubDomains(cands, Next(cands, h, Commits(id)));
  }

  /**
   A commit by another refresh, exactly: no event after it takes anything back precisely if what it
   brings is harmless, to the ticks to come or to the one under way.
  */
  lemma LateCommitIsHarmlessIff(cands: seq<Candidate>, h: Hub, id: nat)
    requires HubOk(cands, h) && id in h.flights && |h.flights[id].seen| == 3
    ensures var (z, fl) := (Next(cands, h, Commits(id)), h.flights[id]);
            && Tracked(cands, fl.seen[2]) && CacheOf(cands, fl).states.Keys == h.w.Keys
            && ((forall es | Plain(es) :: ForwardRun(cands, z, es)) <==> Harmless(cands, h, CacheOf(cands, fl)))
  {
    CommittedHub(cands, h, id);
    var z := Next(cands, h, Commits(id));
    HubDomains(cands, h);
    SafeIffHarmless(cands, z);
    hide HubOk, Step, RowsGrow, CacheOf, Tracked, Plain, ForwardRun, Settled, NextFrame, TickFits, Forward;
  }

  /**
   A tick begun before the connection, exactly, at any stage and with any snapshot, fetched or not:
   nothing goes back for the new connection precisely if its first frame is not ahead of what that
   tick would show at once, and a frame the tick has taken, or is about to take from the committed
   cache, leaves that cache settled.
  */
  lemma EarlierTickIsHarmlessIff(cands: seq<Candidate>, w: World, fl: Flight, flights: map<nat, Flight>, tick: Tick)
    requires Tracked(cands, w) && WorldOk(w) && FlightOk(fl, w) && BytesOk(cands, fl.prev, w) && |fl.seen| == 3
    requires Underway(cands, w, flights, Some(tick))
    ensures var z := Opened(cands, w, fl, flights, Some(tick));
            && HubOk(cands, z) && z.cache.states.Keys == w.Keys
            && var s := NextFrame(cands, tick, z.cache, w);
               && s.shown.Keys == AllFiles(cands)
               && ((forall es | Plain(es) :: ForwardRun(cands, z, es)) <==>
                     && Forward(z.screen, s)
                     && (!Replaces(tick) ==> Settled(cands, s, z.cache, w)))
  {
    OpenedIsOk(cands, w, fl, flights, Some(tick));
    var z := Opened(cands, w, fl, flights, Some(tick));
    assert z.tick == Some(tick) && z.w == w;
    TickKeys(cands, z);
    SafeIffHarmless(cands, z);
    hide HubOk, Plain, ForwardRun, Settled, NextFrame, TickFits, Forward, Opened, FlightOk, BytesOk, Tracked;
  }

  /**
   A tick that cannot fetch the live transfers, exactly: nothing goes back precisely if nothing is
   matched, so that the tick finds no change, or nothing was shown ahead of its persisted row.
  */
  lemma FailedFetchGoesBackIff(cands: seq<Candidate>, h: Hub)
    requires Calm(cands, h) && h.tick.None?
    ensures HubOk(cands, h) && Tracked(cands, h.w) && h.screen.shown.Keys == AllFiles(cands)
    ensures (forall es | Plain(es) :: ForwardRun(cands, Next(cands, h, TickFetches(false)), es))
            <==> h.cache.matched == {} || forall c, f | c in cands && f in c.files ::
                   && h.screen.shown[(c, f)] <= h.w[(c.username, f)].bytes
                   && ((c, f) in h.screen.over ==> Terminal(h.w[(c.username, f)].state))
  {
    CalmHub(cands, h);
    HubDomains(cands, h);
    var z := Next(cands, h, TickFetches(false));
    SafeIffHarmless(cands, z);
    if h.cache.matched == {} {
      IdleFetchIsHarmless(cands, h);
    } else {
      FailedFetchFrame(cands, h);
    }
    hide HubOk, Calm, Step, Plain, ForwardRun, Harmless, Tracked;
  }

  lemma FailedFetchFrame(cands: seq<Candidate>, h: Hub)
    requires HubOk(cands, h) && h.tick.None? && h.cache.matched != {}
    ensures var z := Next(cands, h, TickFetches(false));
            && Tracked(cands, h.w) && h.screen.shown.Keys == AllFiles(cands) && z.cache.states.Keys == z.w.Keys
            && z.tick == Some(Tick(Fetch(h, false), Fetched)) && z.w == h.w && z.cache == h.cache
            && TickFits(cands, z.tick.value, h.w)
            && (forall c, f | c in cands && f in c.files ::
                  var s := NextFrame(cands, z.tick.value, z.cache, z.w);
                  && (c, f) in s.shown && s.shown[(c, f)] == h.w[(c.username, f)].bytes
                  && ((c, f) in s.over <==> Terminal(h.w[(c.username, f)].state)))
            && (Harmless(cands, z, z.cache) <==>
                  forall c, f | c in cands && f in c.files ::
                    && h.screen.shown[(c, f)] <= h.w[(c.username, f)].bytes
                    && ((c, f) in h.screen.over ==> Terminal(h.w[(c.username, f)].state)))
  {
    hide HubOk, Step, FlightOk, LiveMatchedFileSet, Snapshot, BytesOk, Settled, LiveMatched;
    HubDomains(cands, h);
    AfterFetch(cands, h, false);
    var z := Next(cands, h, TickFetches(false));
    HubDomains(cands, z);
    FetchOk(h, false);
    NothingMatched(cands, Fetch(h, false), h.w);
    var s := NextFrame(cands, z.tick.value, z.cache, z.w);
    assert s == RefreshFrame(cands, Fetch(h, false), h.w);
    forall c, f | c in cands && f in c.files
      ensures (c, f) in AllFiles(cands)
      ensures s.shown[(c, f)] == h.w[(c.username, f)].bytes
      ensures (c, f) in s.over <==> Terminal(h.w[(c.username, f)].state)
    {
    }
  }

  // ---------------------------------------------------------------- runs that go wrong

  const ALBUM := Candidate(1, "u", ["f"])
  const SONG: FileKey := ("u", "f")

  function Only(f: FileState): World {
    map[SONG := f]
  }

  /** A refresh whose snapshot and reads all saw the one file as `f`. */
  function Glance(f: FileState, begun: nat): Flight {
    Flight(Only(f), true, begun, {}, map[], [Only(f), Only(f), Only(f)])
  }

  lemma OnlyMatches(f: FileState)
    ensures LiveMatchedFileSet([ALBUM], Snapshot(Only(f))) == if f.live.Some? then {(1, "f")} else {}
    ensures Tracked([ALBUM], Only(f))
  {
    var m := LiveMatchedFileSet([ALBUM], Snapshot(Only(f)));
    assert ALBUM in [ALBUM] && "f" in ALBUM.files;
    assert Tracked([ALBUM], Only(f));
    MatchMeansLive([ALBUM], Cache(m, map[], map[], map[]), Only(f), ALBUM);
    forall p | p in m ensures p == (1, "f") {
      var c, g :| c in [ALBUM] && g in c.files && (c.username, g) in Snapshot(Only(f)).byFallback && p == (c.id, g);
    }
  }

  lemma GlanceCache(f: FileState, begun: nat)
    requires FileOk(f)
    ensures Tracked([ALBUM], Only(f)) && WorldOk(Only(f))
    ensures var cache := CacheOf([ALBUM], Glance(f, begun));
            && cache.matched == (if f.live.Some? then {(1, "f")} else {})
            && cache.states == map[SONG := f.state] && Cached(cache, ALBUM, "f") == f.bytes
  {
    OnlyMatches(f);
    var cache := CacheOf([ALBUM], Glance(f, begun));
    assert ALBUM in [ALBUM] && ALBUM.files[0] == "f" && "f" in ALBUM.files;
    RefreshServes([ALBUM], map[], Only(f), Only(f), Only(f), Only(f), ALBUM);
    if f.live.Some? {
      assert HasMatch(cache, ALBUM);
    }
  }

  lemma GlanceOk(f: FileState, begun: nat)
    requires FileOk(f)
    ensures FlightOk(Glance(f, begun), Only(f)) && WorldOk(Only(f))
  {
  }

  /** The connection of the one-file album, opened when its file was `f`. */
  ghost function OpenedOn(f: FileState, flights: map<nat, Flight>, tick: Option<Tick>): Hub
    requires FileOk(f)
  {
    OnlyMatches(f);
    GlanceOk(f, 0);
    Opened([ALBUM], Only(f), Glance(f, 0), flights, tick)
  }

  lemma OpenedShows(f: FileState, flights: map<nat, Flight>, tick: Option<Tick>)
    requires FileOk(f) && Tracked([ALBUM], Only(f)) && Underway([ALBUM], Only(f), flights, tick)
    ensures var h := OpenedOn(f, flights, tick);
            && HubOk([ALBUM], h) && (tick.None? ==> Calm([ALBUM], h)) && (ALBUM, "f") in h.screen.shown
            && h.screen.shown[(ALBUM, "f")] == Value(f) && ((ALBUM, "f") in h.screen.over <==> Over(f))
            && h.w == Only(f) && h.tick == tick && h.flights == flights && h.cache == CacheOf([ALBUM], Glance(f, 0))
            && h.basisOk
  {
    OnlyMatches(f);
    GlanceOk(f, 0);
    GlanceCache(f, 0);
    OpenedIsCalm([ALBUM], Only(f), Glance(f, 0), flights, tick);
    OpenedFrame(f, flights, tick);
    hide FlightOk, HubOk, Calm, CacheOf, Cached, Opened, TickFits, BytesOk, WorldOk, Tracked;
  }

  lemma OpenedFrame(f: FileState, flights: map<nat, Flight>, tick: Option<Tick>)
    requires FileOk(f) && Tracked([ALBUM], Only(f)) && FlightOk(Glance(f, 0), Only(f))
    ensures var h := Opened([ALBUM], Only(f), Glance(f, 0), flights, tick);
            && (ALBUM, "f") in h.screen.shown
            && h.screen.shown[(ALBUM, "f")] == Value(f) && ((ALBUM, "f") in h.screen.over <==> Over(f))
            && h.w == Only(f) && h.tick == tick && h.flights == flights && h.cache == CacheOf([ALBUM], Glance(f, 0))
            && h.basisOk
  {
    assert ALBUM in [ALBUM] && "f" in ALBUM.files && (ALBUM, "f") in AllFiles([ALBUM]);
    RefreshIsShown([ALBUM], Glance(f, 0), Only(f));
    hide FlightOk, CacheOf, Frames, LiveMatched, Snapshot;
  }

  const IDLE := FileState(0, Pending, None)
  const DONE_LIVE := FileState(0, Pending, Some(LiveFile(10, Completed)))
  const GONE := FileState(10, Completed, None)

  lemma DoneThenGone()
    ensures EnvRun(Only(DONE_LIVE), GoneSteps()) == Only(GONE)
  {
    var settled := FileState(10, Completed, Some(LiveFile(10, Completed)));
    var a, b := Settle(SONG, Completed), Purge(SONG);
    assert EnvNext(Only(DONE_LIVE), a) == Only(settled);
    assert EnvNext(Only(settled), b) == Only(GONE);
    assert [a, b][1..] == [b] && [b][1..] == [];
    assert EnvRun(Only(GONE), []) == Only(GONE);
    assert EnvRun(Only(settled), [b]) == Only(GONE);
  }

  const STALE := Glance(IDLE, 0).(stirred := {SONG})

  lemma StaleOk()
    ensures FlightOk(STALE, Only(DONE_LIVE)) && CacheOf([ALBUM], STALE) == CacheOf([ALBUM], Glance(IDLE, 0))
  {
    OnlyMatches(IDLE);
  }

  lemma StaleCommitted(h: Hub)
    requires HubOk([ALBUM], h) && h.tick.None? && 1 in h.flights && h.flights[1] == STALE
    ensures var a := Next([ALBUM], h, Commits(1));
            && a.w == h.w && a.tick.None? && a.screen == h.screen
            && a.cache.matched == {} && Cached(a.cache, ALBUM, "f") == 0 && a.cache.states == map[SONG := Pending]
  {
    hide FlightOk, HubOk, CacheOf, Cached, Step, RowsGrow;
    CommittedHub([ALBUM], h, 1);
    StaleOk();
    GlanceCache(IDLE, 0);
  }

  /** The finished and purged file, shown by a tick from a cache that has it as not begun. */
  lemma GoneShownAs(b: Hub, n: int)
    requires HubOk([ALBUM], b) && b.tick.None? && b.w == Only(GONE)
    requires b.cache.matched == {} && Cached(b.cache, ALBUM, "f") == n && b.cache.states == map[SONG := Pending]
    ensures var s := Run([ALBUM], b, OneTick()).screen;
            (ALBUM, "f") in s.shown && s.shown[(ALBUM, "f")] == n && (ALBUM, "f") !in s.over
  {
    OnlyMatches(GONE);
    hide HubOk, Cached, Shown, StateShown, Step, Run, LiveMatchedFileSet, Snapshot, Frames;
    HubDomains([ALBUM], b);
    QuietTick([ALBUM], b);
    RowsAreShown(b.cache, b.w, ALBUM, "f");
    FrameDomain([ALBUM], b.cache, b.w);
    assert ALBUM in [ALBUM] && "f" in ALBUM.files && (ALBUM, "f") in AllFiles([ALBUM]);
  }

  function LateRun(): seq<Event> {
    [Commits(1), Moves(Settle(SONG, Completed)), Moves(Purge(SONG)), TickFetches(true), TickCompares,
     TickFrames, TickShows]
  }

  function GoneSteps(): seq<EnvStep> {
    [Settle(SONG, Completed), Purge(SONG)]
  }

  lemma LateRunIs()
    ensures LateRun() == [Commits(1)] + (MovesOf(GoneSteps()) + OneTick())
  {
  }

  lemma LateRunShows(h: Hub)
    requires HubOk([ALBUM], h) && h.tick.None? && h.w == Only(DONE_LIVE) && 1 in h.flights && h.flights[1] == STALE
    ensures var s := Run([ALBUM], h, LateRun()).screen;
            (ALBUM, "f") in s.shown && s.shown[(ALBUM, "f")] == 0 && (ALBUM, "f") !in s.over
  {
    hide FlightOk, HubOk, CacheOf, Cached, HasMatch, Step, Run, EnvRun, LiveMatchedFileSet, Snapshot, CacheOk,
         LateRun, GoneSteps, OneTick, MovesOf;
    StaleCommitted(h);
    LateRunIs();
    var a := Next([ALBUM], h, Commits(1));
    MovesOnly([ALBUM], a, GoneSteps());
    DoneThenGone();
    GoneShownAs(Run([ALBUM], a, MovesOf(GoneSteps())), 0);
    RunAppends([ALBUM], a, MovesOf(GoneSteps()), OneTick());
    RunFrom([ALBUM], h, Commits(1), MovesOf(GoneSteps()) + OneTick());
  }

  /**
   A refresh of another client that read the store while the file was idle, and commits only now: the
   transfer settles and is purged, the matched files are again those of the commit, and the next tick
   shows the finished file as not begun.
  */
  lemma LateCommitGoesBack() returns (h: Hub)
    ensures Calm([ALBUM], h) && h.tick.None? && (ALBUM, "f") in h.screen.shown
    ensures var s := Run([ALBUM], h, LateRun()).screen;
            && (ALBUM, "f") in s.shown
            && h.screen.shown[(ALBUM, "f")] == 10 && s.shown[(ALBUM, "f")] == 0
            && (ALBUM, "f") in h.screen.over && (ALBUM, "f") !in s.over
  {
    StaleOk();
    OnlyMatches(DONE_LIVE);
    h := OpenedOn(DONE_LIVE, map[1 := STALE], None);
    OpenedShows(DONE_LIVE, map[1 := STALE], None);
    hide FlightOk, HubOk, Calm, Run, OpenedOn, LateRun;
    LateRunShows(h);
  }

  const FETCHED := FileState(3, InProgress, Some(LiveFile(3, InProgress)))
  const AHEAD := FileState(3, InProgress, Some(LiveFile(10, InProgress)))

  /** The live count is ahead of the row; a tick whose fetch fails shows the row. */
  lemma FailedFetchGoesBack() returns (h: Hub, es: seq<Event>)
    ensures Calm([ALBUM], h) && h.tick.None? && (ALBUM, "f") in h.screen.shown && Plain(es)
    ensures var s := Run([ALBUM], h, [TickFetches(false)] + es).screen;
            (ALBUM, "f") in s.shown && h.screen.shown[(ALBUM, "f")] == 10 && s.shown[(ALBUM, "f")] == 3
  {
    OnlyMatches(AHEAD);
    h := OpenedOn(AHEAD, map[], None);
    OpenedShows(AHEAD, map[], None);
    GlanceCache(AHEAD, 0);
    hide FlightOk, HubOk, Calm, Run, OpenedOn, CacheOf, Cached, Step, NextFrame, Harmless, TickFits, Settled;
    assert ALBUM in [ALBUM] && "f" in ALBUM.files;
    FailedFetchFrame([ALBUM], h);
    es := TickEnds([ALBUM], Next([ALBUM], h, TickFetches(false)));
    RunFrom([ALBUM], h, TickFetches(false), es);
  }

  const EARLIER := Tick(Flight(Only(FETCHED), true, 0, {}, map[], []), Fetched)

  lemma EarlierOk()
    ensures Tracked([ALBUM], Only(AHEAD)) && Underway([ALBUM], Only(AHEAD), map[], Some(EARLIER))
  {
    assert Later(FETCHED, AHEAD);
  }

  /** What an older tick shows from the cache of a newer refresh: the live count it fetched. */
  lemma EarlierFrame(h: Hub)
    requires HubOk([ALBUM], h) && h.tick == Some(EARLIER) && h.w == Only(AHEAD) && h.cache.matched == {(1, "f")}
    ensures Tracked([ALBUM], h.w) && TickFits([ALBUM], EARLIER, h.w) && h.cache.states.Keys == h.w.Keys
    ensures var s := NextFrame([ALBUM], EARLIER, h.cache, h.w);
            (ALBUM, "f") in s.shown && s.shown[(ALBUM, "f")] == 3
  {
    OnlyMatches(FETCHED);
    HubDomains([ALBUM], h);
    assert ALBUM in [ALBUM] && "f" in ALBUM.files;
    HubAgrees([ALBUM], h, Only(FETCHED), ALBUM, "f");
    FrameDomain([ALBUM], h.cache, Only(FETCHED));
    hide HubOk, Cached, LiveMatchedFileSet, Snapshot, Shown, StateShown, Frames, FlightOk;
  }

  lemma HubAgrees(cands: seq<Candidate>, h: Hub, v: World, c: Candidate, f: string)
    requires HubOk(cands, h) && Tracked(cands, v) && c in cands && f in c.files
    requires h.cache.matched == LiveMatchedFileSet(cands, Snapshot(v))
    ensures var live := v[(c.username, f)].live;
            Shown(h.cache, v, c, f) == if live.Some? then live.value.bytes else Cached(h.cache, c, f)
  {
    hide FlightFits, TickFits, BasisOk, WorldOk, CacheOk, LiveMatchedFileSet, Snapshot, Shown, Cached;
    ShownAgrees(cands, h.cache, v, h.w, c, f);
  }

  /** A tick that fetched before the connection opened shows it the older live count after the newer. */
  lemma EarlierTickGoesBack() returns (h: Hub, es: seq<Event>)
    ensures HubOk([ALBUM], h) && h == OpenedOn(AHEAD, map[], Some(EARLIER)) && (ALBUM, "f") in h.screen.shown
    ensures Plain(es)
    ensures var s := Run([ALBUM], h, es).screen;
            (ALBUM, "f") in s.shown && h.screen.shown[(ALBUM, "f")] == 10 && s.shown[(ALBUM, "f")] == 3
  {
    EarlierOk();
    h := OpenedOn(AHEAD, map[], Some(EARLIER));
    OpenedShows(AHEAD, map[], Some(EARLIER));
    GlanceCache(AHEAD, 0);
    hide FlightOk, HubOk, Calm, Run, OpenedOn, CacheOf, Cached, NextFrame, TickFits, Settled, Underway;
    EarlierFrame(h);
    es := TickEnds([ALBUM], h);
  }

  function BlinkSteps(): seq<EnvStep> {
    [Enqueue(SONG, LiveFile(10, InProgress)), Settle(SONG, Completed), Purge(SONG)]
  }

  lemma BlinkRuns()
    ensures EnvRun(Only(IDLE), BlinkSteps()) == Only(GONE)
  {
    var live := FileState(0, Pending, Some(LiveFile(10, InProgress)));
    var settled := FileState(10, Completed, Some(LiveFile(10, InProgress)));
    var a, b, c := Enqueue(SONG, LiveFile(10, InProgress)), Settle(SONG, Completed), Purge(SONG);
    assert EnvNext(Only(IDLE), a) == Only(live);
    assert EnvNext(Only(live), b) == Only(settled);
    assert EnvNext(Only(settled), c) == Only(GONE);
    assert [a, b, c][1..] == [b, c] && [b, c][1..] == [c] && [c][1..] == [];
    assert EnvRun(Only(GONE), []) == Only(GONE);
    assert EnvRun(Only(settled), [c]) == Only(GONE);
    assert EnvRun(Only(live), [b, c]) == Only(GONE);
  }

  /**
   The gap QuietFrameIsTrue leaves, with one client and every fetch answered: a transfer that starts
   and ends between two ticks leaves the matched files as they were, and the frame behind the truth.
  */
  lemma BlinkIsMissed() returns (h: Hub)
    ensures Calm([ALBUM], h) && h.tick.None? && h.flights == map[] && h.basisOk
    ensures var z := Run([ALBUM], h, MovesOf(BlinkSteps()));
            && Tracked([ALBUM], z.w) && Truth(z.w, ALBUM) == 10
            && LiveMatchedFileSet([ALBUM], Snapshot(z.w)) == z.cache.matched
            && var s := Run([ALBUM], z, OneTick()).screen;
               (ALBUM, "f") in s.shown && s.shown[(ALBUM, "f")] == 0 && (ALBUM, "f") !in s.over
  {
    OnlyMatches(IDLE);
    h := OpenedOn(IDLE, map[], None);
    OpenedShows(IDLE, map[], None);
    GlanceCache(IDLE, 0);
    CalmHub([ALBUM], h);
    OnlyMatches(GONE);
    BlinkRuns();
    GoneTruth();
    hide FlightOk, HubOk, Calm, CacheOf, Cached, Step, Run, EnvRun, LiveMatchedFileSet, Snapshot, CacheOk, BlinkSteps,
         OneTick, MovesOf, Truth;
    MovesOnly([ALBUM], h, BlinkSteps());
    GoneShownAs(Run([ALBUM], h, MovesOf(BlinkSteps())), 0);
  }

  lemma GoneTruth()
    ensures Tracked([ALBUM], Only(GONE)) && Truth(Only(GONE), ALBUM) == 10
  {
    assert ALBUM.files == ["f"] && ["f"][..0] == [];
    assert Total(["f"], TrueValues(Only(GONE), ALBUM)) == Total([], TrueValues(Only(GONE), ALBUM)) + 10;
  }
}
