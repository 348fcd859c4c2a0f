/**
 The album byte count shown while files move from live transfers to persisted rows. The world is the
 peer backend and the store; the hub sees it through caches it refreshes now and then. The pipeline's
 reconcile loop enters only as the rule it keeps: persist a transfer's terminal state, then purge it.
*/
module ByteOverlay {
  import opened Basics
  import opened AlbumLive
  import LiveFrames

  // ---------------------------------------------------------------- the world

  datatype LiveFile = LiveFile(bytes: int, state: TransferState)

  datatype FileState = FileState(bytes: int, state: TransferState, live: Option<LiveFile>)

  type World = map<FileKey, FileState>

  datatype EnvStep =
    | Enqueue(key: FileKey, to: LiveFile)         // the backend starts a transfer, not behind the persisted count
    | Progress(key: FileKey, to: LiveFile)        // the backend's own count and state move on
    | Persist(key: FileKey)                       // reconcile records a transfer still in flight
    | Settle(key: FileKey, state: TransferState)  // reconcile records a terminal state
    | Purge(key: FileKey)                         // and only then removes the live entry

  predicate Enabled(w: World, e: EnvStep) {
    e.key in w &&
    var f := w[e.key];
    match e
    case Enqueue(_, to) => f.live.None? && !Terminal(f.state) && to.bytes >= f.bytes
    case Progress(_, to) =>
      && f.live.Some? && !Terminal(f.live.value.state)
      && to.bytes >= f.live.value.bytes && (Terminal(f.state) ==> to.bytes == f.live.value.bytes)
    case Persist(_) => f.live.Some? && !Terminal(f.live.value.state) && !Terminal(f.state)
    case Settle(_, s) => f.live.Some? && !Terminal(f.state) && Terminal(s)
    case Purge(_) => f.live.Some? && Terminal(f.state)
  }

  function AfterStep(f: FileState, e: EnvStep): FileState
    requires e.Persist? || e.Settle? ==> f.live.Some?
  {
    match e
    case Enqueue(_, to) => f.(live := Some(to))
    case Progress(_, to) => f.(live := Some(to))
    case Persist(_) => f.(bytes := f.live.value.bytes, state := f.live.value.state)
    case Settle(_, s) => f.(bytes := f.live.value.bytes, state := s)
    case Purge(_) => f.(live := None)
  }

  /** A step that is not enabled does not happen. */
  function EnvNext(w: World, e: EnvStep): World {
    if Enabled(w, e) then w[e.key := AfterStep(w[e.key], e)] else w
  }

  function EnvRun(w: World, es: seq<EnvStep>): World {
    if es == [] then w else EnvRun(EnvNext(w, es[0]), es[1..])
  }

  /** A live entry is never behind its persisted row, and equal to it once that is terminal. */
  predicate FileOk(f: FileState) {
    f.live.Some? ==> f.bytes <= f.live.value.bytes && (Terminal(f.state) ==> f.bytes == f.live.value.bytes)
  }

  predicate WorldOk(w: World) {
    forall k | k in w :: FileOk(w[k])
  }

  /** A file's true byte count. */
  function Value(f: FileState): int {
    if f.live.Some? then f.live.value.bytes else f.bytes
  }

  /** The transfer can no longer become unfinished: live says so, or the row does. */
  predicate Over(f: FileState) {
    Terminal(f.state) || (f.live.Some? && Terminal(f.live.value.state))
  }

  /** What time does to one file, for good. */
  predicate Later(f: FileState, g: FileState) {
    && f.bytes <= g.bytes
    && Value(f) <= Value(g)
    && (Terminal(f.state) ==> Terminal(g.state))
    && (Over(f) ==> Over(g))
    && (f.live.Some? && Terminal(f.live.value.state) ==>
          if g.live.Some? then Terminal(g.live.value.state) else Terminal(g.state))
    && (f.live.None? && Terminal(f.state) ==> g.live.None?)
  }

  lemma StepIsLater(w: World, e: EnvStep, k: FileKey)
    requires WorldOk(w) && k in w
    ensures WorldOk(EnvNext(w, e)) && EnvNext(w, e).Keys == w.Keys
    ensures Later(w[k], EnvNext(w, e)[k])
  {
  }

  lemma {:induction false} RunIsLater(w: World, es: seq<EnvStep>)
    requires WorldOk(w)
    ensures var z := EnvRun(w, es);
            WorldOk(z) && z.Keys == w.Keys && forall k | k in w :: Later(w[k], z[k])
    decreases |es|
  {
    if es != [] {
      hide Enabled, AfterStep;
      var v := EnvNext(w, es[0]);
      if w != map[] {
        var k := ElementOf(w.Keys);
        StepIsLater(w, es[0], k);
      }
      RunIsLater(v, es[1..]);
      forall k | k in w ensures Later(w[k], EnvRun(w, es)[k]) {
        StepIsLater(w, es[0], k);
      }
    }
  }

  // ---------------------------------------------------------------- the hub's caches

  /** (candidate id, filename) */
  type MatchedFile = (int, string)

  /** Persisted bytes by candidate and filename. */
  type CandidateBytes = map<int, map<string, int>>

  /**
   What the last refresh stored: the live-matched files of its snapshot, the rows its job query and
   its detail query saw, and the exact bytes of the candidates that had a live match.
  */
  datatype Cache = Cache(
    matched: set<MatchedFile>, rows: map<FileKey, int>, states: map<FileKey, TransferState>,
    bytes: CandidateBytes)

  /** The lookup index over a ListDownloads snapshot of the world. */
  function Snapshot(w: World): LiveIndex {
    LiveIndex(map[], map k | k in w && w[k].live.Some? ::
      RemoteTransfer("", k.0, k.1, w[k].live.value.state, w[k].live.value.bytes, 0, 0, 0))
  }

  function LiveMatchedFileSet(cands: seq<Candidate>, idx: LiveIndex): set<MatchedFile> {
    set c, f | c in cands && f in c.files && (c.username, f) in idx.byFallback :: (c.id, f)
  }

  /** Candidates have distinct ids and their files exist in the world. */
  ghost predicate Tracked(cands: seq<Candidate>, w: World) {
    && (forall c, d | c in cands && d in cands && c.id == d.id :: c == d)
    && (forall c, f | c in cands && f in c.files :: (c.username, f) in w)
  }

  function Rows(w: World): map<FileKey, int> {
    map k | k in w :: w[k].bytes
  }

  function States(w: World): map<FileKey, TransferState> {
    map k | k in w :: w[k].state
  }

  function BytesOf(c: Candidate, w: World): map<string, int>
    requires forall f | f in c.files :: (c.username, f) in w
  {
    map f | f in c.files :: w[(c.username, f)].bytes
  }

  function MatchedIds(cands: seq<Candidate>, idx: LiveIndex): set<int> {
    set c | c in cands && LiveMatched(c.username, c.files, idx) :: c.id
  }

  /**
   What one refresh commits: the matched files of its snapshot `w0`, the job rows read at `w1`, the
   detail rows at `w2` and the bytes at `w3`. Without a single live match the previous bytes stay.
  */
  ghost function Refreshed(cands: seq<Candidate>, prev: CandidateBytes, w0: World, w1: World, w2: World, w3: World)
    : Cache
    requires Tracked(cands, w3)
  {
    var idx := Snapshot(w0);
    var live := MatchedIds(cands, idx);
    Cache(LiveMatchedFileSet(cands, idx), Rows(w1), States(w2),
          if live == {} then prev
          else map id | id in live :: BytesOf(ById(cands, id), w3))
  }

  ghost function ById(cands: seq<Candidate>, id: int): (c: Candidate)
    requires exists c :: c in cands && c.id == id
    ensures c in cands && c.id == id
  {
    var c :| c in cands && c.id == id;
    c
  }

  const NOTHING_LIVE := LiveIndex(map[], map[])

  /** The store's own AlbumBytesDone: the sum of the rows its query saw. */
  function AlbumBytes(rows: map<FileKey, int>, c: Candidate): int {
    SumBytes(c.username, c.files, NOTHING_LIVE,
             map f | f in c.files && (c.username, f) in rows :: rows[(c.username, f)])
  }

  /** What a tick with snapshot `w0` shows for a candidate. */
  function Frame(cache: Cache, w0: World, c: Candidate): int {
    JobBytesDone(c.username, c.files, c.id, AlbumBytes(cache.rows, c), Snapshot(w0), cache.bytes)
  }

  function TrueValues(w: World, c: Candidate): map<string, int>
    requires forall f | f in c.files :: (c.username, f) in w
  {
    map f | f in c.files :: Value(w[(c.username, f)])
  }

  /** What is true of the candidate: live bytes where live, persisted bytes elsewhere. */
  function Truth(w: World, c: Candidate): int
    requires forall f | f in c.files :: (c.username, f) in w
  {
    Total(c.files, TrueValues(w, c))
  }

  predicate HasMatch(cache: Cache, c: Candidate) {
    exists i :: 0 <= i < |c.files| && (c.id, c.files[i]) in cache.matched
  }

  /** Bytes held for a candidate cover its files and are not ahead of the rows. */
  ghost predicate BytesOk(cands: seq<Candidate>, bytes: CandidateBytes, w: World)
    requires Tracked(cands, w)
  {
    forall c | c in cands && c.id in bytes ::
      forall f | f in c.files :: f in bytes[c.id] && bytes[c.id][f] <= w[(c.username, f)].bytes
  }

  /** The cache is not ahead of the rows and holds the bytes of every candidate it has a match for. */
  ghost predicate CacheOk(cands: seq<Candidate>, cache: Cache, w: World)
    requires Tracked(cands, w)
  {
    && cache.rows.Keys == w.Keys && cache.states.Keys == w.Keys
    && (forall k | k in w :: cache.rows[k] <= w[k].bytes && (Terminal(cache.states[k]) ==> Terminal(w[k].state)))
    && BytesOk(cands, cache.bytes, w)
    && (forall c | c in cands && HasMatch(cache, c) :: c.id in cache.bytes)
  }

  function HeldBytes(cache: Cache, c: Candidate, f: string): int
    requires c.id in cache.bytes
  {
    if f in cache.bytes[c.id] then cache.bytes[c.id][f] else 0
  }

  function RowBytes(cache: Cache, c: Candidate, f: string): int {
    if (c.username, f) in cache.rows then cache.rows[(c.username, f)] else 0
  }

  /** What a frame attributes to one file, whichever cache a tick with snapshot `w0` finds. */
  function Shown(cache: Cache, w0: World, c: Candidate, f: string): int
    requires (c.username, f) in w0
  {
    var live := w0[(c.username, f)].live;
    if !LiveMatched(c.username, c.files, Snapshot(w0)) || c.id !in cache.bytes then RowBytes(cache, c, f)
    else if live.Some? then live.value.bytes
    else HeldBytes(cache, c, f)
  }

  /** What the cache has for a file that is not live. */
  function Cached(cache: Cache, c: Candidate, f: string): int {
    if HasMatch(cache, c) && c.id in cache.bytes then HeldBytes(cache, c, f) else RowBytes(cache, c, f)
  }

  function ShownValues(cache: Cache, w0: World, c: Candidate): map<string, int>
    requires forall f | f in c.files :: (c.username, f) in w0
  {
    map f | f in c.files :: Shown(cache, w0, c, f)
  }

  // ---------------------------------------------------------------- sums

  /** Sums compare as their terms do, and are equal only if every term is. */
  lemma {:induction false} TotalMonotone(files: seq<string>, a: map<string, int>, b: map<string, int>)
    requires forall f | f in files :: f in a && f in b && a[f] <= b[f]
    ensures Total(files, a) <= Total(files, b)
    ensures Total(files, a) == Total(files, b) <==> forall f | f in files :: a[f] == b[f]
  {
    if files != [] {
      var init, last := files[..|files| - 1], files[|files| - 1];
      assert last in files && forall f | f in init :: f in files;
      assert forall f | f in files :: f in init || f == last;
      TotalMonotone(init, a, b);
    }
  }

  /** The matched set the hub compares decides which branch the frame takes. */
  lemma MatchMeansLive(cands: seq<Candidate>, cache: Cache, w0: World, c: Candidate)
    requires Tracked(cands, w0) && c in cands
    requires cache.matched == LiveMatchedFileSet(cands, Snapshot(w0))
    ensures HasMatch(cache, c) <==> LiveMatched(c.username, c.files, Snapshot(w0))
    ensures forall f | f in c.files :: (c.id, f) in cache.matched <==> w0[(c.username, f)].live.Some?
  {
    forall f | f in c.files ensures (c.id, f) in cache.matched <==> w0[(c.username, f)].live.Some? {
      if (c.id, f) in cache.matched {
        var d, g :| d in cands && g in d.files && (d.username, g) in Snapshot(w0).byFallback && (d.id, g) == (c.id, f);
        assert d == c;
      }
    }
  }

  /** In every branch the frame is one direct per-file sum. */
  lemma FrameIsSum(cache: Cache, w0: World, c: Candidate)
    requires forall f | f in c.files :: (c.username, f) in w0
    ensures Frame(cache, w0, c) == Total(c.files, ShownValues(cache, w0, c))
  {
    var g := ShownValues(cache, w0, c);
    if LiveMatched(c.username, c.files, Snapshot(w0)) && c.id in cache.bytes {
      TotalOfSum(c.username, c.files, Snapshot(w0), cache.bytes[c.id], g);
    } else {
      var rows := map f | f in c.files && (c.username, f) in cache.rows :: cache.rows[(c.username, f)];
      TotalOfSum(c.username, c.files, NOTHING_LIVE, rows, g);
    }
  }

  /** And that total is what the job's object carries in the live frame. */
  lemma JobObjectShowsFrame(cache: Cache, w0: World, c: Candidate, view: LiveFrames.JobView, framedAt: int)
    requires view.attempt == Some(c) && view.albumBytesDone == AlbumBytes(cache.rows, c)
    requires forall f | f in c.files :: (c.username, f) in w0
    ensures LiveFrames.ToJobBody(view, Snapshot(w0), cache.bytes, framedAt).bytesDone
         == Total(c.files, ShownValues(cache, w0, c))
  {
    FrameIsSum(cache, w0, c);
  }

  /** A cache that has the tick's own matches serves live bytes where live, its own elsewhere. */
  lemma ShownAgrees(cands: seq<Candidate>, cache: Cache, w0: World, w: World, c: Candidate, f: string)
    requires Tracked(cands, w0) && Tracked(cands, w) && c in cands && f in c.files
    requires cache.matched == LiveMatchedFileSet(cands, Snapshot(w0)) && CacheOk(cands, cache, w)
    ensures var live := w0[(c.username, f)].live;
            Shown(cache, w0, c, f) == if live.Some? then live.value.bytes else Cached(cache, c, f)
  {
    MatchMeansLive(cands, cache, w0, c);
    var i :| 0 <= i < |c.files| && c.files[i] == f;
    hide LiveMatchedFileSet, BytesOk;
  }

  /** No frame is ahead of the files, not even one whose cache another refresh has moved since. */
  lemma ShownIsBehind(cands: seq<Candidate>, cache: Cache, w0: World, w: World, c: Candidate, f: string)
    requires Tracked(cands, w0) && Tracked(cands, w) && c in cands && f in c.files && CacheOk(cands, cache, w)
    requires w0[(c.username, f)].live.Some? ==> Later(w0[(c.username, f)], w[(c.username, f)])
    requires FileOk(w[(c.username, f)])
    ensures Shown(cache, w0, c, f) <= Value(w[(c.username, f)])
  {
    hide HasMatch, LiveMatched, Snapshot;
  }

  // ---------------------------------------------------------------- what a frame shows

  function AllFiles(cands: seq<Candidate>): set<(Candidate, string)> {
    set c, f | c in cands && f in c.files :: (c, f)
  }

  /** toJobDetailDTO's rule for the state shown of one transfer. */
  function ShownState(persisted: TransferState, live: Option<TransferState>): TransferState {
    match live
    case None => persisted
    case Some(s) => if Terminal(persisted) then persisted else s
  }

  /** Finished exactly if either side is; a persisted outcome stands, anything else gives way to the live state. */
  lemma ShownStateIsMonotone(persisted: TransferState, live: Option<TransferState>)
    ensures ShownState(persisted, live) in {Completed, Errored, Cancelled} <==>
              || persisted in {Completed, Errored, Cancelled}
              || (live.Some? && live.value in {Completed, Errored, Cancelled})
    ensures persisted in {Completed, Errored, Cancelled} ==> ShownState(persisted, live) == persisted
    ensures persisted in {Pending, Queued, InProgress, Stalled} ==>
              ShownState(persisted, live) == if live.Some? then live.value else persisted
  {
  }

  function StateShown(cache: Cache, w0: World, c: Candidate, f: string): TransferState
    requires (c.username, f) in w0 && (c.username, f) in cache.states
  {
    var k := (c.username, f);
    ShownState(cache.states[k], if w0[k].live.Some? then Some(w0[k].live.value.state) else None)
  }

  function ShowAll(cands: seq<Candidate>, cache: Cache, w0: World): map<(Candidate, string), int>
    requires forall c, f | c in cands && f in c.files :: (c.username, f) in w0
  {
    map p: (Candidate, string) | p in AllFiles(cands) :: Shown(cache, w0, p.0, p.1)
  }

  function OverAll(cands: seq<Candidate>, cache: Cache, w0: World): set<(Candidate, string)>
    requires forall c, f | c in cands && f in c.files :: (c.username, f) in w0 && (c.username, f) in cache.states
  {
    set p: (Candidate, string) | p in AllFiles(cands)
                                 && StateShown(cache, w0, p.0, p.1) in {Completed, Errored, Cancelled}
  }

  function StateAll(cands: seq<Candidate>, cache: Cache, w0: World): map<(Candidate, string), TransferState>
    requires forall c, f | c in cands && f in c.files :: (c.username, f) in w0 && (c.username, f) in cache.states
  {
    map p: (Candidate, string) | p in AllFiles(cands) :: StateShown(cache, w0, p.0, p.1)
  }

  /** The rows of `b` were read no earlier than `a`. */
  ghost predicate RowsGrow(a: World, b: World) {
    a.Keys == b.Keys
    && forall k | k in a :: a[k].bytes <= b[k].bytes && (Terminal(a[k].state) ==> Terminal(b[k].state))
  }

  ghost predicate AllLater(a: World, b: World) {
    a.Keys == b.Keys && forall k | k in a :: Later(a[k], b[k])
  }

  /** A refresh fetches the bytes of exactly the candidates a frame will ask them for. */
  lemma RefreshServes(cands: seq<Candidate>, prev: CandidateBytes, w0: World, w1: World, w2: World, w3: World,
                      c: Candidate)
    requires Tracked(cands, w0) && Tracked(cands, w3) && c in cands
    ensures var cache := Refreshed(cands, prev, w0, w1, w2, w3);
            && (HasMatch(cache, c) ==> c.id in cache.bytes && cache.bytes[c.id] == BytesOf(c, w3))
            && (c.id in cache.bytes ==> cache.bytes == prev || cache.bytes[c.id] == BytesOf(c, w3))
  {
    var cache := Refreshed(cands, prev, w0, w1, w2, w3);
    MatchMeansLive(cands, cache, w0, c);
    assert ById(cands, c.id) == c;
    if HasMatch(cache, c) {
      assert c.id in MatchedIds(cands, Snapshot(w0));
    }
  }

  lemma RefreshHoldsBytes(cands: seq<Candidate>, prev: CandidateBytes, w0: World, w1: World, w2: World, w3: World,
                          w: World)
    requires Tracked(cands, w0) && Tracked(cands, w) && Tracked(cands, w3)
    requires RowsGrow(w3, w) && BytesOk(cands, prev, w)
    ensures BytesOk(cands, Refreshed(cands, prev, w0, w1, w2, w3).bytes, w)
  {
    hide HasMatch, Refreshed, Snapshot;
    forall c | c in cands
      ensures var bytes := Refreshed(cands, prev, w0, w1, w2, w3).bytes;
              c.id in bytes ==> bytes == prev || bytes[c.id] == BytesOf(c, w3)
    {
      RefreshServes(cands, prev, w0, w1, w2, w3, c);
    }
  }

  /** Whatever it reads, and however late it commits, a refresh leaves a cache that is not ahead of the rows. */
  lemma RefreshFillsCache(cands: seq<Candidate>, prev: CandidateBytes, w0: World, w1: World, w2: World, w3: World,
                          w: World)
    requires Tracked(cands, w0) && Tracked(cands, w) && Tracked(cands, w3)
    requires RowsGrow(w1, w) && RowsGrow(w2, w) && RowsGrow(w3, w) && BytesOk(cands, prev, w)
    ensures CacheOk(cands, Refreshed(cands, prev, w0, w1, w2, w3), w)
  {
    hide HasMatch, MatchedIds, BytesOk;
    var cache := Refreshed(cands, prev, w0, w1, w2, w3);
    RefreshHoldsBytes(cands, prev, w0, w1, w2, w3, w);
    forall c | c in cands ensures HasMatch(cache, c) ==> c.id in cache.bytes {
      RefreshServes(cands, prev, w0, w1, w2, w3, c);
    }
  }

  /** Whatever branch serves a file, it was read after the snapshot. */
  lemma RefreshIsNoOlder(cands: seq<Candidate>, prev: CandidateBytes, w0: World, w1: World, w2: World, w3: World,
                         c: Candidate, f: string)
    requires Tracked(cands, w0) && c in cands && f in c.files && Tracked(cands, w3)
    requires RowsGrow(w0, w1) && RowsGrow(w0, w2) && RowsGrow(w0, w3)
    ensures var (cache, k) := (Refreshed(cands, prev, w0, w1, w2, w3), (c.username, f));
            && w0[k].bytes <= Cached(cache, c, f)
            && k in cache.states && (Terminal(w0[k].state) ==> Terminal(cache.states[k]))
  {
    hide HasMatch;
    RefreshServes(cands, prev, w0, w1, w2, w3, c);
  }

  lemma CacheIsBehind(cands: seq<Candidate>, cache: Cache, w: World, c: Candidate, f: string)
    requires Tracked(cands, w) && CacheOk(cands, cache, w) && c in cands && f in c.files
    ensures Cached(cache, c, f) <= w[(c.username, f)].bytes
  {
    hide HasMatch;
  }
}
