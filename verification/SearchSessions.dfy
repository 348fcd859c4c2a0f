/**
 The manual search sessions of internal/app/search.go: one session's accumulated groups and version
 counter, and the registry that bounds how many run at once.
*/
module SearchSessions {
  import opened Basics
  import opened KeyedLists
  import opened SearchResults
  import opened Modal

  const MAX_RESULTS := 2000
  const MAX_SESSIONS := 8
  const SECOND := 1_000_000_000
  const SESSION_TTL := 5 * 60 * SECOND
  const FORCE_CANCEL_GRACE := 60 * SECOND

  // ---------------------------------------------------------------- one group's display shape

  datatype SearchFile = SearchFile(
    filename: string, name: string, size: int, bitRate: int, duration: int, sampleRate: int, bitDepth: int,
    variableBitRate: bool)

  datatype GroupBody = GroupBody(
    peer: string, folder: string, title: string, parent: string,
    trackCount: nat, sizeBytes: int, durationSeconds: int, format: string,
    bitRate: int, sampleRate: int, bitDepth: int, variableBitRate: bool,
    freeUploadSlot: bool, queueLength: int, uploadSpeed: int, score: real,
    files: multiset<SearchFile>, version: nat)

  /** The raw files offered so far for one (peer, release directory). */
  datatype Accum = Accum(peer: string, dir: string, files: seq<SearchResult>)

  const AUDIO_EXTENSIONS := {".flac", ".mp3", ".m4a", ".aac", ".ogg", ".opus", ".wav", ".wma", ".ape", ".wv", ".alac"}

  function FileOf(lib: Lib, f: SearchResult): SearchFile {
    SearchFile(f.filename, lib.baseOf(f.filename), f.size, f.bitRate, f.duration, f.sampleRate, f.bitDepth,
               f.variableBitRate)
  }

  /** What the files of a group add up to. */
  datatype Tally = Tally(
    exts: seq<string>, size: int, duration: int, allDurations: bool,
    bitRates: seq<int>, sampleRates: seq<int>, bitDepths: seq<int>, variable: bool, formatScore: real,
    freeSlot: bool, queueLength: int, uploadSpeed: int, files: multiset<SearchFile>)

  const NO_FILES := Tally([], 0, 0, true, [], [], [], false, 0.0, false, 0, 0, multiset{})

  /** One more file; the peer's upload signals are those of the last one. */
  function WithFile(lib: Lib, t: Tally, f: SearchResult): Tally {
    var ext := lib.extOf(f.filename);
    Tally(
      if ext in AUDIO_EXTENSIONS then t.exts + [ext] else t.exts,
      t.size + f.size,
      t.duration + if f.duration > 0 then f.duration else 0,
      t.allDurations && f.duration > 0,
      t.bitRates + [f.bitRate], t.sampleRates + [f.sampleRate], t.bitDepths + [f.bitDepth],
      t.variable || f.variableBitRate,
      t.formatScore + FormatScore(f.filename),
      f.hasFreeUploadSlot, f.queueLength, f.uploadSpeed,
      t.files + multiset{FileOf(lib, f)})
  }

  function TallyOf(lib: Lib, files: seq<SearchResult>): Tally {
    if files == [] then NO_FILES else WithFile(lib, TallyOf(lib, files[..|files| - 1]), files[|files| - 1])
  }

  function TrimDot(s: string): string {
    if s != [] && s[0] == '.' then s[1..] else s
  }

  ghost function ModalInt(values: seq<int>): int {
    ModalOf(multiset(NonZero(values)), 0, IntLess())
  }

  ghost function ModalText(values: seq<string>): string {
    TextLessTotal();
    ModalOf(multiset(values), "", TextLess())
  }

  function Average(sum: real, n: nat): real {
    if n == 0 then 0.0 else sum / n as real
  }

  function Score(t: Tally, files: nat, bitRate: int): real {
    Average(t.formatScore, files) + ReliabilityScore(t.freeSlot, t.queueLength) + bitRate as real / 1000.0
  }

  ghost function GroupOf(lib: Lib, a: Accum, version: nat): (g: GroupBody)
    ensures g.version == version
  {
    var t := TallyOf(lib, a.files);
    var bitRate := ModalInt(t.bitRates);
    GroupBody(
      a.peer, a.dir, lib.baseOf(a.dir), lib.baseOf(lib.dirOf(a.dir)),
      |t.exts|, t.size, if a.files != [] && t.allDurations then t.duration else 0, TrimDot(ModalText(t.exts)),
      bitRate, ModalInt(t.sampleRates), ModalInt(t.bitDepths), t.variable,
      t.freeSlot, t.queueLength, t.uploadSpeed,
      Score(t, |a.files|, bitRate), t.files, version)
  }

  method ModalIntOf(values: seq<int>) returns (best: int)
    ensures best == ModalInt(values)
  {
    best := ModalSearchInt(values);
    if NonZero(values) != [] {
      assert NonZero(values)[0] in multiset(NonZero(values));
      ModalIsUnique(multiset(NonZero(values)), best, ModalInt(values), IntLess());
    }
  }

  method FormatOf(counts: map<string, nat>, ghost exts: seq<string>) returns (format: string)
    requires Counts(counts, multiset(exts)) && "" !in counts
    ensures format == TrimDot(ModalText(exts))
  {
    var best := ModalSearchString(counts);
    TextLessTotal();
    if exts == [] {
      assert forall v :: v !in counts;
    } else {
      assert exts[0] in counts;
      LeadsAll(counts, multiset(exts), best, TextLess());
      ModalIsUnique(multiset(exts), best, ModalText(exts), TextLess());
    }
    format := TrimDot(best);
  }

  method TallyFiles(lib: Lib, files: seq<SearchResult>) returns (t: Tally, formatCounts: map<string, nat>)
    ensures t == TallyOf(lib, files)
    ensures Counts(formatCounts, multiset(t.exts)) && "" !in formatCounts
  {
    t := NO_FILES;
    formatCounts := map[];
    for i := 0 to |files|
      invariant t == TallyOf(lib, files[..i])
      invariant Counts(formatCounts, multiset(t.exts)) && "" !in formatCounts
    {
      assert files[..i + 1][..i] == files[..i];
      var ext := lib.extOf(files[i].filename);
      if ext in AUDIO_EXTENSIONS {
        CountAdds(formatCounts, multiset(t.exts), ext);
        formatCounts := Count(formatCounts, ext);
      }
      t := WithFile(lib, t, files[i]);
    }
    assert files[..|files|] == files;
  }

  /**
   Rebuilds a group's display shape. Its modal fields come out of loops over maps; the result is the
   same for every iteration order.
  */
  method BuildSearchGroup(lib: Lib, a: Accum, version: nat) returns (g: GroupBody)
    ensures g == GroupOf(lib, a, version)
  {
    hide ModalText, ModalInt, Score;
    var t, formatCounts := TallyFiles(lib, a.files);
    var format := FormatOf(formatCounts, t.exts);
    var bitRate := ModalIntOf(t.bitRates);
    var sampleRate := ModalIntOf(t.sampleRates);
    var bitDepth := ModalIntOf(t.bitDepths);
    g := GroupBody(
      a.peer, a.dir, lib.baseOf(a.dir), lib.baseOf(lib.dirOf(a.dir)),
      |t.exts|, t.size, if |a.files| > 0 && t.allDurations then t.duration else 0, format,
      bitRate, sampleRate, bitDepth, t.variable, t.freeSlot, t.queueLength, t.uploadSpeed,
      Score(t, |a.files|, bitRate), t.files, version);
  }

  // ---------------------------------------------------------------- one session

  datatype Session = Session(
    startedAt: int, finishedAt: int, done: bool, truncated: bool, err: string,
    total: nat, seqNo: nat, raw: map<int, Accum>, groups: map<int, GroupBody>)

  function IdOf(lib: Lib, r: SearchResult): int {
    lib.groupId(r.username, lib.dirOf(r.filename))
  }

  function AddOne(lib: Lib, raw: map<int, Accum>, r: SearchResult): map<int, Accum> {
    var id := IdOf(lib, r);
    var a := if id in raw then raw[id] else Accum(r.username, lib.dirOf(r.filename), []);
    raw[id := a.(files := a.files + [r])]
  }

  function AddAll(lib: Lib, raw: map<int, Accum>, rs: seq<SearchResult>): map<int, Accum> {
    if rs == [] then raw else AddOne(lib, AddAll(lib, raw, rs[..|rs| - 1]), rs[|rs| - 1])
  }

  function Room(total: nat): nat {
    if total < MAX_RESULTS then MAX_RESULTS - total else 0
  }

  function Kept(total: nat, rs: seq<SearchResult>): seq<SearchResult> {
    rs[..Min(|rs|, Room(total))]
  }

  function IdsOf(lib: Lib, rs: seq<SearchResult>): set<int> {
    set r | r in rs :: IdOf(lib, r)
  }

  ghost function Rebuilt(lib: Lib, groups: map<int, GroupBody>, raw: map<int, Accum>, ids: set<int>, version: nat)
    : map<int, GroupBody>
    requires ids <= raw.Keys
  {
    groups + (map id | id in ids :: GroupOf(lib, raw[id], version))
  }

  lemma {:induction false} AddAllKeys(lib: Lib, raw: map<int, Accum>, rs: seq<SearchResult>)
    ensures AddAll(lib, raw, rs).Keys == raw.Keys + IdsOf(lib, rs)
  {
    if rs != [] {
      var init, last := rs[..|rs| - 1], rs[|rs| - 1];
      AddAllKeys(lib, raw, init);
      assert rs == init + [last];
      assert IdsOf(lib, rs) == IdsOf(lib, init) + {IdOf(lib, last)};
    }
  }

  /** What one emitted batch does to the session. */
  ghost function Accepted(lib: Lib, s: Session, rs: seq<SearchResult>): Session {
    var kept := Kept(s.total, rs);
    var raw := AddAll(lib, s.raw, kept);
    AddAllKeys(lib, s.raw, kept);
    var t := s.(truncated := s.truncated || |rs| > Room(s.total));
    if kept == [] then t
    else t.(total := s.total + |kept|, seqNo := s.seqNo + 1, raw := raw,
            groups := Rebuilt(lib, s.groups, raw, IdsOf(lib, kept), s.seqNo + 1))
  }

  function Finished(s: Session, err: string, now: int): Session {
    s.(done := true, finishedAt := now, err := if err != "" then err else s.err)
  }

  predicate Expired(s: Session, now: int, timeout: int) {
    if s.done then now - s.finishedAt > SESSION_TTL
    else now - s.startedAt > timeout + FORCE_CANCEL_GRACE + SESSION_TTL
  }

  function NewSession(now: int): Session {
    Session(now, 0, false, false, "", 0, 0, map[], map[])
  }

  datatype SearchDelta = SearchDelta(
    seqNo: nat, groups: seq<Item<GroupBody>>, total: nat, done: bool, truncated: bool, err: string)

  function NewerThan(groups: map<int, GroupBody>, since: nat): map<int, GroupBody> {
    map id | id in groups && groups[id].version > since :: groups[id]
  }

  ghost function DeltaSince(s: Session, since: nat): SearchDelta {
    SearchDelta(s.seqNo, Listing(NewerThan(s.groups, since)), s.total, s.done, s.truncated, s.err)
  }

  class SearchSession {
    const lib: Lib
    const startedAt: int
    var finishedAt: int
    var done: bool
    var truncated: bool
    var err: string
    var total: nat
    var seqNo: nat
    var raw: map<int, Accum>
    var groups: map<int, GroupBody>

    function State(): Session
      reads this
    {
      Session(startedAt, finishedAt, done, truncated, err, total, seqNo, raw, groups)
    }

    constructor (lib: Lib, now: int)
      ensures this.lib == lib
      ensures State() == NewSession(now)
    {
      this.lib, startedAt, finishedAt := lib, now, 0;
      done, truncated, err, total, seqNo, raw, groups := false, false, "", 0, 0, map[], map[];
    }

    /** Appends each result to its group until the cap, and names the groups that grew. */
    method Collect(results: seq<SearchResult>) returns (changed: set<int>)
      modifies this`raw, this`total, this`truncated
      ensures total == old(total) + |Kept(old(total), results)|
      ensures truncated == (old(truncated) || |results| > Room(old(total)))
      ensures raw == AddAll(lib, old(raw), Kept(old(total), results))
      ensures changed == IdsOf(lib, Kept(old(total), results))
    {
      changed := {};
      ghost var room := Room(total);
      assert results[..0] == [];
      for i := 0 to |results|
        invariant total == old(total) + Min(i, room)
        invariant truncated == (old(truncated) || i > room)
        invariant raw == AddAll(lib, old(raw), results[..Min(i, room)])
        invariant changed == IdsOf(lib, results[..Min(i, room)])
      {
        var r := results[i];
        if total >= MAX_RESULTS {
          truncated := true;
          continue;
        }
        CollectOne(lib, old(raw), results, i);
        var dir := lib.dirOf(r.filename);
        var id := lib.groupId(r.username, dir);
        var accum := Accum(r.username, dir, []);
        if id in raw {
          accum := raw[id];
        }
        raw := raw[id := accum.(files := accum.files + [r])];
        total := total + 1;
        changed := changed + {id};
      }
    }

    method Accept(results: seq<SearchResult>)
      modifies this
      ensures State() == Accepted(lib, old(State()), results)
    {
      hide GroupOf, Rebuilt, IdsOf, AddAll;
      EmptyBatch(lib, raw);
      ghost var kept := Kept(total, results);
      var changed := Collect(results);
      NoIdsNoResults(lib, kept);
      if changed == {} {
        return;
      }
      seqNo := seqNo + 1;
      AddAllKeys(lib, old(raw), kept);
      RebuildGroups(changed);
    }

    method RebuildGroups(changed: set<int>)
      requires changed <= raw.Keys
      modifies this`groups
      ensures groups == Rebuilt(lib, old(groups), raw, changed, seqNo)
    {
      hide GroupOf;
      var rest := changed;
      ghost var seen: set<int> := {};
      while rest != {}
        invariant seen <= changed && rest == changed - seen
        invariant groups == Rebuilt(lib, old(groups), raw, seen, seqNo)
        decreases |rest|
      {
        var id := AnyOf(rest);
        var g := BuildSearchGroup(lib, raw[id], seqNo);
        RebuildOne(lib, old(groups), raw, seen, id, seqNo);
        groups := groups[id := g];
        rest := rest - {id};
        SeenGrows(changed, seen, id);
        seen := seen + {id};
      }
      assert seen == changed;
    }

    method Finish(err: string, now: int)
      modifies this
      ensures State() == Finished(old(State()), err, now)
    {
      done := true;
      finishedAt := now;
      if err != "" {
        this.err := err;
      }
    }

    method IsExpired(now: int, timeout: int) returns (b: bool)
      ensures b == Expired(State(), now, timeout)
    {
      if done {
        return now - finishedAt > SESSION_TTL;
      }
      return now - startedAt > timeout + FORCE_CANCEL_GRACE + SESSION_TTL;
    }

    method Delta(since: nat) returns (d: SearchDelta)
      ensures d == DeltaSince(State(), since)
    {
      var changed: map<int, GroupBody> := map[];
      var rest := groups.Keys;
      ghost var seen: set<int> := {};
      while rest != {}
        invariant seen <= groups.Keys && rest == groups.Keys - seen
        invariant changed == map id | id in seen && groups[id].version > since :: groups[id]
        decreases |rest|
      {
        var id := AnyOf(rest);
        rest := rest - {id};
        SeenGrows(groups.Keys, seen, id);
        seen := seen + {id};
        if groups[id].version > since {
          changed := changed[id := groups[id]];
        }
      }
      assert seen == groups.Keys;
      assert changed == NewerThan(groups, since);
      var list := SortEntries(changed);
      AscendingUnique(list, Listing(changed));
      d := SearchDelta(seqNo, list, total, done, truncated, err);
    }
  }

  lemma EmptyBatch(lib: Lib, raw: map<int, Accum>)
    ensures AddAll(lib, raw, []) == raw
  {
  }

  lemma NoIdsNoResults(lib: Lib, rs: seq<SearchResult>)
    ensures IdsOf(lib, rs) == {} <==> rs == []
  {
    if rs != [] {
      assert IdOf(lib, rs[0]) in IdsOf(lib, rs);
    }
  }

  lemma CollectOne(lib: Lib, raw: map<int, Accum>, rs: seq<SearchResult>, i: nat)
    requires i < |rs|
    ensures AddAll(lib, raw, rs[..i + 1]) == AddOne(lib, AddAll(lib, raw, rs[..i]), rs[i])
    ensures IdsOf(lib, rs[..i + 1]) == IdsOf(lib, rs[..i]) + {IdOf(lib, rs[i])}
  {
    assert rs[..i + 1][..i] == rs[..i];
    assert rs[..i + 1] == rs[..i] + [rs[i]];
  }

  lemma RebuildOne(lib: Lib, groups: map<int, GroupBody>, raw: map<int, Accum>, seen: set<int>, id: int, version: nat)
    requires seen <= raw.Keys && id in raw && id !in seen
    ensures Rebuilt(lib, groups, raw, seen + {id}, version)
         == Rebuilt(lib, groups, raw, seen, version)[id := GroupOf(lib, raw[id], version)]
  {
    hide GroupOf;
  }

  // ---------------------------------------------------------------- incremental equals batch

  datatype SessionEvent = Batch(results: seq<SearchResult>) | Done(err: string, at: int)

  ghost function SessionStep(lib: Lib, s: Session, e: SessionEvent): Session {
    match e
    case Batch(rs) => Accepted(lib, s, rs)
    case Done(err, at) => Finished(s, err, at)
  }

  ghost function SessionRun(lib: Lib, s: Session, es: seq<SessionEvent>): Session {
    if es == [] then s else SessionStep(lib, SessionRun(lib, s, es[..|es| - 1]), es[|es| - 1])
  }

  /** The whole result stream, however it was cut into batches. */
  function Stream(es: seq<SessionEvent>): seq<SearchResult> {
    if es == [] then []
    else Stream(es[..|es| - 1]) + if es[|es| - 1].Batch? then es[|es| - 1].results else []
  }

  function Prefix(rs: seq<SearchResult>): seq<SearchResult> {
    rs[..Min(|rs|, MAX_RESULTS)]
  }

  /** The results of one group, in stream order. */
  function OfGroup(lib: Lib, rs: seq<SearchResult>, id: int): seq<SearchResult> {
    if rs == [] then []
    else OfGroup(lib, rs[..|rs| - 1], id) + if IdOf(lib, rs[|rs| - 1]) == id then [rs[|rs| - 1]] else []
  }

  /** Grouping from scratch: a group holds exactly the stream's results with its id, and is named by the first. */
  lemma {:induction false} GroupingIsFiltering(lib: Lib, rs: seq<SearchResult>, id: int)
    ensures var raw := AddAll(lib, map[], rs);
            && (id in raw <==> OfGroup(lib, rs, id) != [])
            && (id in raw ==>
                 var own := OfGroup(lib, rs, id);
                 raw[id] == Accum(own[0].username, lib.dirOf(own[0].filename), own))
  {
    if rs != [] {
      GroupingIsFiltering(lib, rs[..|rs| - 1], id);
    }
  }

  lemma {:induction false} AddAllAppend(lib: Lib, raw: map<int, Accum>, a: seq<SearchResult>, b: seq<SearchResult>)
    ensures AddAll(lib, raw, a + b) == AddAll(lib, AddAll(lib, raw, a), b)
  {
    if b == [] {
      assert a + b == a;
    } else {
      assert (a + b)[..|a + b| - 1] == a + b[..|b| - 1];
      AddAllAppend(lib, raw, a, b[..|b| - 1]);
    }
  }

  /** What the session knows after any run, as a function of the concatenated stream alone. */
  ghost predicate IsBatchOf(lib: Lib, s: Session, stream: seq<SearchResult>) {
    && s.total == |Prefix(stream)|
    && (s.truncated <==> |stream| > MAX_RESULTS)
    && s.raw == AddAll(lib, map[], Prefix(stream))
    && s.groups.Keys == s.raw.Keys
    && forall id | id in s.groups :: s.groups[id] == GroupOf(lib, s.raw[id], s.groups[id].version)
  }

  lemma AcceptKeepsBatch(lib: Lib, s: Session, stream: seq<SearchResult>, rs: seq<SearchResult>)
    requires IsBatchOf(lib, s, stream)
    ensures IsBatchOf(lib, Accepted(lib, s, rs), stream + rs)
  {
    hide GroupOf, Rebuilt, IdsOf, AddAll;
    EmptyBatch(lib, s.raw);
    var kept := Kept(s.total, rs);
    var t := Accepted(lib, s, rs);
    assert Prefix(stream + rs) == Prefix(stream) + kept;
    assert t.raw == AddAll(lib, map[], Prefix(stream + rs)) by {
      AddAllAppend(lib, map[], Prefix(stream), kept);
    }
    if kept != [] {
      forall id ensures id in t.groups <==> id in t.raw {
        GroupAfterAccept(lib, s, rs, id);
      }
      forall id | id in t.groups ensures t.groups[id] == GroupOf(lib, t.raw[id], t.groups[id].version) {
        GroupAfterAccept(lib, s, rs, id);
      }
    }
  }

  /** A group the batch touched is rebuilt at the new version; any other keeps its shape and its files. */
  lemma GroupAfterAccept(lib: Lib, s: Session, rs: seq<SearchResult>, id: int)
    requires s.groups.Keys == s.raw.Keys
    requires Kept(s.total, rs) != []
    ensures var t, ids := Accepted(lib, s, rs), IdsOf(lib, Kept(s.total, rs));
            && (id in t.groups <==> id in s.groups || id in ids)
            && (id in t.groups <==> id in t.raw)
            && (id in ids ==> t.groups[id] == GroupOf(lib, t.raw[id], s.seqNo + 1))
            && (id in s.groups && id !in ids ==> t.groups[id] == s.groups[id] && t.raw[id] == s.raw[id])
  {
    hide GroupOf;
    var kept := Kept(s.total, rs);
    AddAllKeys(lib, s.raw, kept);
    if id !in IdsOf(lib, kept) {
      AddAllElsewhere(lib, s.raw, kept, id);
    }
  }

  lemma {:induction false} AddAllElsewhere(lib: Lib, raw: map<int, Accum>, rs: seq<SearchResult>, id: int)
    requires id !in IdsOf(lib, rs)
    ensures id in AddAll(lib, raw, rs) <==> id in raw
    ensures id in raw ==> AddAll(lib, raw, rs)[id] == raw[id]
  {
    if rs != [] {
      var init, last := rs[..|rs| - 1], rs[|rs| - 1];
      assert last in rs && forall r | r in init :: r in rs;
      AddAllElsewhere(lib, raw, init, id);
    }
  }

  /**
   After any split of the result stream into batches, with or without the final outcome recorded, the
   session equals one grouping of the first 2000 results from scratch.
  */
  lemma {:induction false} IncrementalEqualsBatch(lib: Lib, now: int, es: seq<SessionEvent>)
    ensures IsBatchOf(lib, SessionRun(lib, NewSession(now), es), Stream(es))
  {
    if es == [] {
      assert Prefix([]) == [];
    } else {
      var init, e := es[..|es| - 1], es[|es| - 1];
      IncrementalEqualsBatch(lib, now, init);
      match e
      case Batch(rs) => AcceptKeepsBatch(lib, SessionRun(lib, NewSession(now), init), Stream(init), rs);
      case Done(_, _) => assert Stream(es) == Stream(init);
    }
  }

  function Unversioned(groups: map<int, GroupBody>): map<int, GroupBody> {
    map id | id in groups :: groups[id].(version := 0)
  }

  lemma VersionAside(lib: Lib, a: Accum, version: nat)
    ensures GroupOf(lib, a, version).(version := 0) == GroupOf(lib, a, 0)
  {
  }

  /** So two sessions that saw the same stream show the same groups, versions apart. */
  lemma SplitDoesNotMatter(lib: Lib, now: int, now': int, es: seq<SessionEvent>, es': seq<SessionEvent>)
    requires Stream(es) == Stream(es')
    ensures var s, s' := SessionRun(lib, NewSession(now), es), SessionRun(lib, NewSession(now'), es');
            && s.total == s'.total && s.truncated == s'.truncated
            && Unversioned(s.groups) == Unversioned(s'.groups)
  {
    hide GroupOf, SessionRun, AddAll;
    IncrementalEqualsBatch(lib, now, es);
    IncrementalEqualsBatch(lib, now', es');
    var s, s' := SessionRun(lib, NewSession(now), es), SessionRun(lib, NewSession(now'), es');
    forall id | id in s.groups ensures s.groups[id].(version := 0) == s'.groups[id].(version := 0) {
      VersionAside(lib, s.raw[id], s.groups[id].version);
      VersionAside(lib, s'.raw[id], s'.groups[id].version);
    }
  }
}
