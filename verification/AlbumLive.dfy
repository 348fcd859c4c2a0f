/**
 Live (in-memory) transfers joined onto persisted ones: the lookup index over a ListDownloads
 snapshot and the album-level aggregates both transports show.
*/
module AlbumLive {
  import opened Basics

  datatype TransferState = Pending | Queued | InProgress | Completed | Errored | Cancelled | Stalled

  predicate Terminal(s: TransferState) {
    s == Completed || s == Errored || s == Cancelled
  }

  /** A job's current candidate: one peer and the files wanted from it. */
  datatype Candidate = Candidate(id: int, username: string, files: seq<string>)

  datatype RemoteTransfer = RemoteTransfer(
    id: string, username: string, filename: string, state: TransferState,
    bytesDone: int, speed: int, speedAverage: int, queuePosition: nat)

  /** A transfer's (username, filename), the half of the match that needs no remote id. */
  type FileKey = (string, string)

  datatype LiveIndex = LiveIndex(byId: map<string, RemoteTransfer>, byFallback: map<FileKey, RemoteTransfer>)

  function KeyOf(t: RemoteTransfer): FileKey {
    (t.username, t.filename)
  }

  function IndexOf(live: seq<RemoteTransfer>): LiveIndex {
    if live == [] then LiveIndex(map[], map[])
    else
      var t := live[|live| - 1];
      var idx := IndexOf(live[..|live| - 1]);
      LiveIndex(idx.byId[t.id := t], idx.byFallback[KeyOf(t) := t])
  }

  method NewLiveTransferIndex(live: seq<RemoteTransfer>) returns (idx: LiveIndex)
    ensures idx == IndexOf(live)
  {
    idx := LiveIndex(map[], map[]);
    for n := 0 to |live|
      invariant idx == IndexOf(live[..n])
    {
      var t := live[n];
      assert live[..n + 1][..n] == live[..n];
      idx := LiveIndex(idx.byId[t.id := t], idx.byFallback[KeyOf(t) := t]);
    }
    assert live[..|live|] == live;
  }

  /** Of several entries with one key the last one wins. */
  lemma {:induction false} LastEntryWins(live: seq<RemoteTransfer>, i: nat)
    requires i < |live|
    requires forall j | i < j < |live| :: KeyOf(live[j]) != KeyOf(live[i])
    ensures KeyOf(live[i]) in IndexOf(live).byFallback
    ensures IndexOf(live).byFallback[KeyOf(live[i])] == live[i]
  {
    if i < |live| - 1 {
      LastEntryWins(live[..|live| - 1], i);
    }
  }

  /** Nothing is matched that the snapshot does not hold. */
  lemma {:induction false} IndexedKeyOccurs(live: seq<RemoteTransfer>, k: FileKey) returns (i: nat)
    requires k in IndexOf(live).byFallback
    ensures i < |live| && KeyOf(live[i]) == k && live[i] == IndexOf(live).byFallback[k]
  {
    i := |live| - 1;
    if KeyOf(live[i]) != k {
      i := IndexedKeyOccurs(live[..i], k);
    }
  }

  function MatchFile(idx: LiveIndex, username: string, filename: string): Option<RemoteTransfer> {
    if (username, filename) in idx.byFallback then Some(idx.byFallback[(username, filename)]) else None
  }

  predicate LiveMatched(username: string, files: seq<string>, idx: LiveIndex) {
    exists i :: 0 <= i < |files| && (username, files[i]) in idx.byFallback
  }

  method AnyLiveMatch(username: string, files: seq<string>, idx: LiveIndex) returns (any: bool)
    ensures any == LiveMatched(username, files, idx)
  {
    for i := 0 to |files|
      invariant forall j | 0 <= j < i :: (username, files[j]) !in idx.byFallback
    {
      if (username, files[i]) in idx.byFallback {
        return true;
      }
    }
    return false;
  }

  /** One file's bytes: its live count in any state, or else what the store has persisted for it. */
  function FileBytes(username: string, filename: string, idx: LiveIndex, persisted: map<string, int>): int {
    match MatchFile(idx, username, filename)
    case Some(lt) => lt.bytesDone
    case None => if filename in persisted then persisted[filename] else 0
  }

  function SumBytes(username: string, files: seq<string>, idx: LiveIndex, persisted: map<string, int>): int {
    if files == [] then 0
    else SumBytes(username, files[..|files| - 1], idx, persisted)
         + FileBytes(username, files[|files| - 1], idx, persisted)
  }

  /** The sum of a value over the files. */
  function Total(files: seq<string>, g: map<string, int>): int {
    if files == [] then 0
    else Total(files[..|files| - 1], g) + if files[|files| - 1] in g then g[files[|files| - 1]] else 0
  }

  lemma {:induction false} TotalOfSum(username: string, files: seq<string>, idx: LiveIndex, p: map<string, int>,
                                      g: map<string, int>)
    requires forall f | f in files :: f in g && g[f] == FileBytes(username, f, idx, p)
    ensures SumBytes(username, files, idx, p) == Total(files, g)
  {
    if files != [] {
      var init, last := files[..|files| - 1], files[|files| - 1];
      assert last in files && forall f | f in init :: f in files;
      TotalOfSum(username, init, idx, p, g);
    }
  }

  method SumFileBytesDone(username: string, files: seq<string>, idx: LiveIndex, persisted: map<string, int>)
    returns (done: int)
    ensures done == SumBytes(username, files, idx, persisted)
  {
    done := 0;
    for i := 0 to |files|
      invariant done == SumBytes(username, files[..i], idx, persisted)
    {
      assert files[..i + 1][..i] == files[..i];
      done := done + FileBytes(username, files[i], idx, persisted);
    }
    assert files[..|files|] == files;
  }

  /** A job's album-level byte count, the same for REST and the stream. */
  function JobBytesDone(username: string, files: seq<string>, candidateId: int, albumBytesDone: int,
                        idx: LiveIndex, persisted: map<int, map<string, int>>): int {
    if !LiveMatched(username, files, idx) || candidateId !in persisted then albumBytesDone
    else SumBytes(username, files, idx, persisted[candidateId])
  }

  const MAX_ETA_SECONDS := 30 * 24 * 3600

  /** The most whole seconds that do not overrun the remaining bytes, up to thirty days; 0 without an estimate. */
  function EtaSeconds(remaining: int, avgSpeed: int): (eta: int)
    ensures 0 <= eta <= 2_592_000
    ensures eta > 0 ==> eta * avgSpeed <= remaining
    ensures avgSpeed > 0 && remaining > 0 && eta < 2_592_000 ==> remaining < (eta + 1) * avgSpeed
    ensures avgSpeed <= 0 || remaining <= 0 ==> eta == 0
  {
    if avgSpeed <= 0 || remaining <= 0 then 0
    else
      var eta := remaining / avgSpeed;
      if eta > MAX_ETA_SECONDS then
        assert MAX_ETA_SECONDS * avgSpeed <= eta * avgSpeed;
        MAX_ETA_SECONDS
      else eta
  }

  datatype LiveAlbum = LiveAlbum(speed: int, speedAvg: int, queuePosition: Option<nat>, matched: bool)

  /** The transfer of a file that can still make progress. */
  function Working(username: string, filename: string, idx: LiveIndex): Option<RemoteTransfer> {
    match MatchFile(idx, username, filename)
    case Some(lt) => if lt.state == Queued || lt.state == InProgress then Some(lt) else None
    case None => None
  }

  function WithFile(a: LiveAlbum, w: Option<RemoteTransfer>): LiveAlbum {
    match w
    case None => a
    case Some(lt) =>
      LiveAlbum(a.speed + lt.speed, a.speedAvg + lt.speedAverage,
                if lt.queuePosition > 0 && (a.queuePosition.None? || lt.queuePosition < a.queuePosition.value)
                then Some(lt.queuePosition) else a.queuePosition,
                true)
  }

  function Aggregate(username: string, files: seq<string>, idx: LiveIndex): LiveAlbum {
    if files == [] then LiveAlbum(0, 0, None, false)
    else WithFile(Aggregate(username, files[..|files| - 1], idx), Working(username, files[|files| - 1], idx))
  }

  method AggregateLiveAlbum(username: string, files: seq<string>, idx: LiveIndex) returns (a: LiveAlbum)
    ensures a == Aggregate(username, files, idx)
  {
    a := LiveAlbum(0, 0, None, false);
    for i := 0 to |files|
      invariant a == Aggregate(username, files[..i], idx)
    {
      assert files[..i + 1][..i] == files[..i];
      a := WithFile(a, Working(username, files[i], idx));
    }
    assert files[..|files|] == files;
  }

  /** The queue position shown is the least one reported among the files still in flight. */
  lemma {:induction false} QueuePositionIsLeast(username: string, files: seq<string>, idx: LiveIndex)
    ensures var q := Aggregate(username, files, idx).queuePosition;
            && (q.None? <==> forall f | f in files ::
                  Working(username, f, idx).Some? ==> Working(username, f, idx).value.queuePosition == 0)
            && (q.Some? ==>
                  && q.value > 0
                  && (exists f | f in files ::
                        Working(username, f, idx).Some? && Working(username, f, idx).value.queuePosition == q.value)
                  && (forall f | f in files :: Working(username, f, idx).Some? ==>
                        var p := Working(username, f, idx).value.queuePosition; p == 0 || q.value <= p))
  {
    if files != [] {
      var init, last := files[..|files| - 1], files[|files| - 1];
      QueuePositionIsLeast(username, init, idx);
      assert files == init + [last];
      forall f ensures f in files <==> f in init || f == last {}
    }
  }

  /** Without a live transfer the aggregate is empty, whatever the rest of the snapshot holds. */
  lemma {:induction false} AggregateWithoutMatch(username: string, files: seq<string>, idx: LiveIndex)
    requires !LiveMatched(username, files, idx)
    ensures Aggregate(username, files, idx) == LiveAlbum(0, 0, None, false)
  {
    if files != [] {
      var init := files[..|files| - 1];
      assert forall i | 0 <= i < |init| :: init[i] == files[i];
      AggregateWithoutMatch(username, init, idx);
      assert (username, files[|files| - 1]) !in idx.byFallback;
    }
  }

  // ---------------------------------------------------------------- in terms of the snapshot's entries

  /** A file's transfer that is queued or in progress. */
  predicate InFlight(username: string, filename: string, idx: LiveIndex) {
    (username, filename) in idx.byFallback && idx.byFallback[(username, filename)].state in {Queued, InProgress}
  }

  /** Speeds add up, and the queue position is the least one, over the files in flight. */
  lemma {:induction false} AggregateIs(username: string, files: seq<string>, idx: LiveIndex)
    ensures var a := Aggregate(username, files, idx);
            && a.speed == Total(files, map f | f in files ::
                 if InFlight(username, f, idx) then idx.byFallback[(username, f)].speed else 0)
            && a.speedAvg == Total(files, map f | f in files ::
                 if InFlight(username, f, idx) then idx.byFallback[(username, f)].speedAverage else 0)
  {
    if files != [] {
      var init, last := files[..|files| - 1], files[|files| - 1];
      AggregateIs(username, init, idx);
      assert last in files && forall f | f in init :: f in files;
      var now := map f | f in files :: if InFlight(username, f, idx) then idx.byFallback[(username, f)].speed else 0;
      var was := map f | f in init :: if InFlight(username, f, idx) then idx.byFallback[(username, f)].speed else 0;
      TotalAgrees(init, was, now);
      var now2 := map f | f in files ::
        if InFlight(username, f, idx) then idx.byFallback[(username, f)].speedAverage else 0;
      var was2 := map f | f in init ::
        if InFlight(username, f, idx) then idx.byFallback[(username, f)].speedAverage else 0;
      TotalAgrees(init, was2, now2);
    }
  }

  lemma {:induction false} TotalAgrees(files: seq<string>, g: map<string, int>, h: map<string, int>)
    requires forall f | f in files :: f in g && f in h && g[f] == h[f]
    ensures Total(files, g) == Total(files, h)
  {
    if files != [] {
      var init, last := files[..|files| - 1], files[|files| - 1];
      assert last in files && forall f | f in init :: f in files;
      TotalAgrees(init, g, h);
    }
  }

  /** The album's bytes: live where matched and persisted elsewhere, if both are known of. */
  lemma JobBytesDoneIs(username: string, files: seq<string>, id: int, albumBytesDone: int, idx: LiveIndex,
                       persisted: map<int, map<string, int>>)
    ensures JobBytesDone(username, files, id, albumBytesDone, idx, persisted)
         == if (exists f | f in files :: (username, f) in idx.byFallback) && id in persisted
            then Total(files, map f | f in files ::
                   if (username, f) in idx.byFallback then idx.byFallback[(username, f)].bytesDone
                   else if f in persisted[id] then persisted[id][f] else 0)
            else albumBytesDone
  {
    if f :| f in files && (username, f) in idx.byFallback {
      var i :| 0 <= i < |files| && files[i] == f;
      assert LiveMatched(username, files, idx);
    }
    if LiveMatched(username, files, idx) {
      var i :| 0 <= i < |files| && (username, files[i]) in idx.byFallback;
      assert files[i] in files;
    }
    if id in persisted {
      TotalOfSum(username, files, idx, persisted[id], map f | f in files ::
        if (username, f) in idx.byFallback then idx.byFallback[(username, f)].bytesDone
        else if f in persisted[id] then persisted[id][f] else 0);
    }
  }
}
