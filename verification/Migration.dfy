/**
 The one-off migration from the final SQLite schema: validate the source, then copy and transform
 every table in one target transaction. Columns no rule looks at are carried as `details`.
*/
module Migration {
  import opened Basics

  // ---------------------------------------------------------------- rows

  datatype Job = Job(
    id: int, albumId: int, state: string, nextAttempt: Option<int>, updatedAt: Option<int>, details: string)

  datatype Attempt = Attempt(
    id: int, jobId: int, username: string, state: string, backoffUntil: Option<int>, details: string)

  /** `owner` is the attempt_id column, renamed candidate_id in the target. */
  datatype Transfer = Transfer(
    id: int, owner: int, username: string, filename: string, state: string, bytesTotal: int, details: string)

  datatype User = User(id: int, details: string)

  datatype Reliability = Reliability(id: int, userId: int, details: string)

  datatype JobEvent = JobEvent(id: int, jobId: int, details: string)

  datatype Source = Source(
    schema: seq<(string, seq<string>)>, jobs: seq<Job>, attempts: seq<Attempt>, transfers: seq<Transfer>,
    users: seq<User>, reliabilities: seq<Reliability>, events: seq<JobEvent>)

  datatype TargetJob = TargetJob(job: Job, retries: int, notBefore: Option<int>, failedAt: Option<int>)

  datatype CandidateFile = CandidateFile(filename: string, size: int)

  datatype Candidate = Candidate(
    id: int, jobId: int, username: string, files: seq<CandidateFile>, state: string,
    importSubmittedAt: Option<int>, details: string)

  datatype Target = Target(
    jobs: seq<TargetJob>, candidates: seq<Candidate>, transfers: seq<Transfer>,
    users: seq<User>, reliabilities: seq<Reliability>, events: seq<JobEvent>)

  const EMPTY := Target([], [], [], [], [], [])

  // ---------------------------------------------------------------- validation

  const JOB_STATES := ["DISCOVERED", "SEARCHING", "SELECTING", "DOWNLOADING", "VERIFYING", "IMPORTING", "COMPLETED",
                       "COOLDOWN", "FAILED", "CANCELLED"]
  const ATTEMPT_STATES := ["PENDING", "ACTIVE", "SUCCEEDED", "FAILED"]
  const TRANSFER_STATES := ["PENDING", "QUEUED", "IN_PROGRESS", "COMPLETED", "ERRORED", "CANCELLED", "STALLED"]

  /** The final pre-PostgreSQL tables by name, each with its columns. */
  const SCHEMA: seq<(string, seq<string>)> := [
    ("album_jobs", ["id", "lidarr_album_id", "state", "candidates_tried", "next_attempt_at", "created_at", "updated_at",
                    "title", "artist_name", "release_date", "artist_id"]),
    ("artist_user_reliability", ["id", "artist_id", "user_id", "success_count", "fail_count", "last_success_at",
                                 "last_fail_at", "updated_at"]),
    ("candidate_attempts", ["id", "album_job_id", "username", "score", "state", "fail_reason", "backoff_until",
                            "created_at", "updated_at"]),
    ("job_events", ["id", "album_job_id", "event", "detail", "created_at"]),
    ("known_users", ["id", "username", "success_count", "fail_count", "last_success_at", "last_fail_at", "updated_at"]),
    ("transfers", ["id", "attempt_id", "slskd_id", "username", "filename", "state", "bytes_done", "bytes_total",
                   "deadline", "last_progress_at", "updated_at", "retries"])]

  lemma {:induction false} CountIsZero<T>(rows: seq<T>, p: T -> bool)
    ensures CountBy(rows, p) == 0 <==> forall r | r in rows :: !p(r)
  {
    if rows != [] {
      CountIsZero(rows[1..], p);
      assert rows == [rows[0]] + rows[1..];
    }
  }

  predicate Open(a: Attempt) {
    a.state == "PENDING" || a.state == "ACTIVE"
  }

  /** A job that has a selected candidate. */
  predicate Busy(j: Job) {
    j.state == "DOWNLOADING" || j.state == "VERIFYING" || j.state == "IMPORTING"
  }

  function OpenOf(attempts: seq<Attempt>, jobId: int): nat {
    CountBy(attempts, (a: Attempt) => a.jobId == jobId && Open(a))
  }

  predicate HasJob(jobs: seq<Job>, id: int) {
    exists j :: j in jobs && j.id == id
  }

  predicate HasAttempt(attempts: seq<Attempt>, id: int) {
    exists a :: a in attempts && a.id == id
  }

  predicate HasUser(users: seq<User>, id: int) {
    exists u :: u in users && u.id == id
  }

  predicate MisnamedTransfer(src: Source, t: Transfer) {
    exists a :: a in src.attempts && a.id == t.owner && a.username != t.username
  }

  predicate IdleOwner(src: Source, a: Attempt) {
    Open(a) && exists j :: j in src.jobs && j.id == a.jobId && !Busy(j)
  }

  function Backoffs(src: Source): nat {
    CountBy(src.attempts, (a: Attempt) => a.backoffUntil.Some?)
  }

  function OrphanAttempts(src: Source): nat {
    CountBy(src.attempts, (a: Attempt) => !HasJob(src.jobs, a.jobId))
  }

  function OrphanTransfers(src: Source): nat {
    CountBy(src.transfers, (t: Transfer) => !HasAttempt(src.attempts, t.owner))
  }

  function OrphanReliabilities(src: Source): nat {
    CountBy(src.reliabilities, (r: Reliability) => !HasUser(src.users, r.userId))
  }

  function OrphanEvents(src: Source): nat {
    CountBy(src.events, (e: JobEvent) => !HasJob(src.jobs, e.jobId))
  }

  function MisnamedTransfers(src: Source): nat {
    CountBy(src.transfers, (t: Transfer) => MisnamedTransfer(src, t))
  }

  function CrowdedJobs(src: Source): nat {
    |set a | a in src.attempts && Open(a) && OpenOf(src.attempts, a.jobId) > 1 :: a.jobId|
  }

  function IdleOwners(src: Source): nat {
    CountBy(src.attempts, (a: Attempt) => IdleOwner(src, a))
  }

  function BusyWithoutOne(src: Source): nat {
    CountBy(src.jobs, (j: Job) => Busy(j) && OpenOf(src.attempts, j.id) != 1)
  }

  /** The relational checks, each with the number of offending rows. */
  function Offences(src: Source): seq<(string, nat)> {
    [("candidate_attempts.backoff_until", Backoffs(src)),
     ("candidate_attempts.album_job_id", OrphanAttempts(src)),
     ("transfers.attempt_id", OrphanTransfers(src)),
     ("artist_user_reliability.user_id", OrphanReliabilities(src)),
     ("job_events.album_job_id", OrphanEvents(src)),
     ("candidate/transfer username", MisnamedTransfers(src)),
     ("non-terminal candidate uniqueness", CrowdedJobs(src)),
     ("non-terminal candidate job state", IdleOwners(src)),
     ("active job candidate", BusyWithoutOne(src))]
  }

  predicate KnownStates(states: seq<string>, allowed: seq<string>) {
    forall s | s in states :: s in allowed
  }

  function StatesOf(src: Source): (seq<string>, seq<string>, seq<string>) {
    (seq(|src.jobs|, i requires 0 <= i < |src.jobs| => src.jobs[i].state),
     seq(|src.attempts|, i requires 0 <= i < |src.attempts| => src.attempts[i].state),
     seq(|src.transfers|, i requires 0 <= i < |src.transfers| => src.transfers[i].state))
  }

  ghost predicate Acceptable(src: Source) {
    var (jobStates, attemptStates, transferStates) := StatesOf(src);
    && src.schema == SCHEMA
    && KnownStates(jobStates, JOB_STATES) && KnownStates(attemptStates, ATTEMPT_STATES)
    && KnownStates(transferStates, TRANSFER_STATES)
    && forall o | o in Offences(src) :: o.1 == 0
  }

  method ValidateStates(states: seq<string>, allowed: seq<string>) returns (bad: Option<string>)
    ensures bad.None? <==> KnownStates(states, allowed)
    ensures bad.Some? ==> bad.value in states && bad.value !in allowed
  {
    for i := 0 to |states|
      invariant forall k | 0 <= k < i :: states[k] in allowed
    {
      if states[i] !in allowed {
        return Some(states[i]);
      }
    }
    return None;
  }

  /** The name of the first thing found wrong, if anything is. */
  method ValidateSource(src: Source) returns (wrong: Option<string>)
    ensures wrong.None? <==> Acceptable(src)
  {
    if src.schema != SCHEMA {
      return Some("tables");
    }
    var (jobStates, attemptStates, transferStates) := StatesOf(src);
    wrong := ValidateStates(jobStates, JOB_STATES);
    if wrong.Some? {
      return;
    }
    wrong := ValidateStates(attemptStates, ATTEMPT_STATES);
    if wrong.Some? {
      return;
    }
    wrong := ValidateStates(transferStates, TRANSFER_STATES);
    if wrong.Some? {
      return;
    }
    var checks := Offences(src);
    for i := 0 to |checks|
      invariant forall k | 0 <= k < i :: checks[k].1 == 0
    {
      if checks[i].1 != 0 {
        assert checks[i] in checks;
        return Some(checks[i].0);
      }
    }
    return None;
  }

  // ---------------------------------------------------------------- the transformation

  /** (state, not_before, failed_at) */
  function MapJobState(state: string, nextAttempt: Option<int>, updatedAt: Option<int>)
    : (string, Option<int>, Option<int>)
  {
    if state in ["DISCOVERED", "SEARCHING", "SELECTING"] then ("WANTED", None, None)
    else if state == "VERIFYING" then ("IMPORTING", None, None)
    else if state == "COMPLETED" then ("DONE", None, None)
    else if state == "COOLDOWN" then ("WANTED", nextAttempt, None)
    else if state == "FAILED" then ("FAILED", None, updatedAt)
    else (state, None, None)
  }

  function MapJob(j: Job): TargetJob {
    var (state, notBefore, failedAt) := MapJobState(j.state, j.nextAttempt, j.updatedAt);
    TargetJob(j.(state := state), 0, notBefore, failedAt)
  }

  function InsertById(t: Transfer, ts: seq<Transfer>): seq<Transfer> {
    if ts == [] then [t] else if t.id < ts[0].id then [t] + ts else [ts[0]] + InsertById(t, ts[1..])
  }

  /** SELECT … WHERE attempt_id = ? ORDER BY id */
  function TransfersOf(ts: seq<Transfer>, owner: int): seq<Transfer> {
    if ts == [] then []
    else
      var rest := TransfersOf(ts[..|ts| - 1], owner);
      if ts[|ts| - 1].owner == owner then InsertById(ts[|ts| - 1], rest) else rest
  }

  function FilesOf(ts: seq<Transfer>, owner: int): seq<CandidateFile> {
    var mine := TransfersOf(ts, owner);
    seq(|mine|, i requires 0 <= i < |mine| => CandidateFile(mine[i].filename, mine[i].bytesTotal))
  }

  function MapAttempt(src: Source, a: Attempt, j: Job): Candidate {
    var state := if a.state == "PENDING" then "ACTIVE" else a.state;
    Candidate(a.id, a.jobId, a.username, FilesOf(src.transfers, a.id), state,
              if state == "ACTIVE" && j.state == "IMPORTING" then j.updatedAt else None, a.details)
  }

  ghost function JobOf(src: Source, id: int): (j: Job)
    requires HasJob(src.jobs, id)
    ensures j in src.jobs && j.id == id
  {
    var j :| j in src.jobs && j.id == id;
    j
  }

  ghost predicate PrimaryKeys(src: Source) {
    && (forall i, j | 0 <= i < j < |src.jobs| :: src.jobs[i].id != src.jobs[j].id)
    && (forall i, j | 0 <= i < j < |src.attempts| :: src.attempts[i].id != src.attempts[j].id)
    && (forall i, j | 0 <= i < j < |src.transfers| :: src.transfers[i].id != src.transfers[j].id)
  }

  /** `dst` is what a migration of `src` leaves in an empty database. */
  ghost predicate Migrated(src: Source, dst: Target) {
    && |dst.jobs| == |src.jobs| && (forall i | 0 <= i < |src.jobs| :: dst.jobs[i] == MapJob(src.jobs[i]))
    && |dst.candidates| == |src.attempts|
    && (forall i | 0 <= i < |src.attempts| ::
          HasJob(src.jobs, src.attempts[i].jobId)
          && dst.candidates[i] == MapAttempt(src, src.attempts[i], JobOf(src, src.attempts[i].jobId)))
    && dst.transfers == src.transfers && dst.users == src.users
    && dst.reliabilities == src.reliabilities && dst.events == src.events
  }

  // ---------------------------------------------------------------- the copy

  /** One INSERT: it appends the row, or fails for whatever reason; `takes` says that the target takes every write. */
  method Insert<T>(table: seq<T>, row: T, takes: bool) returns (ok: bool, after: seq<T>)
    ensures after == if ok then table + [row] else table
    ensures takes ==> ok
  {
    ok, after := *, table;
    ok := ok || takes;
    if ok {
      after := table + [row];
    }
  }

  method CopyAlbumJobs(src: Source, tx: Target, takes: bool) returns (ok: bool, n: nat, after: Target)
    requires tx.jobs == []
    ensures takes ==> ok
    ensures ok ==>
      n == |src.jobs| && after == tx.(jobs := seq(|src.jobs|, i requires 0 <= i < |src.jobs| => MapJob(src.jobs[i])))
  {
    ok, n, after := true, 0, tx;
    for i := 0 to |src.jobs|
      invariant ok && n == i
      invariant after == tx.(jobs := seq(i, k requires 0 <= k < i => MapJob(src.jobs[k])))
    {
      var j := src.jobs[i];
      var (state, notBefore, failedAt) := MapJobState(j.state, j.nextAttempt, j.updatedAt);
      var jobs;
      ok, jobs := Insert(after.jobs, TargetJob(j.(state := state), 0, notBefore, failedAt), takes);
      if !ok {
        return;
      }
      n, after := n + 1, after.(jobs := jobs);
    }
  }

  /** The row's job, from the inner join. */
  method FindJob(jobs: seq<Job>, id: int) returns (j: Option<Job>)
    ensures j.Some? <==> HasJob(jobs, id)
    ensures j.Some? ==> j.value in jobs && j.value.id == id
  {
    for i := 0 to |jobs|
      invariant forall k | 0 <= k < i :: jobs[k].id != id
    {
      if jobs[i].id == id {
        return Some(jobs[i]);
      }
    }
    return None;
  }

  lemma SameIdSameRow(jobs: seq<Job>, i: nat, k: nat)
    requires i < |jobs| && k < |jobs| && forall i, j | 0 <= i < j < |jobs| :: jobs[i].id != jobs[j].id
    ensures jobs[i].id == jobs[k].id ==> i == k
  {
  }

  lemma JobIsUnique(src: Source, j: Job)
    requires PrimaryKeys(src) && j in src.jobs
    ensures HasJob(src.jobs, j.id) && JobOf(src, j.id) == j
  {
    var h := JobOf(src, j.id);
    var i :| 0 <= i < |src.jobs| && src.jobs[i] == j;
    var k :| 0 <= k < |src.jobs| && src.jobs[k] == h;
    SameIdSameRow(src.jobs, i, k);
  }

  ghost predicate Copied(src: Source, n: nat, cs: seq<Candidate>)
    requires n <= |src.attempts|
  {
    |cs| == n && forall i | 0 <= i < n ::
      HasJob(src.jobs, src.attempts[i].jobId)
      && cs[i] == MapAttempt(src, src.attempts[i], JobOf(src, src.attempts[i].jobId))
  }

  method TransformAttempt(src: Source, a: Attempt, j: Job) returns (c: Candidate)
    ensures c == MapAttempt(src, a, j)
  {
    var files := FilesForAttempt(src.transfers, a.id);
    var state := a.state;
    if state == "PENDING" {
      state := "ACTIVE";
    }
    var importSubmittedAt := None;
    if state == "ACTIVE" && j.state == "IMPORTING" {
      importSubmittedAt := j.updatedAt;
    }
    c := Candidate(a.id, a.jobId, a.username, files, state, importSubmittedAt, a.details);
  }

  method CopyCandidates(src: Source, tx: Target, takes: bool) returns (ok: bool, n: nat, after: Target)
    requires PrimaryKeys(src) && tx.candidates == []
    requires forall a | a in src.attempts :: HasJob(src.jobs, a.jobId)
    ensures takes && (forall a | a in src.attempts :: a.backoffUntil.None?) ==> ok
    ensures ok ==> forall a | a in src.attempts :: a.backoffUntil.None?
    ensures ok ==> n == |src.attempts| && Copied(src, n, after.candidates)
    ensures ok ==> after == tx.(candidates := after.candidates)
  {
    ok, n, after := true, 0, tx;
    for i := 0 to |src.attempts|
      invariant ok && n == i && Copied(src, i, after.candidates) && after == tx.(candidates := after.candidates)
      invariant forall k | 0 <= k < i :: src.attempts[k].backoffUntil.None?
    {
      hide MapAttempt;
      var a := src.attempts[i];
      var j := FindJob(src.jobs, a.jobId);
      if a.backoffUntil.Some? {
        return false, n, after;
      }
      var c := TransformAttempt(src, a, j.value);
      JobIsUnique(src, j.value);
      var candidates;
      ok, candidates := Insert(after.candidates, c, takes);
      if !ok {
        return;
      }
      n, after := n + 1, after.(candidates := candidates);
    }
  }

  method FilesForAttempt(ts: seq<Transfer>, owner: int) returns (files: seq<CandidateFile>)
    ensures files == FilesOf(ts, owner)
  {
    var rows := TransfersOf(ts, owner);
    files := [];
    for i := 0 to |rows|
      invariant |files| == i && forall k | 0 <= k < i :: files[k] == CandidateFile(rows[k].filename, rows[k].bytesTotal)
    {
      files := files + [CandidateFile(rows[i].filename, rows[i].bytesTotal)];
    }
  }

  /** copyTable, into a table that is still empty. */
  method CopyTable<R>(rows: seq<R>, table: seq<R>, takes: bool) returns (ok: bool, n: nat, after: seq<R>)
    requires table == []
    ensures takes ==> ok
    ensures ok ==> n == |rows| && after == rows
  {
    ok, n, after := true, 0, [];
    for i := 0 to |rows|
      invariant ok && n == i && after == rows[..i]
    {
      ok, after := Insert(after, rows[i], takes);
      if !ok {
        return;
      }
      n := n + 1;
    }
  }

  class Database {
    var rows: Target

    constructor (rows: Target)
      ensures this.rows == rows
    {
      this.rows := rows;
    }

    /** Commit: everything the transaction wrote becomes visible, or nothing. */
    method Commit(tx: Target, takes: bool) returns (ok: bool)
      modifies this
      ensures rows == if ok then tx else old(rows)
      ensures takes ==> ok
    {
      ok := *;
      ok := ok || takes;
      if ok {
        rows := tx;
      }
    }
  }

  method CopyAll(src: Source, tx: Target, takes: bool) returns (ok: bool, after: Target)
    requires PrimaryKeys(src) && Acceptable(src) && tx == EMPTY
    ensures takes ==> ok
    ensures ok ==> Migrated(src, after)
  {
    AcceptedSource(src);
    var n;
    ok, n, after := CopyAlbumJobs(src, tx, takes);
    if !ok { return; }
    ok, n, after := CopyCandidates(src, after, takes);
    if !ok { return; }
    var transfers, users, reliabilities, events;
    ok, n, transfers := CopyTable(src.transfers, after.transfers, takes);
    if !ok { return; }
    ok, n, users := CopyTable(src.users, after.users, takes);
    if !ok { return; }
    ok, n, reliabilities := CopyTable(src.reliabilities, after.reliabilities, takes);
    if !ok { return; }
    ok, n, events := CopyTable(src.events, after.events, takes);
    after := after.(transfers := transfers, users := users, reliabilities := reliabilities, events := events);
  }

  /**
   `run`, against a target database. A run that fails, at whatever point, leaves every row as it was;
   one that succeeds found the source acceptable and the target empty, and leaves the migrated rows.
   If the target takes every write, nothing else makes it fail.
  */
  method Run(src: Source, db: Database, takes: bool) returns (ok: bool)
    requires PrimaryKeys(src)
    modifies db
    ensures takes ==> (ok <==> old(db.rows) == EMPTY && Acceptable(src))
    ensures !ok ==> db.rows == old(db.rows)
    ensures ok ==> old(db.rows) == EMPTY && Acceptable(src) && Migrated(src, db.rows)
  {
    var wrong := ValidateSource(src);
    if wrong.Some? {
      return false;
    }
    if db.rows.jobs != [] || db.rows.candidates != [] || db.rows.transfers != [] || db.rows.users != []
       || db.rows.reliabilities != [] || db.rows.events != []
    {
      return false;
    }
    var tx;
    ok, tx := CopyAll(src, db.rows, takes);
    if !ok {
      return;
    }
    ok := db.Commit(tx, takes);
  }

  // ---------------------------------------------------------------- what validation buys

  lemma NoOffence(src: Source)
    requires Acceptable(src)
    ensures Backoffs(src) == OrphanAttempts(src) == OrphanTransfers(src) == OrphanReliabilities(src) == 0
    ensures OrphanEvents(src) == MisnamedTransfers(src) == IdleOwners(src) == BusyWithoutOne(src) == 0
  {
    hide Backoffs, OrphanAttempts, OrphanTransfers, OrphanReliabilities, OrphanEvents, MisnamedTransfers, CrowdedJobs,
         IdleOwners, BusyWithoutOne, StatesOf;
    var o := Offences(src);
    forall i | 0 <= i < 9 ensures o[i].1 == 0 {
      assert o[i] in o;
    }
    assert o[0].1 == o[1].1 == o[2].1 == o[3].1 == o[4].1 == o[5].1 == o[7].1 == o[8].1 == 0;
  }

  /** The checks, said about rows instead of counts. */
  lemma AcceptedSource(src: Source)
    requires Acceptable(src)
    ensures forall a | a in src.attempts :: a.backoffUntil.None? && HasJob(src.jobs, a.jobId)
    ensures forall t | t in src.transfers :: HasAttempt(src.attempts, t.owner) && !MisnamedTransfer(src, t)
    ensures forall r | r in src.reliabilities :: HasUser(src.users, r.userId)
    ensures forall e | e in src.events :: HasJob(src.jobs, e.jobId)
  {
    hide HasJob, HasAttempt, HasUser, MisnamedTransfer, Acceptable;
    NoOffence(src);
    CountIsZero(src.attempts, (a: Attempt) => a.backoffUntil.Some?);
    CountIsZero(src.attempts, (a: Attempt) => !HasJob(src.jobs, a.jobId));
    CountIsZero(src.transfers, (t: Transfer) => !HasAttempt(src.attempts, t.owner));
    CountIsZero(src.reliabilities, (r: Reliability) => !HasUser(src.users, r.userId));
    CountIsZero(src.events, (e: JobEvent) => !HasJob(src.jobs, e.jobId));
    CountIsZero(src.transfers, (t: Transfer) => MisnamedTransfer(src, t));
  }

  lemma AcceptedJobs(src: Source)
    requires Acceptable(src)
    ensures forall a | a in src.attempts :: !IdleOwner(src, a)
    ensures forall j | j in src.jobs && Busy(j) :: OpenOf(src.attempts, j.id) == 1
    ensures forall j | j in src.jobs :: j.state in JOB_STATES
  {
    hide IdleOwner, OpenOf, Busy, Offences;
    NoOffence(src);
    CountIsZero(src.attempts, (a: Attempt) => IdleOwner(src, a));
    CountIsZero(src.jobs, (j: Job) => Busy(j) && OpenOf(src.attempts, j.id) != 1);
    forall j | j in src.jobs ensures j.state in JOB_STATES {
      var i :| 0 <= i < |src.jobs| && src.jobs[i] == j;
      assert StatesOf(src).0[i] in StatesOf(src).0;
    }
  }

  // ---------------------------------------------------------------- what the migration keeps

  function ActiveOf(cs: seq<Candidate>, jobId: int): nat {
    CountBy(cs, (c: Candidate) => c.jobId == jobId && c.state == "ACTIVE")
  }

  /** The pipeline's invariant: a job being downloaded or imported has one active candidate, any other job none. */
  ghost predicate PipelineInvariant(dst: Target) {
    forall j | j in dst.jobs ::
      ActiveOf(dst.candidates, j.job.id) == if j.job.state in ["DOWNLOADING", "IMPORTING"] then 1 else 0
  }

  lemma {:induction false} ActiveIsOpen(src: Source, attempts: seq<Attempt>, cs: seq<Candidate>, jobId: int)
    requires |cs| == |attempts|
    requires forall i | 0 <= i < |cs| :: cs[i].jobId == attempts[i].jobId
               && cs[i].state == if attempts[i].state == "PENDING" then "ACTIVE" else attempts[i].state
    ensures ActiveOf(cs, jobId) == OpenOf(attempts, jobId)
  {
    if cs != [] {
      ActiveIsOpen(src, attempts[1..], cs[1..], jobId);
    }
  }

  /** What becomes of each state: waiting jobs are wanted again, a cooldown until when it was to end. */
  lemma JobsAreMapped(src: Source, dst: Target, i: nat)
    requires Migrated(src, dst) && i < |src.jobs|
    ensures var (j, t) := (src.jobs[i], dst.jobs[i]);
            && t.job.state == (if j.state in {"DISCOVERED", "SEARCHING", "SELECTING", "COOLDOWN"} then "WANTED"
                               else if j.state in {"VERIFYING", "IMPORTING"} then "IMPORTING"
                               else if j.state == "COMPLETED" then "DONE"
                               else j.state)
            && t.notBefore == (if j.state == "COOLDOWN" then j.nextAttempt else None)
            && t.failedAt == (if j.state == "FAILED" then j.updatedAt else None)
            && t.retries == 0
            && t.job.id == j.id && t.job.albumId == j.albumId && t.job.details == j.details
            && t.job.nextAttempt == j.nextAttempt && t.job.updatedAt == j.updatedAt
  {
    hide MapAttempt;
  }

  /** An open attempt becomes the active candidate; the others keep their state. */
  lemma AttemptsAreMapped(src: Source, dst: Target, i: nat)
    requires Migrated(src, dst) && i < |src.attempts|
    ensures var (a, c) := (src.attempts[i], dst.candidates[i]);
            && c.state == (if a.state in {"PENDING", "ACTIVE"} then "ACTIVE" else a.state)
            && c.id == a.id && c.jobId == a.jobId && c.username == a.username && c.details == a.details
  {
    hide FilesOf, MapJob;
  }

  lemma StatesMapBusyToBusy(j: Job)
    requires j.state in JOB_STATES
    ensures MapJob(j).job.state in ["DOWNLOADING", "IMPORTING"] <==> Busy(j)
  {
  }

  /** Every accepted source migrates to rows that satisfy the pipeline's invariant. */
  lemma MigrationKeepsInvariant(src: Source, dst: Target)
    requires PrimaryKeys(src) && Acceptable(src) && Migrated(src, dst)
    ensures PipelineInvariant(dst)
  {
    AcceptedJobs(src);
    hide Acceptable, FilesOf, Busy, MapJob;
    forall t | t in dst.jobs
      ensures ActiveOf(dst.candidates, t.job.id) == if t.job.state in ["DOWNLOADING", "IMPORTING"] then 1 else 0
    {
      var i :| 0 <= i < |dst.jobs| && dst.jobs[i] == t;
      var j := src.jobs[i];
      assert j in src.jobs && t == MapJob(j) && t.job.id == j.id by {
        MapKeepsId(j);
      }
      StatesMapBusyToBusy(j);
      ActiveIsOpen(src, src.attempts, dst.candidates, j.id);
      if !Busy(j) {
        forall a | a in src.attempts ensures !(a.jobId == j.id && Open(a)) {
          assert !IdleOwner(src, a);
        }
        CountIsZero(src.attempts, (a: Attempt) => a.jobId == j.id && Open(a));
      }
    }
  }

  lemma MapKeepsId(j: Job)
    ensures MapJob(j).job == j.(state := MapJob(j).job.state)
  {
  }

  predicate HasTargetJob(jobs: seq<TargetJob>, id: int) {
    exists j :: j in jobs && j.job.id == id
  }

  predicate HasCandidate(cs: seq<Candidate>, id: int, username: string) {
    exists c :: c in cs && c.id == id && c.username == username
  }

  lemma JobCarriesOver(src: Source, dst: Target, id: int)
    requires Migrated(src, dst) && HasJob(src.jobs, id)
    ensures HasTargetJob(dst.jobs, id)
  {
    hide MapAttempt;
    var j :| j in src.jobs && j.id == id;
    var i :| 0 <= i < |src.jobs| && src.jobs[i] == j;
    assert dst.jobs[i] in dst.jobs && dst.jobs[i].job.id == id;
  }

  lemma AttemptCarriesOver(src: Source, dst: Target, t: Transfer)
    requires Migrated(src, dst) && HasAttempt(src.attempts, t.owner) && !MisnamedTransfer(src, t)
    ensures HasCandidate(dst.candidates, t.owner, t.username)
  {
    hide FilesOf, MapJob;
    var a :| a in src.attempts && a.id == t.owner;
    var i :| 0 <= i < |src.attempts| && src.attempts[i] == a;
    assert dst.candidates[i] in dst.candidates;
  }

  /** Row for row the ids, and so the counts, are the source's; nothing refers to a row that is not there. */
  lemma MigrationKeepsRelations(src: Source, dst: Target)
    requires PrimaryKeys(src) && Acceptable(src) && Migrated(src, dst)
    ensures |dst.jobs| == |src.jobs| && forall i | 0 <= i < |src.jobs| :: dst.jobs[i].job.id == src.jobs[i].id
    ensures |dst.candidates| == |src.attempts|
         && forall i | 0 <= i < |src.attempts| :: dst.candidates[i].id == src.attempts[i].id
    ensures forall c | c in dst.candidates :: HasTargetJob(dst.jobs, c.jobId)
    ensures forall t | t in dst.transfers :: HasCandidate(dst.candidates, t.owner, t.username)
    ensures forall r | r in dst.reliabilities :: HasUser(dst.users, r.userId)
    ensures forall e | e in dst.events :: HasTargetJob(dst.jobs, e.jobId)
  {
    AcceptedSource(src);
    hide Acceptable, FilesOf, MapJobState, HasJob, HasTargetJob, HasCandidate, HasAttempt, MisnamedTransfer, HasUser;
    forall id | HasJob(src.jobs, id) ensures HasTargetJob(dst.jobs, id) {
      JobCarriesOver(src, dst, id);
    }
    forall c | c in dst.candidates ensures HasJob(src.jobs, c.jobId) {
      var i :| 0 <= i < |dst.candidates| && dst.candidates[i] == c;
      assert src.attempts[i] in src.attempts;
    }
    forall t | t in dst.transfers ensures HasCandidate(dst.candidates, t.owner, t.username) {
      AttemptCarriesOver(src, dst, t);
    }
  }

  /** A job whose import was already submitted, and no other, has a candidate that says so, since when the job did. */
  lemma ImportsAreMarked(src: Source, dst: Target, i: nat)
    requires PrimaryKeys(src) && Acceptable(src) && Migrated(src, dst) && i < |src.attempts|
    ensures var c := dst.candidates[i];
            exists j :: j in src.jobs && j.id == c.jobId
              && c.importSubmittedAt == if Open(src.attempts[i]) && j.state == "IMPORTING" then j.updatedAt else None
  {
    hide FilesOf, Acceptable;
    var j := JobOf(src, src.attempts[i].jobId);
    assert dst.candidates[i] == MapAttempt(src, src.attempts[i], j);
  }

  // ---------------------------------------------------------------- the file lists

  ghost predicate ById(ts: seq<Transfer>) {
    forall i, j | 0 <= i < j < |ts| :: ts[i].id < ts[j].id
  }

  lemma {:induction false} InsertKeepsOrder(t: Transfer, ts: seq<Transfer>)
    requires ById(ts) && forall u | u in ts :: u.id != t.id
    ensures ById(InsertById(t, ts)) && forall u :: u in InsertById(t, ts) <==> u == t || u in ts
  {
    if ts != [] {
      assert ts[0] in ts && ts == [ts[0]] + ts[1..];
      if t.id > ts[0].id {
        InsertKeepsOrder(t, ts[1..]);
        var rest := InsertById(t, ts[1..]);
        forall i | 0 <= i < |rest| ensures ts[0].id < rest[i].id {
          assert rest[i] in rest;
        }
      }
    }
  }

  lemma {:induction false} TransfersAreThose(ts: seq<Transfer>, owner: int)
    requires forall i, j | 0 <= i < j < |ts| :: ts[i].id != ts[j].id
    ensures ById(TransfersOf(ts, owner))
    ensures forall t :: t in TransfersOf(ts, owner) <==> t in ts && t.owner == owner
  {
    if ts != [] {
      var init, last := ts[..|ts| - 1], ts[|ts| - 1];
      assert ts == init + [last];
      TransfersAreThose(init, owner);
      if last.owner == owner {
        forall u | u in TransfersOf(init, owner) ensures u.id != last.id {
          var i :| 0 <= i < |init| && init[i] == u;
          assert ts[i].id != ts[|ts| - 1].id;
        }
        InsertKeepsOrder(last, TransfersOf(init, owner));
      }
    }
  }

  /** A candidate's files are exactly its transfers, in id order. */
  lemma FilesAreTransfers(src: Source, dst: Target, i: nat) returns (mine: seq<Transfer>)
    requires PrimaryKeys(src) && Acceptable(src) && Migrated(src, dst) && i < |dst.candidates|
    ensures ById(mine) && forall t :: t in mine <==> t in dst.transfers && t.owner == dst.candidates[i].id
    ensures var files := dst.candidates[i].files;
            && |files| == |mine|
            && forall k | 0 <= k < |mine| :: files[k] == CandidateFile(mine[k].filename, mine[k].bytesTotal)
  {
    hide Acceptable;
    mine := TransfersOf(src.transfers, src.attempts[i].id);
    TransfersAreThose(src.transfers, src.attempts[i].id);
  }

  lemma CountOne<T>(r: T, p: T -> bool)
    ensures CountBy([r], p) == if p(r) then 1 else 0
  {
    assert [r][1..] == [];
  }

  /** A job caught downloading, with its attempt and one transfer. */
  function Tiny(): Source {
    Source(SCHEMA, [Job(1, 7, "DOWNLOADING", None, None, "")], [Attempt(2, 1, "peer", "PENDING", None, "")],
           [Transfer(3, 2, "peer", "file", "QUEUED", 9, "")], [], [], [])
  }

  lemma TinyHasNoOffence()
    ensures var src := Tiny();
            && Backoffs(src) == OrphanAttempts(src) == OrphanTransfers(src) == OrphanReliabilities(src) == 0
            && OrphanEvents(src) == MisnamedTransfers(src) == CrowdedJobs(src) == 0
            && IdleOwners(src) == BusyWithoutOne(src) == 0
            && OpenOf(src.attempts, 1) == 1
  {
    var src := Tiny();
    var j, a, t := src.jobs[0], src.attempts[0], src.transfers[0];
    assert j in src.jobs && a in src.attempts;
    hide CountBy;
    CountOne(a, (x: Attempt) => x.jobId == 1 && Open(x));
    CountOne(a, (x: Attempt) => x.backoffUntil.Some?);
    CountOne(a, (x: Attempt) => !HasJob(src.jobs, x.jobId));
    CountOne(t, (x: Transfer) => !HasAttempt(src.attempts, x.owner));
    CountOne(t, (x: Transfer) => MisnamedTransfer(src, x));
    CountOne(a, (x: Attempt) => IdleOwner(src, x));
    CountOne(j, (x: Job) => Busy(x) && OpenOf(src.attempts, x.id) != 1);
    CountIsZero<Reliability>([], (r: Reliability) => !HasUser(src.users, r.userId));
    CountIsZero<JobEvent>([], (e: JobEvent) => !HasJob(src.jobs, e.jobId));
    assert (set b | b in src.attempts && Open(b) && OpenOf(src.attempts, b.jobId) > 1 :: b.jobId) == {};
  }

  lemma TinyIsAcceptable()
    ensures PrimaryKeys(Tiny()) && Acceptable(Tiny())
  {
    TinyHasNoOffence();
    hide Backoffs, OrphanAttempts, OrphanTransfers, OrphanReliabilities, OrphanEvents, MisnamedTransfers, CrowdedJobs,
         IdleOwners, BusyWithoutOne;
    assert JOB_STATES[3] == "DOWNLOADING" && ATTEMPT_STATES[0] == "PENDING" && TRANSFER_STATES[1] == "QUEUED";
  }

  /** The rules can be met: such a source is accepted, and migrates to a job with one active candidate. */
  lemma SomeSourceIsAcceptable() returns (dst: Target)
    ensures PrimaryKeys(Tiny()) && Acceptable(Tiny()) && Migrated(Tiny(), dst)
    ensures PipelineInvariant(dst) && |dst.jobs| == 1 && dst.jobs[0].job.state == "DOWNLOADING"
    ensures ActiveOf(dst.candidates, dst.jobs[0].job.id) == 1
  {
    TinyIsAcceptable();
    hide Acceptable, ActiveOf, FilesOf;
    var src := Tiny();
    var j, a := src.jobs[0], src.attempts[0];
    dst := Target([MapJob(j)], [MapAttempt(src, a, j)], src.transfers, [], [], []);
    assert j in src.jobs;
    assert JobOf(src, 1) == j;
    MigrationKeepsInvariant(src, dst);
    assert dst.jobs[0] in dst.jobs;
  }
}
