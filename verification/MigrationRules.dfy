/** Which sources the migration accepts, said about their rows alone. */
module MigrationRules {
  import opened Basics
  import opened Migration

  predicate IsOpen(a: Attempt) {
    a.state in {"PENDING", "ACTIVE"}
  }

  predicate IsBusy(j: Job) {
    j.state in {"DOWNLOADING", "VERIFYING", "IMPORTING"}
  }

  ghost predicate StatesKnown(src: Source) {
    && (forall j | j in src.jobs :: j.state in {"DISCOVERED", "SEARCHING", "SELECTING", "DOWNLOADING", "VERIFYING",
                                                 "IMPORTING", "COMPLETED", "COOLDOWN", "FAILED", "CANCELLED"})
    && (forall a | a in src.attempts :: a.state in {"PENDING", "ACTIVE", "SUCCEEDED", "FAILED"})
    && (forall t | t in src.transfers :: t.state in {"PENDING", "QUEUED", "IN_PROGRESS", "COMPLETED", "ERRORED",
                                                      "CANCELLED", "STALLED"})
  }

  /** Every row refers to one that is there, and a transfer bears its attempt's user name. */
  ghost predicate Related(src: Source) {
    && (forall a | a in src.attempts :: exists j :: j in src.jobs && j.id == a.jobId)
    && (forall t | t in src.transfers :: exists a :: a in src.attempts && a.id == t.owner)
    && (forall t, a | t in src.transfers && a in src.attempts && a.id == t.owner :: a.username == t.username)
    && (forall r | r in src.reliabilities :: exists u :: u in src.users && u.id == r.userId)
    && (forall e | e in src.events :: exists j :: j in src.jobs && j.id == e.jobId)
  }

  /** No attempt is backing off; a busy job has an open attempt, and one at most; no other job has one. */
  ghost predicate Settled(src: Source) {
    && (forall a | a in src.attempts :: a.backoffUntil.None?)
    && (forall j | j in src.jobs && IsBusy(j) :: exists a :: a in src.attempts && IsOpen(a) && a.jobId == j.id)
    && (forall i, k | 0 <= i < k < |src.attempts| && IsOpen(src.attempts[i]) && IsOpen(src.attempts[k]) ::
          src.attempts[i].jobId != src.attempts[k].jobId)
    && (forall a, j | a in src.attempts && IsOpen(a) && j in src.jobs && j.id == a.jobId :: IsBusy(j))
  }

  // ---------------------------------------------------------------- proofs

  lemma {:induction false} CountIsSome<T>(rows: seq<T>, p: T -> bool)
    ensures CountBy(rows, p) > 0 <==> exists r :: r in rows && p(r)
  {
    CountIsZero(rows, p);
  }

  lemma {:induction false} CountIsMany<T>(rows: seq<T>, p: T -> bool)
    ensures CountBy(rows, p) > 1 <==> exists i, k :: 0 <= i < k < |rows| && p(rows[i]) && p(rows[k])
  {
    if rows != [] {
      var rest := rows[1..];
      CountIsMany(rest, p);
      CountIsSome(rest, p);
      if CountBy(rest, p) > 1 {
        var i, k :| 0 <= i < k < |rest| && p(rest[i]) && p(rest[k]);
        assert p(rows[i + 1]) && p(rows[k + 1]);
      } else if CountBy(rows, p) > 1 {
        var r :| r in rest && p(r);
        var k :| 0 <= k < |rest| && rest[k] == r;
        assert p(rows[0]) && p(rows[k + 1]);
      }
      if i, k :| 0 <= i < k < |rows| && p(rows[i]) && p(rows[k]) {
        assert rows[k] == rest[k - 1];
        if i > 0 {
          assert rows[i] == rest[i - 1];
        }
      }
    }
  }

  lemma StatesIff(src: Source)
    ensures StatesKnown(src) <==>
            && KnownStates(StatesOf(src).0, JOB_STATES) && KnownStates(StatesOf(src).1, ATTEMPT_STATES)
            && KnownStates(StatesOf(src).2, TRANSFER_STATES)
  {
    var (a, b, c) := StatesOf(src);
    forall i | 0 <= i < |src.jobs| ensures a[i] in a && src.jobs[i] in src.jobs {}
    forall i | 0 <= i < |src.attempts| ensures b[i] in b && src.attempts[i] in src.attempts {}
    forall i | 0 <= i < |src.transfers| ensures c[i] in c && src.transfers[i] in src.transfers {}
    forall s ensures s in JOB_STATES <==> s in {"DISCOVERED", "SEARCHING", "SELECTING", "DOWNLOADING", "VERIFYING",
                                                 "IMPORTING", "COMPLETED", "COOLDOWN", "FAILED", "CANCELLED"} {}
  }

  lemma RelatedIff(src: Source)
    ensures Related(src) <==>
            OrphanAttempts(src) == OrphanTransfers(src) == OrphanReliabilities(src) == OrphanEvents(src)
            == MisnamedTransfers(src) == 0
  {
    hide CountBy;
    CountIsZero(src.attempts, (a: Attempt) => !HasJob(src.jobs, a.jobId));
    CountIsZero(src.transfers, (t: Transfer) => !HasAttempt(src.attempts, t.owner));
    CountIsZero(src.reliabilities, (r: Reliability) => !HasUser(src.users, r.userId));
    CountIsZero(src.events, (e: JobEvent) => !HasJob(src.jobs, e.jobId));
    CountIsZero(src.transfers, (t: Transfer) => MisnamedTransfer(src, t));
  }

  lemma OpenIsOne(src: Source, jobId: int)
    ensures OpenOf(src.attempts, jobId) > 0 <==> exists a :: a in src.attempts && IsOpen(a) && a.jobId == jobId
    ensures OpenOf(src.attempts, jobId) > 1 <==>
            exists i, k :: 0 <= i < k < |src.attempts| && IsOpen(src.attempts[i]) && IsOpen(src.attempts[k])
                           && src.attempts[i].jobId == jobId && src.attempts[k].jobId == jobId
  {
    hide CountBy;
    CountIsSome(src.attempts, (a: Attempt) => a.jobId == jobId && Open(a));
    CountIsMany(src.attempts, (a: Attempt) => a.jobId == jobId && Open(a));
  }

  /** No job has more than one open attempt. */
  lemma CrowdedIff(src: Source)
    ensures CrowdedJobs(src) == 0 <==>
            forall i, k | 0 <= i < k < |src.attempts| && IsOpen(src.attempts[i]) && IsOpen(src.attempts[k]) ::
              src.attempts[i].jobId != src.attempts[k].jobId
  {
    hide OpenOf;
    var crowded := set a | a in src.attempts && Open(a) && OpenOf(src.attempts, a.jobId) > 1 :: a.jobId;
    if i, k :| 0 <= i < k < |src.attempts| && IsOpen(src.attempts[i]) && IsOpen(src.attempts[k])
               && src.attempts[i].jobId == src.attempts[k].jobId
    {
      OpenIsOne(src, src.attempts[i].jobId);
      assert src.attempts[i] in src.attempts && src.attempts[i].jobId in crowded;
    }
    if id :| id in crowded {
      OpenIsOne(src, id);
    } else {
      assert crowded == {};
    }
  }

  lemma SettledIff(src: Source)
    ensures Settled(src) <==>
            Backoffs(src) == CrowdedJobs(src) == IdleOwners(src) == BusyWithoutOne(src) == 0
  {
    hide CountBy, CrowdedJobs, OpenOf;
    CrowdedIff(src);
    CountIsZero(src.attempts, (a: Attempt) => a.backoffUntil.Some?);
    CountIsZero(src.attempts, (a: Attempt) => IdleOwner(src, a));
    CountIsZero(src.jobs, (j: Job) => Busy(j) && OpenOf(src.attempts, j.id) != 1);
    forall j | j in src.jobs
      ensures OpenOf(src.attempts, j.id) > 0 <==> exists a :: a in src.attempts && IsOpen(a) && a.jobId == j.id
      ensures CrowdedJobs(src) == 0 ==> OpenOf(src.attempts, j.id) <= 1
    {
      OpenIsOne(src, j.id);
    }
  }

  lemma NoOffenceIff(src: Source)
    ensures (forall o | o in Offences(src) :: o.1 == 0) <==>
            && Backoffs(src) == OrphanAttempts(src) == OrphanTransfers(src) == OrphanReliabilities(src) == 0
            && OrphanEvents(src) == MisnamedTransfers(src) == CrowdedJobs(src) == IdleOwners(src) == 0
            && BusyWithoutOne(src) == 0
  {
    hide Backoffs, OrphanAttempts, OrphanTransfers, OrphanReliabilities, OrphanEvents, MisnamedTransfers, CrowdedJobs,
         IdleOwners, BusyWithoutOne;
    var o := Offences(src);
    forall i | 0 <= i < 9 ensures o[i] in o {}
    assert o[0].1 == Backoffs(src) && o[1].1 == OrphanAttempts(src) && o[2].1 == OrphanTransfers(src)
           && o[3].1 == OrphanReliabilities(src) && o[4].1 == OrphanEvents(src) && o[5].1 == MisnamedTransfers(src)
           && o[6].1 == CrowdedJobs(src) && o[7].1 == IdleOwners(src) && o[8].1 == BusyWithoutOne(src);
  }

  /** A source of the final schema is accepted exactly if its states are known and its rows in order. */
  lemma AcceptableIff(src: Source)
    ensures Acceptable(src) <==> src.schema == SCHEMA && StatesKnown(src) && Related(src) && Settled(src)
  {
    hide Offences, StatesKnown, Related, Settled, KnownStates, StatesOf, Backoffs, OrphanAttempts, OrphanTransfers,
         OrphanReliabilities, OrphanEvents, MisnamedTransfers, CrowdedJobs, IdleOwners, BusyWithoutOne;
    StatesIff(src);
    RelatedIff(src);
    SettledIff(src);
    NoOffenceIff(src);
  }
}
