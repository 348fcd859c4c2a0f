/**
 `event: search` end to end: a session's version counter on one side, a subscriber's cursor and
 mailbox on the other, and a reader that drains whenever it likes.
*/
module SearchStream {
  import opened Basics
  import opened KeyedLists
  import opened Mailboxes
  import opened SearchResults
  import opened SearchSessions

  datatype SearchPayload = SearchPayload(
    seqNo: nat, groups: seq<Item<GroupBody>>, total: nat, done: bool, truncated: bool, expired: bool, error: string)

  function PayloadOf(d: SearchDelta): SearchPayload {
    SearchPayload(d.seqNo, d.groups, d.total, d.done, d.truncated, false, d.err)
  }

  const EXPIRED_NOTICE := SearchPayload(0, [], 0, false, false, true, "")

  /** sendLatestSearch's rule for a displaced frame: groups united, scalars folded forward. */
  function MergeSearch(older: SearchPayload, newer: SearchPayload): SearchPayload {
    SearchPayload(
      if older.seqNo > newer.seqNo then older.seqNo else newer.seqNo,
      Merge(older.groups, newer.groups), newer.total,
      newer.done || older.done, newer.truncated || older.truncated, newer.expired || older.expired,
      if newer.error == "" then older.error else newer.error)
  }

  datatype SearchPart = SearchPart(
    cursor: nat, done: bool, truncated: bool, expiredSent: bool, ch: Chan<SearchPayload>)

  function SubscribeSearch(delta: Option<SearchDelta>): SearchPart {
    match delta
    case Some(d) => SearchPart(d.seqNo, d.done, d.truncated, false, Chan([PayloadOf(d)], None))
    case None => SearchPart(0, false, false, true, Chan([EXPIRED_NOTICE], None))
  }

  /** The search half of one tick, given the answer to the poll at this subscriber's cursor. */
  function TickSearch(p: SearchPart, delta: Option<SearchDelta>): SearchPart {
    match delta
    case None =>
      if p.expiredSent then p
      else p.(expiredSent := true, ch := Put(p.ch, EXPIRED_NOTICE, MergeSearch))
    case Some(d) =>
      if d.groups == [] && d.done == p.done && d.truncated == p.truncated then p
      else p.(cursor := d.seqNo, done := d.done, truncated := d.truncated,
              ch := Put(p.ch, PayloadOf(d), MergeSearch))
  }

  /** A session in (or evicted from) the registry, the clock, and one subscriber of it. */
  datatype SearchSystem = SearchSystem(session: Session, present: bool, now: int, sub: SearchPart)

  ghost function Poll(y: SearchSystem, timeout: int): Option<SearchDelta> {
    PollAt(y.session, y.present, y.now, timeout, y.sub.cursor)
  }

  ghost function PollAt(s: Session, present: bool, now: int, timeout: int, since: nat): Option<SearchDelta> {
    if !present || Expired(s, now, timeout) then None else Some(DeltaSince(s, since))
  }

  /** A connection opened on a session that already ran through `history`. */
  ghost function Connect(lib: Lib, timeout: int, start: int, history: seq<SessionEvent>, present: bool, now: int)
    : SearchSystem
  {
    var s := SessionRun(lib, NewSession(start), history);
    SearchSystem(s, present, now, SubscribeSearch(PollAt(s, present, now, timeout, 0)))
  }

  datatype SearchEvent =
    | Emitted(results: seq<SearchResult>)
    | Ended(err: string)
    | Elapse(d: nat)
    | Evict
    | SearchTick
    | SearchReceive

  ghost function SearchStep(lib: Lib, timeout: int, y: SearchSystem, e: SearchEvent): SearchSystem {
    match e
    case Emitted(rs) => y.(session := Accepted(lib, y.session, rs))
    case Ended(err) => if y.session.done then y else y.(session := Finished(y.session, err, y.now))
    case Elapse(d) => y.(now := y.now + d)
    case Evict => y.(present := y.present && !Expired(y.session, y.now, timeout))
    case SearchTick => y.(sub := TickSearch(y.sub, Poll(y, timeout)))
    case SearchReceive => y.(sub := y.sub.(ch := Take(y.sub.ch)))
  }

  ghost function SearchRun(lib: Lib, timeout: int, y: SearchSystem, es: seq<SearchEvent>): SearchSystem {
    if es == [] then y
    else SearchStep(lib, timeout, SearchRun(lib, timeout, y, es[..|es| - 1]), es[|es| - 1])
  }

  function ClientGroups(frames: seq<SearchPayload>): map<int, GroupBody> {
    if frames == [] then map[]
    else ClientGroups(frames[..|frames| - 1]) + ToMap(frames[|frames| - 1].groups)
  }

  /** The client's groups overridden by the queued ones. */
  function Told(p: SearchPart): map<int, GroupBody> {
    ClientGroups(Frames(p.ch))
  }

  // ---------------------------------------------------------------- the session's half

  ghost predicate HasVersion(s: Session, v: nat) {
    exists id :: id in s.groups && s.groups[id].version == v
  }

  /** The newest version is always carried by some group, so an empty delta means an up-to-date cursor. */
  ghost predicate SessionInv(s: Session) {
    && s.groups.Keys == s.raw.Keys
    && (forall id | id in s.groups :: 1 <= s.groups[id].version <= s.seqNo)
    && (s.seqNo > 0 ==> HasVersion(s, s.seqNo))
    && (s.err != "" ==> s.done)
  }

  lemma AcceptKeepsSession(lib: Lib, s: Session, rs: seq<SearchResult>)
    requires SessionInv(s)
    ensures var t := Accepted(lib, s, rs);
            && SessionInv(t)
            && s.seqNo <= t.seqNo && s.groups.Keys <= t.groups.Keys
            && t.done == s.done && t.err == s.err && (s.truncated ==> t.truncated)
            && (t.seqNo == s.seqNo ==> t.total == s.total && t.groups == s.groups)
            && (forall id | id in t.groups && t.groups[id].version <= s.seqNo ::
                 id in s.groups && s.groups[id] == t.groups[id])
  {
    hide GroupOf, Rebuilt, IdsOf, AddAll;
    var t := Accepted(lib, s, rs);
    var kept := Kept(s.total, rs);
    if kept != [] {
      forall id ensures (id in t.groups <==> id in t.raw) && (id in s.groups ==> id in t.groups) {
        GroupAfterAccept(lib, s, rs, id);
      }
      forall id | id in t.groups
        ensures 1 <= t.groups[id].version <= t.seqNo
        ensures t.groups[id].version <= s.seqNo ==> id in s.groups && s.groups[id] == t.groups[id]
      {
        GroupAfterAccept(lib, s, rs, id);
      }
      var id := IdOf(lib, kept[0]);
      IdAmong(lib, kept);
      GroupAfterAccept(lib, s, rs, id);
      assert HasVersion(t, t.seqNo);
    }
  }

  lemma IdAmong(lib: Lib, rs: seq<SearchResult>)
    requires rs != []
    ensures IdOf(lib, rs[0]) in IdsOf(lib, rs)
  {
  }

  lemma {:induction false} SessionRunKeepsInv(lib: Lib, start: int, es: seq<SessionEvent>)
    ensures SessionInv(SessionRun(lib, NewSession(start), es))
  {
    hide Accepted;
    if es != [] {
      SessionRunKeepsInv(lib, start, es[..|es| - 1]);
      if es[|es| - 1].Batch? {
        AcceptKeepsSession(lib, SessionRun(lib, NewSession(start), es[..|es| - 1]), es[|es| - 1].results);
      }
    }
  }

  // ---------------------------------------------------------------- convergence

  /** A later frame says at least what an earlier one said of the flags and the error. */
  predicate Retains(f: SearchPayload, g: SearchPayload) {
    (f.done ==> g.done) && (f.truncated ==> g.truncated) && (f.error != "" ==> g.error == f.error)
  }

  /** Nothing is taken back by a later frame that is not the expired notice. */
  ghost predicate FlagsKept(frames: seq<SearchPayload>) {
    forall i, j | 0 <= i < j < |frames| && !frames[j].expired :: Retains(frames[i], frames[j])
  }

  ghost predicate ExpiredAtMostOnce(frames: seq<SearchPayload>) {
    forall i, j | 0 <= i < j < |frames| :: !(frames[i].expired && frames[j].expired)
  }

  ghost predicate GroupsInv(y: SearchSystem) {
    var s, p := y.session, y.sub;
    && p.cursor <= s.seqNo
    && (p.ch.pending.Some? ==> Ascending(p.ch.pending.value.groups))
    && Told(p).Keys <= s.groups.Keys
    && forall id | id in s.groups && s.groups[id].version <= p.cursor :: id in Told(p) && Told(p)[id] == s.groups[id]
  }

  ghost predicate FlagsInv(y: SearchSystem) {
    var s, p, fs := y.session, y.sub, Frames(y.sub.ch);
    && p.ch.delivered != []
    && (p.done ==> s.done) && (p.truncated ==> s.truncated)
    && FlagsKept(fs) && ExpiredAtMostOnce(fs)
    && (forall f | f in fs :: (f.done ==> p.done) && (f.truncated ==> p.truncated) && (f.expired ==> p.expiredSent))
    && (forall f | f in fs && f.error != "" :: p.done && f.error == s.err)
    && (forall f | f in fs :: f.seqNo <= p.cursor)
    && (!p.expiredSent ==>
          var last := fs[|fs| - 1];
          && last.seqNo == p.cursor && last.done == p.done && last.truncated == p.truncated
          && last.error == (if p.done then s.err else "")
          && (p.cursor == s.seqNo ==> last.total == s.total))
  }

  ghost predicate SearchInv(y: SearchSystem) {
    SessionInv(y.session) && GroupsInv(y) && FlagsInv(y)
  }

  lemma PutTellsBoth(c: Chan<SearchPayload>, f: SearchPayload)
    requires c.pending.Some? ==> Ascending(c.pending.value.groups)
    requires Ascending(f.groups)
    ensures ClientGroups(Frames(Put(c, f, MergeSearch))) == ClientGroups(Frames(c)) + ToMap(f.groups)
    ensures Ascending(Put(c, f, MergeSearch).pending.value.groups)
  {
    var before, after := Frames(c), Frames(Put(c, f, MergeSearch));
    assert after[..|after| - 1] == c.delivered;
    if c.pending.Some? {
      assert before[..|before| - 1] == c.delivered;
      MergeIsUnion(c.pending.value.groups, f.groups);
      UnionAssociates(ClientGroups(c.delivered), ToMap(c.pending.value.groups), ToMap(f.groups));
    } else {
      assert before == c.delivered;
    }
  }

  /** An empty delta implies an up-to-date cursor. */
  lemma EmptyDeltaMeansCurrent(s: Session, since: nat)
    requires SessionInv(s) && since <= s.seqNo
    ensures DeltaSince(s, since).groups == [] <==> since == s.seqNo
  {
    if since < s.seqNo {
      var id :| id in s.groups && s.groups[id].version == s.seqNo;
      assert id in NewerThan(s.groups, since);
      assert ToMap(Listing(NewerThan(s.groups, since))) != map[];
    } else {
      assert forall id :: id !in NewerThan(s.groups, since);
      var l := Listing(NewerThan(s.groups, since));
      if l != [] { AscendingLookup(l, 0); }
    }
  }

  lemma NothingNewer(s: Session)
    requires SessionInv(s)
    ensures NewerThan(s.groups, s.seqNo) == map[]
  {
    assert forall id :: id !in NewerThan(s.groups, s.seqNo);
  }

  lemma TickKeepsGroups(y: SearchSystem, timeout: int)
    requires SessionInv(y.session) && GroupsInv(y)
    ensures GroupsInv(y.(sub := TickSearch(y.sub, Poll(y, timeout))))
  {
    var s, p := y.session, y.sub;
    var q := TickSearch(p, Poll(y, timeout));
    if q != p {
      match Poll(y, timeout)
      case None =>
        PutTellsBoth(p.ch, EXPIRED_NOTICE);
        assert Told(q) == Told(p) + map[];
      case Some(d) =>
        PutTellsBoth(p.ch, PayloadOf(d));
        assert Told(q) == Told(p) + NewerThan(s.groups, p.cursor);
    }
  }

  /** What queueing a frame does to the sequence of frames. */
  lemma FramesAfterPut(c: Chan<SearchPayload>, f: SearchPayload)
    ensures var fs, gs := Frames(c), Frames(Put(c, f, MergeSearch));
            if c.pending.Some? then |fs| > 0 && gs == fs[..|fs| - 1] + [MergeSearch(fs[|fs| - 1], f)]
            else gs == fs + [f]
    ensures forall g | g in Frames(Put(c, f, MergeSearch)) ::
              g in Frames(c) || g == Put(c, f, MergeSearch).pending.value
  {
  }

  lemma AppendFrame(fs: seq<SearchPayload>, f: SearchPayload)
    requires FlagsKept(fs) && ExpiredAtMostOnce(fs)
    requires f.expired || forall g | g in fs :: Retains(g, f)
    requires f.expired ==> forall g | g in fs :: !g.expired
    ensures FlagsKept(fs + [f]) && ExpiredAtMostOnce(fs + [f])
  {
    forall g | g in fs ensures exists i :: 0 <= i < |fs| && fs[i] == g {}
  }

  lemma PutKeepsFlags(c: Chan<SearchPayload>, f: SearchPayload)
    requires FlagsKept(Frames(c)) && ExpiredAtMostOnce(Frames(c))
    requires f.expired || forall g | g in Frames(c) :: Retains(g, f)
    requires f.expired ==> forall g | g in Frames(c) :: !g.expired
    ensures FlagsKept(Frames(Put(c, f, MergeSearch))) && ExpiredAtMostOnce(Frames(Put(c, f, MergeSearch)))
  {
    var fs := Frames(c);
    var n := |fs|;
    FramesAfterPut(c, f);
    if c.pending.Some? {
      var init, last := fs[..n - 1], fs[n - 1];
      InitKeepsFlags(fs, init);
      if last.expired {
        assert forall i | 0 <= i < n - 1 :: !fs[i].expired;
      }
      assert forall g | g in init :: g in fs;
      AppendFrame(init, MergeSearch(last, f));
    } else {
      AppendFrame(fs, f);
    }
  }

  /** The frame a tick queues says at least what every earlier one said, unless it is the notice. */
  lemma NextFrameRetains(y: SearchSystem, timeout: int)
    requires FlagsInv(y)
    ensures var d := Poll(y, timeout); d.Some? ==> forall g | g in Frames(y.sub.ch) :: Retains(g, PayloadOf(d.value))
  {
    hide FlagsKept, ExpiredAtMostOnce;
  }

  lemma TickKeepsFlags(y: SearchSystem, timeout: int)
    requires SessionInv(y.session) && y.sub.cursor <= y.session.seqNo && FlagsInv(y)
    ensures FlagsInv(y.(sub := TickSearch(y.sub, Poll(y, timeout))))
  {
    var p := y.sub;
    var q := TickSearch(p, Poll(y, timeout));
    if q != p {
      hide FlagsInv, SessionInv;
      match Poll(y, timeout)
      case None => NoticeKeepsFlags(y, q);
      case Some(d) => DeltaKeepsFlags(y, timeout, q);
    }
  }

  lemma NoticeKeepsFlags(y: SearchSystem, q: SearchPart)
    requires FlagsInv(y) && !y.sub.expiredSent
    requires q == y.sub.(expiredSent := true, ch := Put(y.sub.ch, EXPIRED_NOTICE, MergeSearch))
    ensures FlagsInv(y.(sub := q))
  {
    hide FlagsKept, ExpiredAtMostOnce;
    PutKeepsFlags(y.sub.ch, EXPIRED_NOTICE);
    FramesAfterPut(y.sub.ch, EXPIRED_NOTICE);
  }

  lemma DeltaKeepsFlags(y: SearchSystem, timeout: int, q: SearchPart)
    requires SessionInv(y.session) && y.sub.cursor <= y.session.seqNo && FlagsInv(y)
    requires Poll(y, timeout).Some? && q == TickSearch(y.sub, Poll(y, timeout)) != y.sub
    ensures FlagsInv(y.(sub := q))
  {
    hide FlagsKept, ExpiredAtMostOnce, HasVersion, Listing, NewerThan;
    var p, f := y.sub, PayloadOf(Poll(y, timeout).value);
    NextFrameRetains(y, timeout);
    PutKeepsFlags(p.ch, f);
    FramesAfterPut(p.ch, f);
    hide Put;
    QueuedFrame(p.ch, f);
  }

  lemma QueuedFrame(c: Chan<SearchPayload>, f: SearchPayload)
    ensures var d := Put(c, f, MergeSearch);
            && d.delivered == c.delivered && d.pending.Some? && Frames(d) == c.delivered + [d.pending.value]
            && d.pending.value == if c.pending.Some? then MergeSearch(c.pending.value, f) else f
  {
  }

  lemma InitKeepsFlags(fs: seq<SearchPayload>, init: seq<SearchPayload>)
    requires init <= fs && FlagsKept(fs) && ExpiredAtMostOnce(fs)
    ensures FlagsKept(init) && ExpiredAtMostOnce(init)
  {
  }

  lemma SessionMovesKeepInv(y: SearchSystem, t: Session)
    requires SearchInv(y) && SessionInv(t)
    requires y.session.seqNo <= t.seqNo && y.session.groups.Keys <= t.groups.Keys
    requires (y.session.done ==> t.done && t.err == y.session.err) && (y.session.truncated ==> t.truncated)
    requires t.seqNo == y.session.seqNo ==> t.total == y.session.total
    requires forall id | id in t.groups && t.groups[id].version <= y.session.seqNo ::
               id in y.session.groups && y.session.groups[id] == t.groups[id]
    ensures SearchInv(y.(session := t))
  {
  }

  lemma ConnectKeepsInv(lib: Lib, timeout: int, start: int, history: seq<SessionEvent>, present: bool, now: int)
    ensures SearchInv(Connect(lib, timeout, start, history, present, now))
  {
    hide SessionRun;
    var y := Connect(lib, timeout, start, history, present, now);
    SessionRunKeepsInv(lib, start, history);
    var f := y.sub.ch.delivered[0];
    assert Frames(y.sub.ch) == [f];
    assert [f][..0] == [] && ClientGroups([]) == map[];
    assert Told(y.sub) == map[] + ToMap(f.groups);
    assert PollAt(y.session, present, now, timeout, 0).Some? ==> ToMap(f.groups) == NewerThan(y.session.groups, 0);
  }

  lemma {:induction false} SearchRunKeepsInv(lib: Lib, timeout: int, y: SearchSystem, es: seq<SearchEvent>)
    requires SearchInv(y)
    ensures SearchInv(SearchRun(lib, timeout, y, es))
  {
    hide Accepted, SessionInv, GroupsInv, FlagsInv;
    if es != [] {
      var z, e := SearchRun(lib, timeout, y, es[..|es| - 1]), es[|es| - 1];
      SearchRunKeepsInv(lib, timeout, y, es[..|es| - 1]);
      SearchStepKeepsInv(lib, timeout, z, e);
    }
  }

  lemma SearchStepKeepsInv(lib: Lib, timeout: int, y: SearchSystem, e: SearchEvent)
    requires SearchInv(y)
    ensures SearchInv(SearchStep(lib, timeout, y, e))
  {
    hide Accepted, FlagsKept, ExpiredAtMostOnce, Told;
    match e
    case Emitted(rs) =>
      AcceptKeepsSession(lib, y.session, rs);
      SessionMovesKeepInv(y, Accepted(lib, y.session, rs));
    case Ended(err) =>
    case Elapse(_) =>
    case Evict =>
    case SearchTick =>
      TickKeepsGroups(y, timeout);
      TickKeepsFlags(y, timeout);
    case SearchReceive =>
      TakeKeepsFrames(y.sub.ch);
      TakeKeepsTold(y.sub);
  }

  lemma TakeKeepsTold(p: SearchPart)
    ensures Told(p.(ch := Take(p.ch))) == Told(p)
  {
    TakeKeepsFrames(p.ch);
  }

  /**
   In every state reachable from any connection, by any interleaving of result batches, the ending,
   eviction, ticks and reads: the client's groups, overridden by the queued ones, overridden by the
   delta at the subscriber's cursor, are exactly the session's groups. Neither a flag nor the error is
   ever taken back except by the expired notice, and that notice exists at most once.
  */
  lemma SearchConverges(lib: Lib, timeout: int, start: int, history: seq<SessionEvent>, present: bool, now: int,
                        es: seq<SearchEvent>)
    ensures var y := SearchRun(lib, timeout, Connect(lib, timeout, start, history, present, now), es);
            && Told(y.sub) + NewerThan(y.session.groups, y.sub.cursor) == y.session.groups
            && FlagsKept(Frames(y.sub.ch)) && ExpiredAtMostOnce(Frames(y.sub.ch))
  {
    hide SearchRun, Connect;
    ConnectKeepsInv(lib, timeout, start, history, present, now);
    SearchRunKeepsInv(lib, timeout, Connect(lib, timeout, start, history, present, now), es);
    var y := SearchRun(lib, timeout, Connect(lib, timeout, start, history, present, now), es);
    TellsTheSession(y);
  }

  lemma TellsTheSession(y: SearchSystem)
    requires GroupsInv(y)
    ensures Told(y.sub) + NewerThan(y.session.groups, y.sub.cursor) == y.session.groups
  {
    var m, g := Told(y.sub) + NewerThan(y.session.groups, y.sub.cursor), y.session.groups;
    forall id ensures (id in m <==> id in g) && (id in g ==> m[id] == g[id]) {}
  }

  /** One tick brings the cursor, the flags and the frames up to the session. */
  lemma TickCatchesUp(y: SearchSystem, timeout: int)
    requires SearchInv(y) && y.present && !Expired(y.session, y.now, timeout) && !y.sub.expiredSent
    ensures var q := TickSearch(y.sub, Poll(y, timeout));
            && q.cursor == y.session.seqNo && q.done == y.session.done && q.truncated == y.session.truncated
            && !q.expiredSent && FlagsInv(y.(sub := q)) && Told(q) == y.session.groups
  {
    hide FlagsKept, ExpiredAtMostOnce;
    var q := TickSearch(y.sub, Poll(y, timeout));
    TickKeepsGroups(y, timeout);
    TickKeepsFlags(y, timeout);
    EmptyDeltaMeansCurrent(y.session, y.sub.cursor);
    hide SessionInv, FlagsInv, GroupsInv, Told;
    assert q.cursor == y.session.seqNo;
    TellsTheSession(y.(sub := q));
    NothingNewer(y.session);
  }

  /**
   While the session is served and no notice was sent, one tick followed by one read brings the
   client exactly to the session's snapshot: its sequence number, every group, the total, both flags
   and the error.
  */
  lemma TickThenDrainShowsSnapshot(y: SearchSystem, timeout: int)
    requires SearchInv(y) && y.present && !Expired(y.session, y.now, timeout) && !y.sub.expiredSent
    ensures var read := Take(TickSearch(y.sub, Poll(y, timeout)).ch).delivered;
            && read != []
            && ClientGroups(read) == y.session.groups
            && var last := read[|read| - 1];
               && last.seqNo == y.session.seqNo && last.total == y.session.total && last.done == y.session.done
               && last.truncated == y.session.truncated && last.error == y.session.err
  {
    assert y.session.err != "" ==> y.session.done;
    TickCatchesUp(y, timeout);
    hide SessionInv, GroupsInv, TickSearch, Poll, FlagsKept, ExpiredAtMostOnce;
    var q := TickSearch(y.sub, Poll(y, timeout));
    TakeKeepsFrames(q.ch);
    assert Frames(Take(q.ch)) == Take(q.ch).delivered;
  }

  // ---------------------------------------------------------------- the expired notice

  /** Nothing at all is taken back, not even by the notice. */
  ghost predicate NeverTakenBack(frames: seq<SearchPayload>) {
    forall i, j | 0 <= i < j < |frames| :: Retains(frames[i], frames[j])
  }

  /** The notice is about to be queued with every other field at its zero value, after set flags were read. */
  ghost predicate ClearsFlags(y: SearchSystem, timeout: int) {
    && Poll(y, timeout).None? && !y.sub.expiredSent
    && y.sub.ch.pending.None? && (y.sub.done || y.sub.truncated)
  }

  lemma AppendRetains(fs: seq<SearchPayload>, f: SearchPayload)
    requires NeverTakenBack(fs)
    ensures NeverTakenBack(fs + [f]) <==> forall g | g in fs :: Retains(g, f)
  {
    var gs := fs + [f];
    if NeverTakenBack(gs) {
      forall g | g in fs ensures Retains(g, f) {
        var i :| 0 <= i < |fs| && fs[i] == g;
        assert Retains(gs[i], gs[|fs|]);
      }
    }
  }

  /** A displaced frame's flags survive in the merged one, the notice or not. */
  lemma MergeRetains(fs: seq<SearchPayload>, f: SearchPayload)
    requires fs != [] && NeverTakenBack(fs)
    requires f == EXPIRED_NOTICE || forall g | g in fs :: Retains(g, f)
    ensures NeverTakenBack(fs[..|fs| - 1] + [MergeSearch(fs[|fs| - 1], f)])
  {
    var init, last := fs[..|fs| - 1], fs[|fs| - 1];
    forall g | g in init ensures g in fs && Retains(g, last) {
      var i :| 0 <= i < |init| && init[i] == g;
    }
    AppendRetains(init, MergeSearch(last, f));
  }

  lemma TickFlagsIff(y: SearchSystem, timeout: int)
    requires SearchInv(y) && NeverTakenBack(Frames(y.sub.ch))
    ensures NeverTakenBack(Frames(TickSearch(y.sub, Poll(y, timeout)).ch)) <==> !ClearsFlags(y, timeout)
  {
    var p, fs := y.sub, Frames(y.sub.ch);
    var q := TickSearch(p, Poll(y, timeout));
    if q != p {
      hide FlagsKept, ExpiredAtMostOnce, NeverTakenBack, GroupsInv;
      var f := match Poll(y, timeout) case None => EXPIRED_NOTICE case Some(d) => PayloadOf(d);
      FramesAfterPut(p.ch, f);
      if p.ch.pending.Some? {
        MergeRetains(fs, f);
      } else {
        AppendRetains(fs, f);
        assert fs[|fs| - 1] in fs;
      }
    }
  }

  /** Among all steps only such a tick takes anything back. */
  lemma StepFlagsIff(lib: Lib, timeout: int, y: SearchSystem, e: SearchEvent)
    requires SearchInv(y) && NeverTakenBack(Frames(y.sub.ch))
    ensures NeverTakenBack(Frames(SearchStep(lib, timeout, y, e).sub.ch))
            <==> !(e.SearchTick? && ClearsFlags(y, timeout))
  {
    hide SearchInv, NeverTakenBack;
    TakeKeepsFrames(y.sub.ch);
    if e.SearchTick? {
      TickFlagsIff(y, timeout);
    }
  }

  /** At no time of the run had a frame taken anything back. */
  ghost predicate NeverTakenBackIn(lib: Lib, timeout: int, y: SearchSystem, es: seq<SearchEvent>) {
    && NeverTakenBack(Frames(SearchRun(lib, timeout, y, es).sub.ch))
    && (es == [] || NeverTakenBackIn(lib, timeout, y, es[..|es| - 1]))
  }

  ghost predicate NeverClears(lib: Lib, timeout: int, y: SearchSystem, es: seq<SearchEvent>) {
    es == [] ||
    (NeverClears(lib, timeout, y, es[..|es| - 1])
     && !(es[|es| - 1].SearchTick? && ClearsFlags(SearchRun(lib, timeout, y, es[..|es| - 1]), timeout)))
  }

  /**
   Over every run of every connection: the flags and the error are never taken back, not even by the
   notice, exactly if the notice is never queued into an empty mailbox after `done` or `truncated`
   was told.
  */
  lemma {:induction false} NothingTakenBackIff(lib: Lib, timeout: int, y: SearchSystem, es: seq<SearchEvent>)
    requires SearchInv(y) && NeverTakenBack(Frames(y.sub.ch))
    ensures NeverTakenBackIn(lib, timeout, y, es) <==> NeverClears(lib, timeout, y, es)
  {
    hide SearchInv, NeverTakenBack, ClearsFlags, SearchStep;
    if es != [] {
      var init, e := es[..|es| - 1], es[|es| - 1];
      NothingTakenBackIff(lib, timeout, y, init);
      SearchRunKeepsInv(lib, timeout, y, init);
      if NeverTakenBackIn(lib, timeout, y, init) {
        StepFlagsIff(lib, timeout, SearchRun(lib, timeout, y, init), e);
      }
    }
  }

  /** Every connection starts there. */
  lemma ConnectTakesNothingBack(lib: Lib, timeout: int, start: int, history: seq<SessionEvent>, present: bool, now: int)
    ensures var y := Connect(lib, timeout, start, history, present, now);
            SearchInv(y) && NeverTakenBack(Frames(y.sub.ch))
  {
    hide SessionRun, SearchInv;
    ConnectKeepsInv(lib, timeout, start, history, present, now);
  }

  /**
   A run in which it does happen: connected to a finished session, the client reads `done`; the
   session's time to live elapses, and the next frame says it is not done.
  */
  lemma NoticeClearsFlags(lib: Lib, timeout: int)
    ensures var y := Connect(lib, timeout, 0, [Done("", 0)], true, 0);
            var z := SearchRun(lib, timeout, y, [Elapse(SESSION_TTL + 1), SearchTick]);
            && y.sub.ch.delivered == [SearchPayload(0, [], 0, true, false, false, "")]
            && Frames(z.sub.ch) == y.sub.ch.delivered + [SearchPayload(0, [], 0, false, false, true, "")]
            && !NeverTakenBack(Frames(z.sub.ch))
  {
    var s := NewSession(0);
    assert [Done("", 0)][..0] == [] && SessionRun(lib, s, []) == s;
    assert SessionRun(lib, s, [Done("", 0)]) == Finished(s, "", 0);
    EmptyDeltaMeansCurrent(Finished(s, "", 0), 0);
    var y := Connect(lib, timeout, 0, [Done("", 0)], true, 0);
    var es := [Elapse(SESSION_TTL + 1), SearchTick];
    assert es[..1] == [Elapse(SESSION_TTL + 1)] && es[..1][..0] == [];
    var a := SearchRun(lib, timeout, y, es[..1]);
    assert SearchRun(lib, timeout, y, []) == y;
    assert a == SearchStep(lib, timeout, y, Elapse(SESSION_TTL + 1));
    var fs := Frames(SearchRun(lib, timeout, y, es).sub.ch);
    assert fs[0].done && !fs[1].done && !Retains(fs[0], fs[1]);
  }

  /**
   "Falls silent for the rest of the connection" holds exactly when the session is gone or finished
   at the time of the notice. One that expired while still running, as a backend that outlives its
   deadline leaves it, is served again as soon as it finishes.
  */
  lemma SilenceIsFinalIff(lib: Lib, timeout: int, y: SearchSystem)
    requires Poll(y, timeout).None?
    ensures (forall es :: Poll(SearchRun(lib, timeout, y, es), timeout).None?) <==> !(y.present && !y.session.done)
  {
    hide Accepted;
    if y.present && !y.session.done {
      var es := [Ended("")];
      assert es[..|es| - 1] == [];
      assert SearchRun(lib, timeout, y, es) == SearchStep(lib, timeout, y, Ended(""));
      assert Poll(SearchRun(lib, timeout, y, es), timeout).Some?;
    } else {
      forall es ensures Poll(SearchRun(lib, timeout, y, es), timeout).None? {
        StaysSilent(lib, timeout, y, es);
      }
    }
  }

  /** A run in which it is: connected past the last deadline of a running search, which then ends. */
  lemma ExpiredIsServedAgain(lib: Lib, timeout: int)
    ensures var y := Connect(lib, timeout, 0, [], true, timeout + FORCE_CANCEL_GRACE + SESSION_TTL + 1);
            var z := SearchRun(lib, timeout, y, [Ended(""), SearchTick]);
            && y.sub.ch.delivered == [SearchPayload(0, [], 0, false, false, true, "")]
            && Frames(z.sub.ch) == y.sub.ch.delivered + [SearchPayload(0, [], 0, true, false, false, "")]
  {
    var s := NewSession(0);
    assert SessionRun(lib, s, []) == s;
    var y := Connect(lib, timeout, 0, [], true, timeout + FORCE_CANCEL_GRACE + SESSION_TTL + 1);
    var es := [Ended(""), SearchTick];
    assert es[..1] == [Ended("")] && es[..1][..0] == [];
    assert SearchRun(lib, timeout, y, []) == y;
    assert SearchRun(lib, timeout, y, es[..1]) == SearchStep(lib, timeout, y, Ended(""));
    EmptyDeltaMeansCurrent(Finished(s, "", y.now), 0);
  }

  ghost predicate Silent(y: SearchSystem, timeout: int) {
    !y.present || (y.session.done && Expired(y.session, y.now, timeout))
  }

  lemma StepStaysSilent(lib: Lib, timeout: int, y: SearchSystem, e: SearchEvent)
    requires Silent(y, timeout)
    ensures Silent(SearchStep(lib, timeout, y, e), timeout)
  {
    hide Accepted;
    if e.Emitted? {
      AcceptKeepsTimes(lib, y.session, e.results);
    }
  }

  lemma {:induction false} StaysSilent(lib: Lib, timeout: int, y: SearchSystem, es: seq<SearchEvent>)
    requires Silent(y, timeout)
    ensures Silent(SearchRun(lib, timeout, y, es), timeout)
  {
    hide Silent, SearchStep;
    if es != [] {
      StaysSilent(lib, timeout, y, es[..|es| - 1]);
      StepStaysSilent(lib, timeout, SearchRun(lib, timeout, y, es[..|es| - 1]), es[|es| - 1]);
      assert SearchRun(lib, timeout, y, es)
          == SearchStep(lib, timeout, SearchRun(lib, timeout, y, es[..|es| - 1]), es[|es| - 1]);
    }
  }

  lemma AcceptKeepsTimes(lib: Lib, s: Session, rs: seq<SearchResult>)
    ensures var t := Accepted(lib, s, rs);
            t.done == s.done && t.startedAt == s.startedAt && t.finishedAt == s.finishedAt
  {
    hide GroupOf, Rebuilt, IdsOf, AddAll;
  }
}
