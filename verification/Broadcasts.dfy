/**
 Whole runs of the hub: connections come and go, each registration may start a broadcaster goroutine,
 each last departure cancels the current one, and goroutines deliver ticks whose data they captured
 arbitrarily long ago, whether or not they have been cancelled meanwhile.
*/
module Broadcasts {
  import opened Basics
  import opened KeyedLists
  import opened Mailboxes
  import opened LiveFrames
  import opened StreamHub

  /** Contexts are numbered in the order they are started; `ticking` holds what a parked tick captured. */
  datatype State = State(
    subs: map<nat, Conn>, nextId: nat, cancel: Option<nat>, started: nat, cancelled: set<nat>,
    ticking: map<nat, TickData>)

  datatype Event =
    | Subscribe(jobId: int, jobIds: set<int>, wantThroughput: bool, searchId: string, data: TickData)
    | Unsubscribe(id: nat)
    | TickCaptures(ctx: nat, captured: TickData)
    | TickDelivers(ctx: nat, raced: map<nat, Reads>)
    | Reads(id: nat, which: StreamHub.Reads)

  const EMPTY := State(map[], 0, None, 0, {}, map[])

  function RacedWith(subs: map<nat, Conn>, raced: map<nat, StreamHub.Reads>): map<nat, StreamHub.Reads> {
    map id | id in subs :: if id in raced then raced[id] else StreamHub.Reads(false, false, false, false)
  }

  ghost function Step(h: State, e: Event, interval: int): State {
    match e
    case Subscribe(jobId, jobIds, want, searchId, t) =>
      var g := h.(subs := h.subs[h.nextId := OpenConn(jobId, jobIds, want, searchId, h.nextId, t)],
                  nextId := h.nextId + 1);
      if h.cancel.None? then g.(cancel := Some(h.started), started := h.started + 1) else g
    case Unsubscribe(id) =>
      var g := h.(subs := h.subs - {id});
      if g.subs == map[] && h.cancel.Some?
      then g.(cancel := None, cancelled := h.cancelled + {h.cancel.value}) else g
    case TickCaptures(ctx, t) => if ctx < h.started then h.(ticking := h.ticking[ctx := t]) else h
    case TickDelivers(ctx, raced) =>
      if ctx !in h.ticking then h
      else
        var g := h.(ticking := h.ticking - {ctx});
        if ctx in h.cancelled then g
        else g.(subs := TickAll(h.subs, RacedWith(h.subs, raced), h.ticking[ctx], interval))
    case Reads(id, which) => if id in h.subs then h.(subs := h.subs[id := Received(h.subs[id], which)]) else h
  }

  ghost function Run(es: seq<Event>, interval: int): State {
    if es == [] then EMPTY else Step(Run(es[..|es| - 1], interval), es[|es| - 1], interval)
  }

  ghost predicate Lifecycle(h: State) {
    && (h.cancel.Some? <==> h.subs != map[])
    && (forall c | 0 <= c < h.started :: c in h.cancelled <==> h.cancel != Some(c))
    && (h.cancel.Some? ==> h.cancel.value < h.started)
    && (forall c | c in h.cancelled :: c < h.started)
    && (forall c | c in h.ticking :: c < h.started)
    && (forall id | id in h.subs :: id < h.nextId)
  }

  ghost predicate EveryoneTold(h: State) {
    forall id | id in h.subs :: LiveInv(h.subs[id].live)
  }

  lemma StepKeepsLifecycle(h: State, e: Event, interval: int)
    requires Lifecycle(h)
    ensures Lifecycle(Step(h, e, interval))
  {
    hide TickConn, Received, OpenConn;
    if e.Subscribe? {
      assert h.nextId in Step(h, e, interval).subs;
    } else if e.Reads? && e.id in h.subs {
      assert e.id in Step(h, e, interval).subs;
    } else if e.Unsubscribe? {
      if h.subs == map[] {
        assert h.subs - {e.id} == map[];
      }
    } else if e.TickDelivers? && e.ctx in h.ticking && e.ctx !in h.cancelled {
      var all := TickAll(h.subs, RacedWith(h.subs, e.raced), h.ticking[e.ctx], interval);
      assert all.Keys == h.subs.Keys;
      assert all == map[] <==> all.Keys == {};
      assert h.subs == map[] <==> h.subs.Keys == {};
    }
  }

  lemma ReceiveKeepsLive(c: Conn, r: StreamHub.Reads)
    requires LiveInv(c.live)
    ensures LiveInv(Received(c, r).live)
  {
    TakeKeepsFrames(c.live.ch);
  }

  lemma StepKeepsTold(h: State, e: Event, interval: int)
    requires EveryoneTold(h)
    ensures EveryoneTold(Step(h, e, interval))
  {
    hide LiveInv, Received, TickLive, SubscribeLive;
    var g := Step(h, e, interval);
    forall id | id in g.subs ensures LiveInv(g.subs[id].live) {
      if e.Subscribe? && id == h.nextId {
        SubscribeKeepsLive(e.jobIds, LiveInputFor(e.jobId, e.data));
      } else if e.Reads? && id == e.id {
        ReceiveKeepsLive(h.subs[id], e.which);
      } else if e.TickDelivers? && e.ctx in h.ticking && e.ctx !in h.cancelled {
        var r := RacedWith(h.subs, e.raced)[id];
        ReceiveKeepsLive(h.subs[id], r);
        TickKeepsLive(Received(h.subs[id], r).live, LiveInputFor(Received(h.subs[id], r).jobId, h.ticking[e.ctx]));
      }
    }
  }

  /**
   In every reachable state of the hub: a broadcaster context is current exactly while someone is
   subscribed, every other context ever started is cancelled, and every connection's client, with
   its mailbox drained, holds what the hub believes it was told.
  */
  lemma {:induction false} EveryRunIsSafe(es: seq<Event>, interval: int)
    ensures Lifecycle(Run(es, interval)) && EveryoneTold(Run(es, interval))
  {
    if es != [] {
      hide Step;
      EveryRunIsSafe(es[..|es| - 1], interval);
      StepKeepsLifecycle(Run(es[..|es| - 1], interval), es[|es| - 1], interval);
      StepKeepsTold(Run(es[..|es| - 1], interval), es[|es| - 1], interval);
    }
  }

  /** Which broadcaster changed a mailbox in this step, if any. */
  ghost predicate Sends(h: State, e: Event, interval: int, ctx: nat) {
    e.TickDelivers? && e.ctx == ctx && Step(h, e, interval).subs != h.subs
  }

  /** Cancellation is for good. */
  lemma {:induction false} CancelledForGood(es: seq<Event>, n: nat, interval: int, ctx: nat)
    requires n <= |es| && ctx in Run(es[..n], interval).cancelled
    ensures ctx in Run(es, interval).cancelled
  {
    hide TickAll, Received, OpenConn;
    if n < |es| {
      assert es[..|es| - 1][..n] == es[..n];
      CancelledForGood(es[..|es| - 1], n, interval, ctx);
    } else {
      assert es[..n] == es;
    }
  }

  /**
   Every mailbox has one sender at a time: a goroutine that changes any mailbox is the current one,
   so nobody else can in that state, and one whose context was cancelled never does again, even with
   a tick it began before.
  */
  lemma SingleSender(es: seq<Event>, n: nat, e: Event, f: Event, interval: int, a: nat, b: nat)
    requires n <= |es|
    requires Sends(Run(es, interval), e, interval, a)
    ensures Run(es, interval).cancel == Some(a)
    ensures Sends(Run(es, interval), f, interval, b) ==> a == b
    ensures a !in Run(es[..n], interval).cancelled
  {
    hide TickAll, Received, OpenConn;
    EveryRunIsSafe(es, interval);
    if a in Run(es[..n], interval).cancelled {
      CancelledForGood(es, n, interval, a);
    }
  }
}
