/**
 The capacity-1 mailbox behind every `sendLatest*` function: one sender (the broadcaster, which
 holds the hub's lock), one reader (the connection's handler) that drains at arbitrary moments.
*/
module Mailboxes {
  import opened Basics

  /** A channel as an observer of the whole run sees it: what the reader took so far, what is queued. */
  datatype Chan<+T> = Chan(delivered: seq<T>, pending: Option<T>)

  /** Every frame the reader has or will have, in order, if nothing more is sent. */
  function Frames<T>(c: Chan<T>): seq<T> {
    c.delivered + if c.pending.Some? then [c.pending.value] else []
  }

  /** The reader takes the queued frame, if there is one. */
  function Take<T>(c: Chan<T>): Chan<T> {
    if c.pending.Some? then Chan(c.delivered + [c.pending.value], None) else c
  }

  /** The sender queues a frame; a frame it displaces is folded in by `merge(displaced, fresh)`. */
  function Put<T>(c: Chan<T>, p: T, merge: (T, T) -> T): Chan<T> {
    Chan(c.delivered, Some(if c.pending.Some? then merge(c.pending.value, p) else p))
  }

  lemma TakeKeepsFrames<T>(c: Chan<T>)
    ensures Frames(Take(c)) == Frames(c)
  {
  }

  class Mailbox<T(!new)> {
    var slot: Option<T>
    ghost var read: seq<T>

    ghost function View(): Chan<T>
      reads this
    {
      Chan(read, slot)
    }

    /** `first`: what the handler writes to the connection before it starts reading. */
    constructor (ghost first: seq<T>)
      ensures View() == Chan(first, None)
    {
      slot := None;
      read := first;
    }

    /** `select { case ch <- p: default: }` */
    method TrySend(p: T) returns (ok: bool)
      modifies this
      ensures ok == old(slot).None?
      ensures slot == if ok then Some(p) else old(slot)
      ensures read == old(read)
    {
      ok := slot.None?;
      if ok {
        slot := Some(p);
      }
    }

    /** `select { case old := <-ch: default: }` by the sender, which keeps the frame for itself. */
    method Drain() returns (displaced: Option<T>)
      modifies this
      ensures displaced == old(slot) && slot == None
      ensures read == old(read)
    {
      displaced := slot;
      slot := None;
    }

    /** The reader's goroutine runs, or does not, between two steps of the sender. */
    method ReaderMayTake() returns (ghost took: bool)
      modifies this
      ensures took ==> old(slot).Some?
      ensures View() == if took then Take(old(View())) else old(View())
    {
      took := false;
      if * {
        if slot.Some? {
          took := true;
          read := read + [slot.value];
          slot := None;
        }
      }
    }

    /**
     The non-blocking drain-and-merge loop. Whatever the reader does meanwhile, the loop ends, and
     its effect is one atomic Put, preceded by the reader's Take when `raced`: a displaced frame is
     merged exactly once and never when the reader got it.
    */
    method SendLatest(payload: T, merge: (T, T) -> T) returns (sent: T, ghost raced: bool)
      modifies this
      ensures View() == Put(if raced then Take(old(View())) else old(View()), payload, merge)
      ensures slot == Some(sent)
    {
      sent, raced := payload, false;
      ghost var start := View();
      var queued := false;
      while !queued
        invariant if queued then
            View() == Put(if raced then Take(start) else start, payload, merge) && slot == Some(sent)
          else if raced then
            View() == Take(start) && start.pending.Some? && sent == payload
          else
            (View() == start && sent == payload)
            || (View() == Chan(start.delivered, None) && start.pending.Some?
                && sent == merge(start.pending.value, payload))
        decreases !queued, slot.Some?
      {
        ghost var took := ReaderMayTake();
        raced := raced || took;
        queued := TrySend(sent);
        if !queued {
          took := ReaderMayTake();
          raced := raced || took;
          var displaced := Drain();
          if displaced.Some? {
            sent := merge(displaced.value, sent);
          }
        }
      }
    }
  }
}
