/**
 The runtime's shutdown protocol: the HTTP server and the pipeline runner end whenever they do, the
 stop signal arrives whenever it does, every wait is bounded, and the shared store is closed last.
*/
module Shutdown {
  import opened Basics

  datatype RunnerEnd = Clean | TimedOut | Broken

  datatype Problem =
    | ServerFailed
    | ServerStopped
    | RunnerFailed(how: RunnerEnd)
    | RunnerStopped
    | ShutdownFailed
    | ServerWaitExpired
    | RunnerWaitExpired

  datatype First = Signal | Server | Runner

  /** Everything that happens to the process while it runs; nothing of it is ever undone. */
  class Lifetime {
    var signalled: bool
    var server: Option<bool>          // Serve returned: did it end without an error?
    var runner: Option<RunnerEnd>     // Run returned
    var shutdown: Option<bool>        // Shutdown returned: did it end without an error?

    constructor ()
      ensures !signalled && server.None? && runner.None? && shutdown.None?
    {
      signalled, server, runner, shutdown := false, None, None, None;
    }

    twostate predicate Later()
      reads this
    {
      && (old(signalled) ==> signalled)
      && (old(server).Some? ==> server == old(server))
      && (old(runner).Some? ==> runner == old(runner))
      && (old(shutdown).Some? ==> shutdown == old(shutdown))
    }

    /** Time passes: a signal may arrive, the server or the runner may end. */
    method Elapse()
      modifies this
      ensures Later() && shutdown == old(shutdown)
    {
      if * {
        signalled := true;
      }
      if server.None? {
        if * {
          var clean := *;
          server := Some(clean);
        }
      }
      if runner.None? {
        if * {
          if * { runner := Some(Clean); } else if * { runner := Some(TimedOut); } else { runner := Some(Broken); }
        }
      }
    }

    /** A wait for the signal, the server or the runner, whichever of those ready is taken. */
    method AwaitFirst() returns (first: First)
      modifies this
      ensures Later() && shutdown == old(shutdown)
      ensures first == Signal ==> signalled
      ensures first == Server ==> server.Some?
      ensures first == Runner ==> runner.Some?
    {
      Elapse();
      if {
        case server.Some? => first := Server;
        case runner.Some? => first := Runner;
        case true => first := Signal; signalled := true;
      }
    }

    /** srv.Shutdown: returns once the handlers are done, or with an error once the timeout expires. */
    method ShutDown() returns (ok: bool)
      requires shutdown.None?
      modifies this
      ensures Later() && shutdown == Some(ok)
    {
      Elapse();
      ok := *;
      shutdown := Some(ok);
    }

    /** A wait for the server bounded by the shutdown timeout: false if the timeout is taken. */
    method AwaitServer() returns (ended: bool)
      modifies this
      ensures Later() && shutdown == old(shutdown)
      ensures ended ==> server.Some?
    {
      Elapse();
      ended := *;
      ended := ended && server.Some?;
    }

    method AwaitRunner() returns (ended: bool)
      modifies this
      ensures Later() && shutdown == old(shutdown)
      ensures ended ==> runner.Some?
    {
      Elapse();
      ended := *;
      ended := ended && runner.Some?;
    }
  }

  datatype Outcome = Outcome(problems: seq<Problem>, storeCloseSafe: bool)

  /** What was received by the time `RunRuntime` returns, for the contract only. */
  datatype Seen = Seen(first: First, requested: bool, server: bool, runner: bool)

  /** How the process ended up. */
  datatype End = End(server: Option<bool>, runner: Option<RunnerEnd>, shutdown: Option<bool>)

  ghost predicate Received(seen: Seen, end: End) {
    && (seen.server ==> end.server.Some?) && (seen.runner ==> end.runner.Some?)
    && (seen.first == Server ==> seen.server) && (seen.first == Runner ==> seen.runner)
    && (seen.first == Signal ==> seen.requested)
  }

  function AtFirst(seen: Seen, end: End): seq<Problem> {
    match seen.first
    case Signal => []
    case Server => if end.server == Some(false) then [ServerFailed] else if seen.requested then [] else [ServerStopped]
    case Runner =>
      if end.runner.Some? && end.runner != Some(Clean) then [RunnerFailed(end.runner.value)]
      else if seen.requested then [] else [RunnerStopped]
  }

  function OfShutdown(end: End): seq<Problem> {
    if end.shutdown == Some(false) then [ShutdownFailed] else []
  }

  function OfServer(ended: bool, server: Option<bool>): seq<Problem> {
    if !ended then [ServerWaitExpired] else if server == Some(false) then [ServerFailed] else []
  }

  function OfRunner(ended: bool, runner: Option<RunnerEnd>): seq<Problem> {
    if !ended then [RunnerWaitExpired]
    else if runner.Some? && runner != Some(Clean) then [RunnerFailed(runner.value)] else []
  }

  /** In the order they are joined: the first to end, the shutdown, and who was waited for then. */
  function Problems(seen: Seen, end: End): seq<Problem> {
    AtFirst(seen, end) + OfShutdown(end)
    + (if seen.first == Server then [] else OfServer(seen.server, end.server))
    + if seen.first == Runner then [] else OfRunner(seen.runner, end.runner)
  }

  /** Which problems there are to report. */
  ghost predicate Reported(problems: seq<Problem>, seen: Seen, end: End)
    requires Received(seen, end)
  {
    && (ServerFailed in problems <==> seen.server && !end.server.value)
    && (ServerStopped in problems <==> seen.first == Server && !seen.requested && end.server.value)
    && (forall how :: RunnerFailed(how) in problems <==> seen.runner && end.runner.value == how && how != Clean)
    && (RunnerStopped in problems <==> seen.first == Runner && !seen.requested && end.runner.value == Clean)
    && (ShutdownFailed in problems <==> end.shutdown == Some(false))
    && (ServerWaitExpired in problems <==> !seen.server)
    && (RunnerWaitExpired in problems <==> !seen.runner)
  }

  lemma JoinedHas(seen: Seen, end: End, p: Problem)
    ensures p in Problems(seen, end) <==>
            p in AtFirst(seen, end) || p in OfShutdown(end)
            || (seen.first != Server && p in OfServer(seen.server, end.server))
            || (seen.first != Runner && p in OfRunner(seen.runner, end.runner))
  {
    hide AtFirst, OfShutdown, OfServer, OfRunner;
  }

  lemma ProblemsAreReported(seen: Seen, end: End)
    requires Received(seen, end)
    ensures Reported(Problems(seen, end), seen, end)
  {
    hide Problems;
    forall p
      ensures p in Problems(seen, end) <==>
              p in AtFirst(seen, end) || p in OfShutdown(end)
              || (seen.first != Server && p in OfServer(seen.server, end.server))
              || (seen.first != Runner && p in OfRunner(seen.runner, end.runner))
    {
      JoinedHas(seen, end, p);
    }
  }

  /** There is none exactly when a requested shutdown went through cleanly. */
  lemma NothingToReport(seen: Seen, end: End)
    requires Received(seen, end) && end.shutdown.Some?
    ensures Problems(seen, end) == [] <==>
            && seen.requested && end.shutdown == Some(true) && seen.server && seen.runner
            && end.server.value && end.runner == Some(Clean)
  {
    assert |Problems(seen, end)|
        == |AtFirst(seen, end)| + |OfShutdown(end)|
           + (if seen.first == Server then 0 else |OfServer(seen.server, end.server)|)
           + if seen.first == Runner then 0 else |OfRunner(seen.runner, end.runner)|;
    assert OfShutdown(end) == [] <==> end.shutdown.value;
    assert OfServer(seen.server, end.server) == [] <==> seen.server && end.server.value;
    assert OfRunner(seen.runner, end.runner) == [] <==> seen.runner && end.runner.value == Clean;
    match seen.first
    case Signal =>
    case Server => assert AtFirst(seen, end) == [] <==> end.server.value && seen.requested;
    case Runner => assert AtFirst(seen, end) == [] <==> end.runner.value == Clean && seen.requested;
  }

  method FinishServer(life: Lifetime, problems: seq<Problem>, safe: bool)
    returns (problems': seq<Problem>, safe': bool, ended: bool)
    modifies life
    ensures life.Later() && life.shutdown == old(life.shutdown)
    ensures ended ==> life.server.Some?
    ensures problems' == problems + OfServer(ended, life.server) && safe' == (safe && ended)
  {
    problems', safe' := problems, safe;
    ended := life.AwaitServer();
    if ended {
      if !life.server.value {
        problems' := problems' + [ServerFailed];
      }
    } else {
      safe' := false;
      problems' := problems' + [ServerWaitExpired];
    }
  }

  method FinishRunner(life: Lifetime, problems: seq<Problem>, safe: bool)
    returns (problems': seq<Problem>, safe': bool, ended: bool)
    modifies life
    ensures life.Later() && life.shutdown == old(life.shutdown)
    ensures ended ==> life.runner.Some?
    ensures problems' == problems + OfRunner(ended, life.runner)
    ensures safe' == (safe && ended && life.runner != Some(TimedOut))
  {
    problems', safe' := problems, safe;
    ended := life.AwaitRunner();
    if ended {
      if life.runner != Some(Clean) {
        problems' := problems' + [RunnerFailed(life.runner.value)];
      }
      if life.runner == Some(TimedOut) {
        safe' := false;
      }
    } else {
      safe' := false;
      problems' := problems' + [RunnerWaitExpired];
    }
  }

  method RunRuntime(life: Lifetime) returns (outcome: Outcome, ghost seen: Seen)
    requires life.shutdown.None?
    modifies life
    ensures seen.requested ==> life.signalled
    ensures seen.server ==> life.server.Some?
    ensures seen.runner ==> life.runner.Some?
    // the store may be closed exactly when nobody can still be using it
    ensures outcome.storeCloseSafe <==>
            life.shutdown == Some(true) && seen.server && seen.runner && life.runner != Some(TimedOut)
    ensures var end := End(life.server, life.runner, life.shutdown);
            Received(seen, end) && Reported(outcome.problems, seen, end)
    // nil exactly when a requested shutdown went through cleanly
    ensures outcome.problems == [] <==>
            seen.requested && life.shutdown == Some(true) && seen.server && seen.runner
            && life.server.value && life.runner == Some(Clean)
  {
    hide Reported, Problems;
    var problems: seq<Problem> := [];
    var storeCloseSafe := true;
    var serverFinished, runnerFinished := false, false;
    ghost var requested := false;
    var first := life.AwaitFirst();
    match first {
      case Signal =>
        requested := true;
      case Server =>
        serverFinished := true;
        if !life.server.value {
          problems := [ServerFailed];
        } else if !life.signalled {
          problems := [ServerStopped];
        }
        requested := life.signalled;
      case Runner =>
        runnerFinished := true;
        if life.runner != Some(Clean) {
          problems := [RunnerFailed(life.runner.value)];
          if life.runner == Some(TimedOut) {
            storeCloseSafe := false;
          }
        } else if !life.signalled {
          problems := [RunnerStopped];
        }
        requested := life.signalled;
    }
    ghost var begun := problems;
    var ok := life.ShutDown();
    if !ok {
      storeCloseSafe := false;
      problems := problems + [ShutdownFailed];
    }
    ghost var shut := problems;
    if !serverFinished {
      problems, storeCloseSafe, serverFinished := FinishServer(life, problems, storeCloseSafe);
    }
    ghost var served := problems;
    if !runnerFinished {
      problems, storeCloseSafe, runnerFinished := FinishRunner(life, problems, storeCloseSafe);
    }
    outcome := Outcome(problems, storeCloseSafe);
    seen := Seen(first, requested, serverFinished, runnerFinished);
    ghost var end := End(life.server, life.runner, life.shutdown);
    Joined(seen, end, begun, shut, served, problems);
    ProblemsAreReported(seen, end);
    NothingToReport(seen, end);
  }

  lemma Joined(seen: Seen, end: End, begun: seq<Problem>, shut: seq<Problem>, served: seq<Problem>,
               problems: seq<Problem>)
    requires begun == AtFirst(seen, end) && shut == begun + OfShutdown(end)
    requires served == if seen.first == Server then shut else shut + OfServer(seen.server, end.server)
    requires problems == if seen.first == Runner then served else served + OfRunner(seen.runner, end.runner)
    ensures problems == Problems(seen, end)
  {
  }

  class Store {
    var closed: bool

    constructor ()
      ensures !closed
    {
      closed := false;
    }
  }

  method CloseStoreAfterRuntime(outcome: Outcome, store: Store)
    modifies store
    ensures store.closed <==> old(store.closed) || outcome.storeCloseSafe
  {
    if !outcome.storeCloseSafe {
      return;
    }
    store.closed := true;
  }

  /**
   The whole of it: whenever the store gets closed, the HTTP shutdown had succeeded, the server
   goroutine had ended and the runner had ended without abandoning a module.
  */
  method RunAndClose(life: Lifetime, store: Store) returns (outcome: Outcome)
    requires life.shutdown.None? && !store.closed
    modifies life, store
    ensures store.closed ==>
              life.shutdown == Some(true) && life.server.Some? && life.runner.Some? && life.runner != Some(TimedOut)
    ensures outcome.problems == [] ==>
              store.closed && life.signalled && life.server.Some? && life.server.value && life.runner == Some(Clean)
  {
    ghost var seen;
    outcome, seen := RunRuntime(life);
    CloseStoreAfterRuntime(outcome, store);
  }
}
