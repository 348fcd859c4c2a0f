/** The registry of manual searches: lazy eviction, and the cap on sessions that have not finished. */
module SearchRegistry {
  import opened Basics
  import opened SearchResults
  import opened SearchSessions
  import opened Modal

  const QUERY_MAX_LEN := 256

  datatype StartOutcome = Started(session: SearchSession) | Busy | Unavailable | InvalidQuery

  /** The registry as a value: what every session knows. */
  type Registry = map<string, Session>

  function Unfinished(r: Registry): set<string> {
    set id | id in r && !r[id].done
  }

  function Swept(r: Registry, now: int, timeout: int): Registry {
    map id | id in r && !Expired(r[id], now, timeout) :: r[id]
  }

  lemma SweptDrops(r: Registry, dropped: set<string>, now: int, timeout: int)
    requires dropped <= r.Keys
    requires forall id | id in r :: id in dropped <==> Expired(r[id], now, timeout)
    ensures Swept(r, now, timeout) == r - dropped
  {
    hide Expired;
  }

  /** What is kept is what may still be served: five minutes after the end, or after the last deadline. */
  lemma SweptKeepsIff(r: Registry, now: int, timeout: int, id: string)
    ensures id in Swept(r, now, timeout) <==>
            id in r && if r[id].done then now - r[id].finishedAt <= 300_000_000_000
                       else now - r[id].startedAt <= timeout + 60_000_000_000 + 300_000_000_000
    ensures id in Swept(r, now, timeout) ==> Swept(r, now, timeout)[id] == r[id]
  {
  }

  /** Of the sessions seen, those counted are the unfinished ones. */
  ghost predicate CountedAmong(r: Registry, seen: set<string>, counted: set<string>) {
    seen <= r.Keys && counted <= seen && forall id | id in seen :: id in counted <==> !r[id].done
  }

  lemma CountedGrows(r: Registry, seen: set<string>, counted: set<string>, id: string)
    requires CountedAmong(r, seen, counted) && id in r && id !in seen
    ensures CountedAmong(r, seen + {id}, if r[id].done then counted else counted + {id})
  {
  }

  lemma AllCounted(r: Registry, seen: set<string>, counted: set<string>)
    requires CountedAmong(r, seen, counted) && seen == r.Keys
    ensures counted == Unfinished(r)
  {
  }

  lemma DropOne<V>(m: map<string, V>, dropped: set<string>, id: string)
    ensures m - dropped - {id} == m - (dropped + {id})
  {
  }

  class Searches {
    const lib: Lib
    const hasPeers: bool
    const timeout: int
    var sessions: map<string, SearchSession>

    constructor (lib: Lib, hasPeers: bool, timeout: int)
      ensures this.hasPeers == hasPeers && this.timeout == timeout
      ensures View() == map[]
    {
      this.lib, this.hasPeers, this.timeout := lib, hasPeers, timeout;
      sessions := map[];
    }

    function View(): Registry
      reads this, sessions.Values
    {
      map id | id in sessions :: sessions[id].State()
    }

    /** Removes exactly the sessions that are no longer servable. */
    method EvictLocked(now: int)
      modifies this`sessions
      ensures View() == Swept(old(View()), now, timeout)
      ensures sessions.Values <= old(sessions.Values)
    {
      hide Expired, Swept;
      ghost var before := sessions;
      ghost var dropped: set<string>;
      sessions, dropped := DropExpired(sessions, now, timeout);
      SweptDrops(old(View()), dropped, now, timeout);
      ViewOfRest(old(View()), dropped);
      assert forall id | id in sessions :: sessions[id] == before[id];
    }

    static method DropExpired(before: map<string, SearchSession>, now: int, timeout: int)
      returns (kept: map<string, SearchSession>, ghost dropped: set<string>)
      ensures dropped <= before.Keys && kept == before - dropped
      ensures forall id | id in before :: id in dropped <==> Expired(before[id].State(), now, timeout)
    {
      hide Expired;
      kept, dropped := before, {};
      var rest := before.Keys;
      ghost var seen: set<string> := {};
      while rest != {}
        invariant seen <= before.Keys && rest == before.Keys - seen
        invariant dropped <= seen && kept == before - dropped
        invariant forall id | id in seen :: id in dropped <==> Expired(before[id].State(), now, timeout)
        decreases |rest|
      {
        var id := AnyOf(rest);
        var gone := before[id].IsExpired(now, timeout);
        if gone {
          DropOne(before, dropped, id);
          kept := kept - {id};
          dropped := dropped + {id};
        }
        rest := rest - {id};
        SeenGrows(before.Keys, seen, id);
        seen := seen + {id};
      }
      assert seen == before.Keys;
    }

    lemma ViewOfRest(before: Registry, dropped: set<string>)
      requires sessions.Keys == before.Keys - dropped
      requires forall id | id in sessions :: sessions[id].State() == before[id]
      ensures View() == before - dropped
    {
    }

    method LiveCountLocked() returns (n: nat)
      ensures n == |Unfinished(View())|
    {
      hide Unfinished;
      n := 0;
      ghost var view := View();
      var rest := sessions.Keys;
      ghost var counted: set<string> := {};
      ghost var seen: set<string> := {};
      while rest != {}
        invariant seen <= sessions.Keys && rest == sessions.Keys - seen
        invariant CountedAmong(view, seen, counted)
        invariant n == |counted|
        decreases |rest|
      {
        var id := AnyOf(rest);
        rest := rest - {id};
        CountedGrows(view, seen, counted, id);
        SeenGrows(sessions.Keys, seen, id);
        seen := seen + {id};
        if !sessions[id].done {
          counted := counted + {id};
          n := n + 1;
        }
      }
      AllCounted(view, seen, counted);
    }

    /** `query` is already trimmed; `id` is the session's random identifier. */
    method Start(query: string, id: string, now: int) returns (o: StartOutcome)
      modifies this`sessions
      ensures o.InvalidQuery? <==> query == "" || |query| > 256
      ensures o.Unavailable? <==> !o.InvalidQuery? && !hasPeers
      ensures o.InvalidQuery? || o.Unavailable? ==> View() == old(View())
      ensures o.Busy? || o.Started? ==> View() == Admitted(old(View()), id, now, timeout)
      ensures o.Busy? || o.Started? ==> (o.Busy? <==> |Unfinished(Swept(old(View()), now, timeout))| >= 8)
      ensures o.Busy? ==> View() == Swept(old(View()), now, timeout)
      ensures o.Started? ==>
        View() == Swept(old(View()), now, timeout)[id := Session(now, 0, false, false, "", 0, 0, map[], map[])]
      ensures o.Started? ==> fresh(o.session) && id in sessions && sessions[id] == o.session
    {
      if query == "" || |query| > QUERY_MAX_LEN {
        return InvalidQuery;
      }
      if !hasPeers {
        return Unavailable;
      }
      hide Swept, Unfinished;
      EvictLocked(now);
      var live := LiveCountLocked();
      if live >= MAX_SESSIONS {
        return Busy;
      }
      var session := Register(id, now);
      o := Started(session);
    }

    method Register(id: string, now: int) returns (session: SearchSession)
      modifies this`sessions
      ensures fresh(session) && sessions == old(sessions)[id := session]
      ensures View() == old(View())[id := NewSession(now)]
    {
      session := new SearchSession(lib, now);
      sessions := sessions[id := session];
      assert forall k | k in old(sessions) :: old(sessions)[k].State() == old(sessions[k].State());
    }
  }

  /** A start that passed the query checks: sweep, then admit unless the cap is reached. */
  function Admitted(r: Registry, id: string, now: int, timeout: int): Registry {
    var swept := Swept(r, now, timeout);
    if |Unfinished(swept)| >= MAX_SESSIONS then swept else swept[id := NewSession(now)]
  }

  datatype RegistryEvent =
    | StartSearch(id: string, now: int)
    | Emit(id: string, results: seq<SearchResult>)
    | End(id: string, err: string, now: int)
    | Sweep(now: int)

  ghost function RegistryStep(lib: Lib, timeout: int, r: Registry, e: RegistryEvent): Registry {
    match e
    case StartSearch(id, now) => Admitted(r, id, now, timeout)
    case Emit(id, rs) => if id in r then r[id := Accepted(lib, r[id], rs)] else r
    case End(id, err, now) => if id in r then r[id := Finished(r[id], err, now)] else r
    case Sweep(now) => Swept(r, now, timeout)
  }

  ghost function RegistryRun(lib: Lib, timeout: int, es: seq<RegistryEvent>): Registry {
    if es == [] then map[]
    else RegistryStep(lib, timeout, RegistryRun(lib, timeout, es[..|es| - 1]), es[|es| - 1])
  }

  lemma FewerUnfinished(a: Registry, b: Registry)
    requires Unfinished(a) <= Unfinished(b)
    ensures |Unfinished(a)| <= |Unfinished(b)|
  {
    var extra := Unfinished(b) - Unfinished(a);
    assert Unfinished(b) == Unfinished(a) + extra;
  }

  /**
   In every run of starts, result batches, endings and sweeps, at whatever times, the registry holds
   at most 8 sessions that have not finished.
  */
  lemma {:induction false} AtMostEightUnfinished(lib: Lib, timeout: int, es: seq<RegistryEvent>)
    ensures |Unfinished(RegistryRun(lib, timeout, es))| <= 8
  {
    if es != [] {
      var r, e := RegistryRun(lib, timeout, es[..|es| - 1]), es[|es| - 1];
      AtMostEightUnfinished(lib, timeout, es[..|es| - 1]);
      var t := RegistryStep(lib, timeout, r, e);
      match e
      case StartSearch(id, now) =>
        FewerUnfinished(Swept(r, now, timeout), r);
        if |Unfinished(Swept(r, now, timeout))| < MAX_SESSIONS {
          assert Unfinished(t) == Unfinished(Swept(r, now, timeout)) + {id};
        }
      case Emit(_, _) =>
        hide Accepted;
        AcceptedStaysUndone(lib, r, e);
        FewerUnfinished(t, r);
      case End(_, _, _) => FewerUnfinished(t, r);
      case Sweep(_) => FewerUnfinished(t, r);
    }
  }

  lemma AcceptedStaysUndone(lib: Lib, r: Registry, e: RegistryEvent)
    ensures e.Emit? && e.id in r ==> Accepted(lib, r[e.id], e.results).done == r[e.id].done
  {
    hide GroupOf, Rebuilt;
  }
}
