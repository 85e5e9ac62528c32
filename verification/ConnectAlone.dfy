/** The stages of `ConnectFlights`, run without interference, are the whole operations of
    `ConnectCache` (connect.rs). */
module ConnectAlone {
  import opened Wrappers
  import opened Cache
  import opened ConnectCache
  import CF = ConnectFlights

  /** The next id, which no flight has yet. */
  predicate Unused(w: CF.Air, id: nat) {
    w.history != [] && id == w.nextId && id !in w.flights && id !in w.apps
  }

  function Then(c: Codecs, w: CF.Air, a: CF.Step, b: CF.Step): CF.Air
    requires w.history != []
  {
    CF.Do(c, CF.Do(c, w, a), b)
  }

  /** A miss, once the agent is known: queried, and stored if the query succeeds. */
  lemma QueryAndStore(c: Codecs, w: CF.Air, id: nat, agent: AgentRow)
    requires w.history != [] && id in w.flights && w.flights[id].stage == CF.Missing
    requires w.flights[id].found.Some? && w.flights[id].found.value.agent == agent
    ensures var f := w.flights[id];
            Then(c, w, CF.Query(id), CF.Store(id)).entries
            == StoreResponse(c.connect, w.entries, CF.KeyOf(f), w.db.resolveUncached(agent, f.host), w.now)
  {
    var f := w.flights[id];
    var u := CF.QueryNext(w, id);
    assert CF.Do(c, w, CF.Query(id)) == u;
    match w.db.resolveUncached(agent, f.host)
    case Ok(r) =>
      assert u.flights[id] == f.(stage := CF.Queried(r, CF.Last(w)));
      assert CF.Do(c, u, CF.Store(id)) == CF.StoreNext(c, u, id);
    case Err(_) => assert CF.Do(c, u, CF.Store(id)) == u;
  }

  lemma NothingLeft(c: Codecs, w: CF.Air, id: nat)
    requires w.history != [] && id !in w.flights
    ensures CF.Do(c, w, CF.Read(id)) == w && CF.Do(c, w, CF.FindAgent(id)) == w
    ensures CF.Do(c, w, CF.Query(id)) == w && CF.Do(c, w, CF.Store(id)) == w
  {
  }

  /** The read of a flight that has just begun. */
  lemma ReadAlone(c: Codecs, w: CF.Air, id: nat)
    requires w.history != [] && id in w.flights && w.flights[id].stage == CF.Reading
    ensures var f, u := w.flights[id], CF.Do(c, w, CF.Read(id));
            && u.entries == AfterGet(w.entries, CF.KeyOf(f), w.now) && u.now == w.now && u.db == w.db
            && (if Cached(c.connect, w.entries, CF.KeyOf(f), w.now).Some? then id !in u.flights
                else id in u.flights && u.flights[id] == f.(stage := CF.Missing))
  {
  }

  /** `resolve`, stage by stage. */
  lemma ResolveAlone(c: Codecs, w: CF.Air, id: nat, t: string, host: string)
    requires Unused(w, id)
    ensures var begun := CF.Do(c, w, CF.BeginResolve(t, host));
            Then(c, CF.Do(c, begun, CF.Read(id)), CF.Query(id), CF.Store(id)).entries
            == ResolveSpec(c.connect, w.db, w.entries, t, host, w.now).1
  {
    var begun := CF.Do(c, w, CF.BeginResolve(t, host));
    match w.db.findAgent(t)
    case Err(_) => NothingLeft(c, w, id);
    case Ok(agent) =>
      ReadAlone(c, begun, id);
      var read := CF.Do(c, begun, CF.Read(id));
      if id in read.flights {
        QueryAndStore(c, read, id, agent);
      } else {
        NothingLeft(c, read, id);
      }
  }

  /** The lookup of the agent after a miss. */
  lemma FindAlone(c: Codecs, w: CF.Air, id: nat)
    requires w.history != [] && id in w.flights && w.flights[id].stage == CF.Missing && w.flights[id].found.None?
    ensures var f, u := w.flights[id], CF.Do(c, w, CF.FindAgent(id));
            && u.entries == w.entries && u.now == w.now && u.db == w.db
            && match w.db.findAgent(f.agentToken)
               case Ok(agent) => id in u.flights && u.flights[id] == f.(found := Some(CF.Found(agent, CF.Last(w))))
               case Err(_) => id !in u.flights
  {
  }

  /** `resolve_from_cache`, stage by stage. */
  lemma ResolveFromCacheAlone(c: Codecs, w: CF.Air, id: nat, o: string, p: string, t: string, host: string)
    requires Unused(w, id)
    ensures var begun := CF.Do(c, w, CF.BeginFromCache(o, p, t, host));
            Then(c, Then(c, begun, CF.Read(id), CF.FindAgent(id)), CF.Query(id), CF.Store(id)).entries
            == LookAside(c.connect, w.db, w.entries, ConnectKey(o, p, t, host), t, host, w.now).1
  {
    var begun := CF.Do(c, w, CF.BeginFromCache(o, p, t, host));
    ReadAlone(c, begun, id);
    var read := CF.Do(c, begun, CF.Read(id));
    if id !in read.flights {
      NothingLeft(c, read, id);
    } else {
      FindAlone(c, read, id);
      var found := CF.Do(c, read, CF.FindAgent(id));
      match w.db.findAgent(t)
      case Ok(agent) => QueryAndStore(c, found, id, agent);
      case Err(_) => NothingLeft(c, found, id);
    }
  }

  /** An app injection, stage by stage. */
  lemma AppAlone(c: Codecs, w: CF.Air, id: nat, o: string, p: string, connectionId: string, host: string,
                 policy: Option<string>, built: Option<Built>)
    requires Unused(w, id)
    ensures var begun := CF.Do(c, w, CF.BeginApp(o, p, connectionId, host, policy));
            Then(c, begun, CF.Build(id, built), CF.StoreApp(id)).entries
            == AppSpec(c.app, w.entries, AppKey(o, p, connectionId, host, policy), built, w.now).1
  {
    var key := AppKey(o, p, connectionId, host, policy);
    var begun := CF.BeginAppNext(c, w, key);
    assert CF.Do(c, w, CF.BeginApp(o, p, connectionId, host, policy)) == begun;
    if id in begun.apps {
      BuildAndStore(c, begun, id, built);
    } else {
      assert CF.Do(c, begun, CF.Build(id, built)) == begun && CF.Do(c, begun, CF.StoreApp(id)) == begun;
    }
  }

  lemma BuildAndStore(c: Codecs, w: CF.Air, id: nat, built: Option<Built>)
    requires w.history != [] && id in w.apps && w.apps[id].built.None?
    ensures Then(c, w, CF.Build(id, built), CF.StoreApp(id)).entries
         == if built.Some? then StoreBuilt(c.app, w.entries, w.apps[id].key, built.value, w.now) else w.entries
  {
    var u := CF.Do(c, w, CF.Build(id, built));
    if built.Some? {
      assert u.apps[id] == w.apps[id].(built := built);
      assert CF.Do(c, u, CF.StoreApp(id)) == CF.StoreAppNext(c, u, id);
    } else {
      assert CF.Do(c, u, CF.StoreApp(id)) == u;
    }
  }
}
