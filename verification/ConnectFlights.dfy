/** Resolutions that overlap (connect.rs): looking up the agent, reading the cache, querying, and
    storing are steps of their own, and anything can happen between them, an invalidation
    (gateway.rs) included. */
module ConnectFlights {
  import opened Wrappers
  import opened Cache
  import opened ConnectCache

  // ── State ─────────────────────────────────────────────────────────────

  /** An agent, and the snapshot it was found in. */
  datatype Found = Found(agent: AgentRow, at: nat)

  datatype Stage =
    | Reading
    | Missing
    | Queried(response: ConnectResponse, at: nat)

  /** A resolution under way; `since` is the snapshot it began in. */
  datatype Flight = Flight(
    orgId: string, projectId: string, agentToken: string, host: string, since: nat,
    found: Option<Found>, stage: Stage)

  /** An app injection being built for a key. */
  datatype AppFlight = AppFlight(key: string, since: nat, built: Option<Built>)

  /** The resolution that stored a response: which one, since when, stored when, and on what. */
  datatype Origin = Origin(
    id: nat, since: nat, storedAt: nat, agentToken: string, host: string,
    found: Found, response: ConnectResponse, queriedAt: nat)

  datatype AppOrigin = AppOrigin(id: nat, since: nat, storedAt: nat, built: Built)

  /** `history` ends with the present database. */
  datatype Air = Air(
    now: nat, db: Db, history: seq<Snapshot>, entries: Entries, nextId: nat,
    flights: map<nat, Flight>, apps: map<nat, AppFlight>,
    origins: map<string, Origin>, appOrigins: map<string, AppOrigin>)

  function Grounded(now: nat, db: Db): Air {
    Air(now, db, [Snapshot(now, db)], map[], 0, map[], map[], map[], map[])
  }

  // ── Steps ─────────────────────────────────────────────────────────────

  datatype Step =
    | Advance(now: nat, db: Db)
    | BeginResolve(agentToken: string, host: string)
    | BeginFromCache(orgId: string, projectId: string, agentToken: string, host: string)
    | Read(id: nat)
    | FindAgent(id: nat)
    | Query(id: nat)
    | Store(id: nat)
    | BeginApp(orgId: string, projectId: string, connectionId: string, host: string, sessionPolicy: Option<string>)
    | Build(id: nat, built: Option<Built>)
    | StoreApp(id: nat)
    | DropResponses(orgId: string, projectId: string)
    | DropApps(orgId: string, projectId: string)
    | Count(key: string, ttl: nat)

  function Last(w: Air): nat
    requires w.history != []
  {
    |w.history| - 1
  }

  function KeyOf(f: Flight): string {
    ConnectKey(f.orgId, f.projectId, f.agentToken, f.host)
  }

  function Begin(w: Air, f: Flight): Air {
    w.(flights := w.flights[w.nextId := f], nextId := w.nextId + 1)
  }

  /** A flight ends: it has answered, or failed. */
  function Land(w: Air, id: nat): Air {
    w.(flights := w.flights - {id})
  }

  function SetStage(w: Air, id: nat, stage: Stage): Air
    requires id in w.flights
  {
    w.(flights := w.flights[id := w.flights[id].(stage := stage)])
  }

  function ReadNext(c: Codecs, w: Air, id: nat): Air
    requires id in w.flights
  {
    var key := KeyOf(w.flights[id]);
    var v := w.(entries := AfterGet(w.entries, key, w.now));
    if Cached(c.connect, w.entries, key, w.now).Some? then Land(v, id) else SetStage(v, id, Missing)
  }

  function FindNext(w: Air, id: nat): Air
    requires w.history != [] && id in w.flights
  {
    var f := w.flights[id];
    match w.db.findAgent(f.agentToken)
    case Ok(agent) => w.(flights := w.flights[id := f.(found := Some(Found(agent, Last(w))))])
    case Err(_) => Land(w, id)
  }

  function QueryNext(w: Air, id: nat): Air
    requires w.history != [] && id in w.flights && w.flights[id].found.Some?
  {
    match w.db.resolveUncached(w.flights[id].found.value.agent, w.flights[id].host)
    case Ok(response) => SetStage(w, id, Queried(response, Last(w)))
    case Err(_) => Land(w, id)
  }

  function OriginOf(w: Air, id: nat): Origin
    requires id in w.flights && w.flights[id].found.Some? && w.flights[id].stage.Queried?
  {
    var f := w.flights[id];
    Origin(id, f.since, w.now, f.agentToken, f.host, f.found.value, f.stage.response, f.stage.at)
  }

  function StoreNext(c: Codecs, w: Air, id: nat): Air
    requires id in w.flights && w.flights[id].found.Some? && w.flights[id].stage.Queried?
  {
    var f := w.flights[id];
    var key := KeyOf(f);
    Land(w.(entries := AfterSet(w.entries, key, c.connect.encode(f.stage.response), CACHE_TTL_SECS, w.now),
            origins := w.origins[key := OriginOf(w, id)]), id)
  }

  function BeginAppNext(c: Codecs, w: Air, key: string): Air
    requires w.history != []
  {
    var v := w.(entries := AfterGet(w.entries, key, w.now));
    if Cached(c.app, w.entries, key, w.now).Some? then v
    else v.(apps := w.apps[w.nextId := AppFlight(key, Last(w), None)], nextId := w.nextId + 1)
  }

  function StoreAppNext(c: Codecs, w: Air, id: nat): Air
    requires id in w.apps && w.apps[id].built.Some?
  {
    var f := w.apps[id];
    var v := w.(apps := w.apps - {id});
    if AppTtl(f.built.value.expiresAt, w.now) > 0 then
      v.(entries := StoreBuilt(c.app, w.entries, f.key, f.built.value, w.now),
         appOrigins := w.appOrigins[f.key := AppOrigin(id, f.since, w.now, f.built.value)])
    else v
  }

  /** The steps of a resolution; one whose turn it is not changes nothing. */
  function DoFlight(c: Codecs, w: Air, step: Step): Air
    requires w.history != []
  {
    match step
    case BeginResolve(t, host) =>
      (match w.db.findAgent(t)
       case Ok(agent) =>
         Begin(w, Flight(agent.organizationId, agent.projectId, t, host, Last(w), Some(Found(agent, Last(w))), Reading))
       case Err(_) => w)
    case BeginFromCache(o, p, t, host) => Begin(w, Flight(o, p, t, host, Last(w), None, Reading))
    case Read(id) => if id in w.flights && w.flights[id].stage.Reading? then ReadNext(c, w, id) else w
    case FindAgent(id) =>
      if id in w.flights && w.flights[id].stage.Missing? && w.flights[id].found.None? then FindNext(w, id) else w
    case Query(id) =>
      if id in w.flights && w.flights[id].stage.Missing? && w.flights[id].found.Some? then QueryNext(w, id) else w
    case Store(id) =>
      if id in w.flights && w.flights[id].stage.Queried? && w.flights[id].found.Some? then StoreNext(c, w, id) else w
    case _ => w
  }

  /** The steps of an app injection. */
  function DoApp(c: Codecs, w: Air, step: Step): Air
    requires w.history != []
  {
    match step
    case BeginApp(o, p, connection, host, policy) => BeginAppNext(c, w, AppKey(o, p, connection, host, policy))
    case Build(id, built) =>
      if id in w.apps && w.apps[id].built.None? then
        (if built.Some? then w.(apps := w.apps[id := w.apps[id].(built := built)]) else w.(apps := w.apps - {id}))
      else w
    case StoreApp(id) => if id in w.apps && w.apps[id].built.Some? then StoreAppNext(c, w, id) else w
    case _ => w
  }

  /** What else happens to the cache, and around it. */
  function DoOther(w: Air, step: Step): Air {
    match step
    case Advance(now, db) => w.(now := now, db := db, history := w.history + [Snapshot(now, db)])
    case DropResponses(o, p) => w.(entries := AfterDelByPrefix(w.entries, "connect:" + o + ":" + p + ":"))
    case DropApps(o, p) => w.(entries := AfterDelByPrefix(w.entries, "app_injection:" + o + ":" + p + ":"))
    case Count(key, ttl) => w.(entries := w.entries[key := Bumped(w.entries, key, ttl, w.now)])
    case _ => w
  }

  predicate FlightStep(step: Step) {
    step.BeginResolve? || step.BeginFromCache? || step.Read? || step.FindAgent? || step.Query? || step.Store?
  }

  predicate AppStep(step: Step) {
    step.BeginApp? || step.Build? || step.StoreApp?
  }

  function Do(c: Codecs, w: Air, step: Step): Air
    requires w.history != []
    ensures Do(c, w, step).history != []
  {
    if FlightStep(step) then DoFlight(c, w, step)
    else if AppStep(step) then DoApp(c, w, step)
    else DoOther(w, step)
  }

  ghost predicate Enabled(w: Air, step: Step) {
    match step
    case Advance(now, db) => w.now <= now && ColonFreeIds(db)
    case BeginResolve(t, _) => ':' !in t
    case BeginFromCache(o, p, t, _) => ':' !in o && ':' !in p && ':' !in t
    case BeginApp(o, p, connection, _, _) => ':' !in o && ':' !in p && ':' !in connection
    case Count(key, _) => "rate:" <= key
    case _ => true
  }

  ghost predicate Permitted(c: Codecs, w: Air, steps: seq<Step>)
    requires w.history != []
    decreases |steps|
  {
    steps == [] || (Enabled(w, steps[0]) && Permitted(c, Do(c, w, steps[0]), steps[1..]))
  }

  function Run(c: Codecs, w: Air, steps: seq<Step>): Air
    requires w.history != []
    ensures Run(c, w, steps).history != []
    decreases |steps|
  {
    if steps == [] then w else Run(c, Do(c, w, steps[0]), steps[1..])
  }

  // ── Invariant ─────────────────────────────────────────────────────────

  /** The answer rests on an agent found and a resolution made after `since`, each in a database
      of its moment. */
  predicate Resolved(history: seq<Snapshot>, since: nat, t: string, host: string, found: Found, at: nat,
                     r: ConnectResponse) {
    && since <= found.at <= at < |history|
    && history[found.at].db.findAgent(t) == Ok(found.agent)
    && history[at].db.resolveUncached(found.agent, host) == Ok(r)
  }

  predicate FlightOk(history: seq<Snapshot>, f: Flight) {
    && f.since < |history|
    && ':' !in f.orgId && ':' !in f.projectId && ':' !in f.agentToken
    && (f.found.Some? ==>
          && f.since <= f.found.value.at < |history|
          && history[f.found.value.at].db.findAgent(f.agentToken) == Ok(f.found.value.agent))
    && (f.stage.Queried? ==>
          && f.found.Some?
          && Resolved(history, f.since, f.agentToken, f.host, f.found.value, f.stage.at, f.stage.response))
  }

  ghost predicate StoredOk(c: Codecs, now: nat, history: seq<Snapshot>, key: string, entry: Entry, g: Origin) {
    && entry == Entry(c.connect.encode(g.response), g.storedAt + CACHE_TTL_SECS) && g.storedAt <= now
    && Resolved(history, g.since, g.agentToken, g.host, g.found, g.queriedAt, g.response)
    && exists o, p :: ':' !in o && ':' !in p && ':' !in g.agentToken && key == ConnectKey(o, p, g.agentToken, g.host)
  }

  predicate AppStoredOk(c: Codecs, now: nat, entry: Entry, g: AppOrigin) {
    && g.storedAt <= now && entry.data == c.app.encode(g.built.injection)
    && entry.expiresAt <= g.storedAt + CACHE_TTL_SECS
    && (g.built.expiresAt.Some? ==> entry.expiresAt <= g.built.expiresAt.value)
  }

  ghost predicate EntryOk(c: Codecs, w: Air, key: string)
    requires key in w.entries
  {
    && ("connect:" <= key ==>
          key in w.origins && StoredOk(c, w.now, w.history, key, w.entries[key], w.origins[key]))
    && ("app_injection:" <= key ==> key in w.appOrigins && AppStoredOk(c, w.now, w.entries[key], w.appOrigins[key]))
  }

  ghost predicate Sound(c: Codecs, w: Air) {
    && ColonFreeIds(w.db)
    && w.history != [] && w.history[|w.history| - 1] == Snapshot(w.now, w.db)
    && FlightsOk(w.history, w.flights, w.nextId) && AppsOk(w.apps, w.nextId) && EntriesOk(c, w)
  }

  predicate FlightsOk(history: seq<Snapshot>, flights: map<nat, Flight>, nextId: nat) {
    forall id | id in flights :: id < nextId && FlightOk(history, flights[id])
  }

  predicate AppsOk(apps: map<nat, AppFlight>, nextId: nat) {
    forall id | id in apps :: id < nextId && "app_injection:" <= apps[id].key
  }

  ghost predicate EntriesOk(c: Codecs, w: Air) {
    forall key | key in w.entries :: EntryOk(c, w, key)
  }

  /** All that is filed for project `p` of organization `o` was stored by a resolution that began
      at snapshot `from` or later, or is one of `prior`; and so will be all that is stored by the
      flights now under way. */
  ghost predicate Recent(w: Air, o: string, p: string, from: nat, prior: set<nat>) {
    && (forall id | id in w.flights :: id in prior || from <= w.flights[id].since)
    && (forall key | key in w.entries && "connect:" + o + ":" + p + ":" <= key ::
          key in w.origins && (w.origins[key].id in prior || from <= w.origins[key].since))
  }

  ghost predicate AppsRecent(w: Air, o: string, p: string, from: nat, prior: set<nat>) {
    && (forall id | id in w.apps :: id in prior || from <= w.apps[id].since)
    && (forall key | key in w.entries && "app_injection:" + o + ":" + p + ":" <= key ::
          key in w.appOrigins && (w.appOrigins[key].id in prior || from <= w.appOrigins[key].since))
  }

  lemma PrefixKinds(key: string, o: string, p: string)
    ensures "connect:" <= key ==> key[0] == 'c'
    ensures "app_injection:" <= key ==> key[0] == 'a'
    ensures "rate:" <= key ==> key[0] == 'r'
    ensures "connect:" + o + ":" + p + ":" <= key ==> "connect:" <= key
    ensures "app_injection:" + o + ":" + p + ":" <= key ==> "app_injection:" <= key
  {
    var m, n := |"connect:"|, |"app_injection:"|;
    if "connect:" + o + ":" + p + ":" <= key {
      assert key[..m] == ("connect:" + o + ":" + p + ":")[..m] == "connect:";
    }
    if "app_injection:" + o + ":" + p + ":" <= key {
      assert key[..n] == ("app_injection:" + o + ":" + p + ":")[..n] == "app_injection:";
    }
  }

  /** An entry kept by a step keeps its explanation. */
  lemma EntryKept(c: Codecs, w: Air, v: Air, key: string)
    requires key in w.entries && EntryOk(c, w, key) && w.now <= v.now && w.history <= v.history
    requires key in v.entries && v.entries[key] == w.entries[key]
    requires "connect:" <= key && key in w.origins ==> key in v.origins && v.origins[key] == w.origins[key]
    requires "app_injection:" <= key && key in w.appOrigins ==>
               key in v.appOrigins && v.appOrigins[key] == w.appOrigins[key]
    ensures EntryOk(c, v, key)
  {
    if "connect:" <= key {
      var g := w.origins[key];
      assert v.history[g.found.at] == w.history[g.found.at] && v.history[g.queriedAt] == w.history[g.queriedAt];
    }
  }

  /** Nothing is stored: entries are kept, dropped or counters. */
  ghost predicate NothingStored(w: Air, v: Air) {
    && w.now <= v.now && w.history <= v.history
    && v.origins == w.origins && v.appOrigins == w.appOrigins
    && (forall key | key in v.entries :: (key in w.entries && v.entries[key] == w.entries[key]) || "rate:" <= key)
  }

  lemma NothingStoredKeepsEntries(c: Codecs, w: Air, v: Air)
    requires EntriesOk(c, w) && NothingStored(w, v)
    ensures EntriesOk(c, v)
  {
    forall key | key in v.entries ensures EntryOk(c, v, key) {
      PrefixKinds(key, "", "");
      if key in w.entries && v.entries[key] == w.entries[key] {
        EntryKept(c, w, v, key);
      }
    }
  }

  /** Flights only move on, begin now, or land. */
  predicate FlightsMove(w: Air, v: Air)
    requires w.history != []
  {
    forall id | id in v.flights ::
      v.flights[id].since == Last(w) || (id in w.flights && v.flights[id].since == w.flights[id].since)
  }

  predicate AppsMove(w: Air, v: Air)
    requires w.history != []
  {
    forall id | id in v.apps ::
      v.apps[id].since == Last(w) || (id in w.apps && v.apps[id].since == w.apps[id].since)
  }

  lemma ReadStores(c: Codecs, w: Air, id: nat)
    requires id in w.flights
    ensures NothingStored(w, ReadNext(c, w, id))
  {
  }

  lemma SameEntriesStored(w: Air, v: Air)
    requires v.entries == w.entries && v.now == w.now && v.history == w.history
    requires v.origins == w.origins && v.appOrigins == w.appOrigins
    ensures NothingStored(w, v)
  {
  }

  lemma FlightStepStores(c: Codecs, w: Air, step: Step)
    requires w.history != [] && FlightStep(step) && !step.Store?
    ensures NothingStored(w, DoFlight(c, w, step))
  {
    if step.Read? && step.id in w.flights && w.flights[step.id].stage.Reading? {
      ReadStores(c, w, step.id);
    } else {
      SameEntriesStored(w, DoFlight(c, w, step));
    }
  }

  /** At most the flight `id` changes, and the rest of the state stays. */
  ghost predicate MovesFlight(w: Air, v: Air, id: nat) {
    && (forall o | o in v.flights && o != id :: o in w.flights && v.flights[o] == w.flights[o])
    && v.apps == w.apps && v.nextId >= w.nextId && v.db == w.db && v.now == w.now
    && v.history == w.history && v.appOrigins == w.appOrigins
  }

  /** Where a flight gets to in one step. */
  predicate Onward(history: seq<Snapshot>, f: Flight, g: Flight) {
    g.since == f.since && (FlightOk(history, f) ==> FlightOk(history, g))
  }

  lemma ReadMoves(c: Codecs, w: Air, id: nat)
    requires w.history != [] && id in w.flights && w.flights[id].stage.Reading?
    ensures var v := ReadNext(c, w, id);
            MovesFlight(w, v, id) && (id in v.flights ==> Onward(w.history, w.flights[id], v.flights[id]))
  {
  }

  lemma FindMoves(w: Air, id: nat)
    requires w.history != [] && w.history[|w.history| - 1].db == w.db && id in w.flights
    requires w.flights[id].stage.Missing?
    ensures var v := FindNext(w, id);
            MovesFlight(w, v, id) && (id in v.flights ==> Onward(w.history, w.flights[id], v.flights[id]))
  {
  }

  lemma QueryMoves(w: Air, id: nat)
    requires w.history != [] && w.history[|w.history| - 1].db == w.db && id in w.flights
    requires w.flights[id].found.Some?
    ensures var v := QueryNext(w, id);
            MovesFlight(w, v, id) && (id in v.flights ==> Onward(w.history, w.flights[id], v.flights[id]))
  {
  }

  lemma StoreMoves(c: Codecs, w: Air, id: nat)
    requires id in w.flights && w.flights[id].found.Some? && w.flights[id].stage.Queried?
    ensures var v := StoreNext(c, w, id);
            MovesFlight(w, v, id) && id !in v.flights
  {
  }

  lemma BeginMoves(c: Codecs, w: Air, step: Step)
    requires w.history != [] && w.history[|w.history| - 1].db == w.db && (step.BeginResolve? || step.BeginFromCache?)
    requires ColonFreeIds(w.db) && Enabled(w, step)
    ensures var v := DoFlight(c, w, step);
            && MovesFlight(w, v, w.nextId)
            && (v == w || (v.nextId == w.nextId + 1 && w.nextId in v.flights
                           && v.flights[w.nextId].since == Last(w) && FlightOk(w.history, v.flights[w.nextId])))
  {
  }

  function FlightMoved(w: Air, step: Step): nat
    requires FlightStep(step)
  {
    if step.BeginResolve? || step.BeginFromCache? then w.nextId else step.id
  }

  lemma FlightStepMoves(c: Codecs, w: Air, step: Step)
    requires Sound(c, w) && Enabled(w, step) && FlightStep(step)
    ensures var v, id := DoFlight(c, w, step), FlightMoved(w, step);
            && MovesFlight(w, v, id) && FlightsMove(w, v) && FlightsOk(v.history, v.flights, v.nextId)
  {
    if step.BeginResolve? || step.BeginFromCache? {
      BeginMoves(c, w, step);
    } else if step.id in w.flights {
      OnwardMoves(c, w, step);
    }
  }

  lemma OnwardMoves(c: Codecs, w: Air, step: Step)
    requires w.history != [] && w.history[|w.history| - 1].db == w.db
    requires step.Read? || step.FindAgent? || step.Query? || step.Store?
    requires step.id in w.flights
    ensures var v := DoFlight(c, w, step);
            MovesFlight(w, v, step.id)
            && (step.id in v.flights ==> Onward(w.history, w.flights[step.id], v.flights[step.id]))
  {
    var f := w.flights[step.id];
    if step.Read? && f.stage.Reading? {
      ReadMoves(c, w, step.id);
    } else if step.FindAgent? && f.stage.Missing? && f.found.None? {
      FindMoves(w, step.id);
    } else if step.Query? && f.stage.Missing? && f.found.Some? {
      QueryMoves(w, step.id);
    } else if step.Store? && f.stage.Queried? && f.found.Some? {
      StoreMoves(c, w, step.id);
    }
  }

  lemma StoreKeepsEntries(c: Codecs, w: Air, id: nat)
    requires Sound(c, w) && id in w.flights && w.flights[id].stage.Queried?
    ensures EntriesOk(c, DoFlight(c, w, Store(id)))
  {
    var f, v := w.flights[id], DoFlight(c, w, Store(id));
    assert FlightOk(w.history, f);
    forall key | key in v.entries ensures EntryOk(c, v, key) {
      PrefixKinds(key, "", "");
      if key == KeyOf(f) {
        assert key[0] == 'c' && key == ConnectKey(f.orgId, f.projectId, f.agentToken, f.host);
      } else {
        EntryKept(c, w, v, key);
      }
    }
  }

  lemma FlightStepKeepsSound(c: Codecs, w: Air, step: Step)
    requires Sound(c, w) && Enabled(w, step) && FlightStep(step)
    ensures Sound(c, DoFlight(c, w, step))
  {
    FlightStepMoves(c, w, step);
    if !step.Store? {
      FlightStepStores(c, w, step);
      NothingStoredKeepsEntries(c, w, DoFlight(c, w, step));
    } else if step.id in w.flights && w.flights[step.id].stage.Queried? {
      StoreKeepsEntries(c, w, step.id);
    } else {
      assert DoFlight(c, w, step) == w;
    }
  }

  /** An app step leaves the resolutions alone. */
  ghost predicate MovesApps(w: Air, v: Air)
    requires w.history != []
  {
    AppsMove(w, v) && v.flights == w.flights && v.nextId >= w.nextId && v.db == w.db && v.now == w.now
    && v.history == w.history && v.origins == w.origins
  }

  lemma BeginAppMoves(c: Codecs, w: Air, key: string)
    requires w.history != []
    ensures MovesApps(w, BeginAppNext(c, w, key)) && NothingStored(w, BeginAppNext(c, w, key))
  {
  }

  lemma BuildMoves(c: Codecs, w: Air, step: Step)
    requires w.history != [] && step.Build?
    ensures MovesApps(w, DoApp(c, w, step)) && NothingStored(w, DoApp(c, w, step))
  {
  }

  lemma StoreAppMoves(c: Codecs, w: Air, id: nat)
    requires w.history != [] && id in w.apps && w.apps[id].built.Some?
    ensures MovesApps(w, StoreAppNext(c, w, id))
  {
  }

  lemma AppStepMoves(c: Codecs, w: Air, step: Step)
    requires w.history != [] && AppStep(step)
    ensures MovesApps(w, DoApp(c, w, step))
    ensures !step.StoreApp? ==> NothingStored(w, DoApp(c, w, step))
  {
    if step.BeginApp? {
      BeginAppMoves(c, w, AppKey(step.orgId, step.projectId, step.connectionId, step.host, step.sessionPolicy));
    } else if step.Build? {
      BuildMoves(c, w, step);
    } else if step.id in w.apps && w.apps[step.id].built.Some? {
      StoreAppMoves(c, w, step.id);
    }
  }

  lemma AppStepKeepsApps(c: Codecs, w: Air, step: Step)
    requires w.history != [] && AppsOk(w.apps, w.nextId) && AppStep(step)
    ensures AppsOk(DoApp(c, w, step).apps, DoApp(c, w, step).nextId)
  {
    if step.BeginApp? {
      AppKeyParts(step.orgId, step.projectId, step.connectionId, step.host, step.sessionPolicy);
    }
  }

  lemma StoreAppKeepsEntries(c: Codecs, w: Air, id: nat)
    requires Sound(c, w) && id in w.apps && w.apps[id].built.Some?
    ensures EntriesOk(c, DoApp(c, w, StoreApp(id)))
  {
    var f, v := w.apps[id], DoApp(c, w, StoreApp(id));
    PrefixKinds(f.key, "", "");
    if AppTtl(f.built.value.expiresAt, w.now) > 0 {
      assert AppStoredOk(c, v.now, v.entries[f.key], v.appOrigins[f.key]);
    }
    forall key | key in v.entries ensures EntryOk(c, v, key) {
      if key != f.key || AppTtl(f.built.value.expiresAt, w.now) == 0 {
        EntryKept(c, w, v, key);
      }
    }
  }

  lemma AppStepKeepsSound(c: Codecs, w: Air, step: Step)
    requires Sound(c, w) && Enabled(w, step) && AppStep(step)
    ensures Sound(c, DoApp(c, w, step))
  {
    var v := DoApp(c, w, step);
    AppStepMoves(c, w, step);
    AppStepKeepsApps(c, w, step);
    if !step.StoreApp? {
      NothingStoredKeepsEntries(c, w, v);
    } else if step.id in w.apps && w.apps[step.id].built.Some? {
      StoreAppKeepsEntries(c, w, step.id);
    } else {
      assert v == w;
    }
  }

  lemma OtherStepKeepsSound(c: Codecs, w: Air, step: Step)
    requires Sound(c, w) && Enabled(w, step) && !FlightStep(step) && !AppStep(step)
    ensures Sound(c, DoOther(w, step)) && NothingStored(w, DoOther(w, step))
  {
    var v := DoOther(w, step);
    forall id | id in v.flights ensures FlightOk(v.history, v.flights[id]) {
      assert FlightOk(w.history, w.flights[id]);
    }
    NothingStoredKeepsEntries(c, w, v);
  }

  lemma StepKeepsSound(c: Codecs, w: Air, step: Step)
    requires Sound(c, w) && Enabled(w, step)
    ensures Sound(c, Do(c, w, step)) && w.history <= Do(c, w, step).history
  {
    if FlightStep(step) {
      FlightStepKeepsSound(c, w, step);
      FlightStepMoves(c, w, step);
    } else if AppStep(step) {
      AppStepKeepsSound(c, w, step);
      AppStepMoves(c, w, step);
    } else {
      OtherStepKeepsSound(c, w, step);
    }
  }

  lemma {:induction false} RunKeepsSound(c: Codecs, w: Air, steps: seq<Step>)
    requires Sound(c, w) && Permitted(c, w, steps)
    ensures Sound(c, Run(c, w, steps)) && w.history <= Run(c, w, steps).history
    decreases |steps|
  {
    if steps != [] {
      StepKeepsSound(c, w, steps[0]);
      RunKeepsSound(c, Do(c, w, steps[0]), steps[1..]);
    }
  }

  ghost predicate Reachable(c: Codecs, w: Air) {
    exists now: nat, db, steps ::
      ColonFreeIds(db) && Permitted(c, Grounded(now, db), steps) && w == Run(c, Grounded(now, db), steps)
  }

  lemma ReachableSound(c: Codecs, w: Air)
    requires Reachable(c, w)
    ensures Sound(c, w)
  {
    var now: nat, db, steps :|
      ColonFreeIds(db) && Permitted(c, Grounded(now, db), steps) && w == Run(c, Grounded(now, db), steps);
    RunKeepsSound(c, Grounded(now, db), steps);
  }

  // ── After an invalidation ─────────────────────────────────────────────

  lemma NothingStoredKeepsRecent(w: Air, v: Air, o: string, p: string, from: nat, prior: set<nat>)
    requires w.history != [] && from < |w.history| && NothingStored(w, v)
    ensures Recent(w, o, p, from, prior) && FlightsMove(w, v) ==> Recent(v, o, p, from, prior)
    ensures AppsRecent(w, o, p, from, prior) && AppsMove(w, v) ==> AppsRecent(v, o, p, from, prior)
  {
    forall key | key in v.entries
      ensures "connect:" + o + ":" + p + ":" <= key ==> key in w.entries
      ensures "app_injection:" + o + ":" + p + ":" <= key ==> key in w.entries
    {
      PrefixKinds(key, o, p);
    }
  }

  lemma StoreKeepsRecent(c: Codecs, w: Air, id: nat, o: string, p: string, from: nat, prior: set<nat>)
    requires w.history != [] && from < |w.history| && id in w.flights
    requires w.flights[id].stage.Queried? && w.flights[id].found.Some?
    ensures Recent(w, o, p, from, prior) ==> Recent(DoFlight(c, w, Store(id)), o, p, from, prior)
    ensures AppsRecent(w, o, p, from, prior) ==> AppsRecent(DoFlight(c, w, Store(id)), o, p, from, prior)
  {
    var key := KeyOf(w.flights[id]);
    assert key[0] == 'c';
    PrefixKinds(key, o, p);
  }

  lemma StoreAppKeepsRecent(c: Codecs, w: Air, id: nat, o: string, p: string, from: nat, prior: set<nat>)
    requires w.history != [] && from < |w.history| && id in w.apps
    requires w.apps[id].built.Some? && "app_injection:" <= w.apps[id].key
    ensures Recent(w, o, p, from, prior) ==> Recent(DoApp(c, w, StoreApp(id)), o, p, from, prior)
    ensures AppsRecent(w, o, p, from, prior) ==> AppsRecent(DoApp(c, w, StoreApp(id)), o, p, from, prior)
  {
    var f, v := w.apps[id], StoreAppNext(c, w, id);
    PrefixKinds(f.key, o, p);
    assert DoApp(c, w, StoreApp(id)) == v;
    StoreAppMoves(c, w, id);
    forall key | key in v.entries
      ensures key != f.key ==> key in w.entries && (key in w.appOrigins ==> v.appOrigins[key] == w.appOrigins[key])
      ensures "connect:" + o + ":" + p + ":" <= key ==> key != f.key
    {
      PrefixKinds(key, o, p);
    }
  }

  lemma StepKeepsRecent(c: Codecs, w: Air, step: Step, o: string, p: string, from: nat, prior: set<nat>)
    requires Sound(c, w) && Enabled(w, step) && from < |w.history|
    ensures Recent(w, o, p, from, prior) ==> Recent(Do(c, w, step), o, p, from, prior)
    ensures AppsRecent(w, o, p, from, prior) ==> AppsRecent(Do(c, w, step), o, p, from, prior)
  {
    var v := Do(c, w, step);
    if FlightStep(step) {
      FlightStepMoves(c, w, step);
      if !step.Store? {
        FlightStepStores(c, w, step);
        NothingStoredKeepsRecent(w, v, o, p, from, prior);
      } else if step.id in w.flights && w.flights[step.id].stage.Queried? && w.flights[step.id].found.Some? {
        StoreKeepsRecent(c, w, step.id, o, p, from, prior);
      } else {
        assert v == w;
      }
    } else if AppStep(step) {
      AppStepMoves(c, w, step);
      if !step.StoreApp? {
        NothingStoredKeepsRecent(w, v, o, p, from, prior);
      } else if step.id in w.apps && w.apps[step.id].built.Some? {
        StoreAppKeepsRecent(c, w, step.id, o, p, from, prior);
      } else {
        assert v == w;
      }
    } else {
      OtherStepKeepsSound(c, w, step);
      NothingStoredKeepsRecent(w, v, o, p, from, prior);
    }
  }

  lemma {:induction false} RunKeepsRecent(c: Codecs, w: Air, steps: seq<Step>, o: string, p: string, from: nat,
                                          prior: set<nat>)
    requires Sound(c, w) && Permitted(c, w, steps) && from < |w.history|
    ensures Recent(w, o, p, from, prior) ==> Recent(Run(c, w, steps), o, p, from, prior)
    ensures AppsRecent(w, o, p, from, prior) ==> AppsRecent(Run(c, w, steps), o, p, from, prior)
    decreases |steps|
  {
    if steps != [] {
      StepKeepsSound(c, w, steps[0]);
      StepKeepsRecent(c, w, steps[0], o, p, from, prior);
      RunKeepsRecent(c, Do(c, w, steps[0]), steps[1..], o, p, from, prior);
    }
  }

  /** `g` explains an answer `r` for `t` and `host` that the cache gives in `v`: stored in the last
      60 seconds, and found and queried after the resolution began. */
  predicate Explains(v: Air, t: string, host: string, r: ConnectResponse, g: Origin) {
    && g.agentToken == t && g.host == host && g.response == r
    && g.storedAt <= v.now < g.storedAt + CACHE_TTL_SECS
    && Resolved(v.history, g.since, t, host, g.found, g.queriedAt, r)
  }

  lemma KeyUnderProject(o: string, p: string, t: string, host: string)
    ensures "connect:" + o + ":" + p + ":" <= ConnectKey(o, p, t, host)
  {
    assert ConnectKey(o, p, t, host) == "connect:" + o + ":" + p + ":" + (t + ":" + host);
  }

  /** In every reachable state an answer from the cache has such an explanation. */
  lemma CachedAnswerExplained(c: Codecs, v: Air, o: string, p: string, t: string, host: string)
    requires Reachable(c, v) && Faithful(c.connect) && ':' !in o && ':' !in p && ':' !in t
    requires Cached(c.connect, v.entries, ConnectKey(o, p, t, host), v.now).Some?
    ensures var key := ConnectKey(o, p, t, host);
            key in v.origins
            && Explains(v, t, host, Cached(c.connect, v.entries, key, v.now).value, v.origins[key])
  {
    ReachableSound(c, v);
    var key := ConnectKey(o, p, t, host);
    KeyUnderProject(o, p, t, host);
    PrefixKinds(key, o, p);
    assert EntryOk(c, v, key);
    var g := v.origins[key];
    var o', p' :| ':' !in o' && ':' !in p' && ':' !in g.agentToken && key == ConnectKey(o', p', g.agentToken, g.host);
    ConnectKeyInjective(o, p, t, host, o', p', g.agentToken, g.host);
  }

  lemma DroppedIsRecent(c: Codecs, w: Air, o: string, p: string)
    requires w.history != []
    ensures Recent(Do(c, w, DropResponses(o, p)), o, p, |w.history| - 1, w.flights.Keys)
    ensures Do(c, w, DropResponses(o, p)).history == w.history
  {
  }

  /** After a project's responses are dropped, an answer from the cache for it, at any later time,
      can rest on anything older only if its resolution was already under way then. */
  lemma StaleOnlyIfUnderWay(
    c: Codecs, w: Air, o: string, p: string, steps: seq<Step>, v: Air, t: string, host: string)
    requires Reachable(c, w) && Faithful(c.connect) && ':' !in o && ':' !in p && ':' !in t
    requires w.history != [] && Permitted(c, Do(c, w, DropResponses(o, p)), steps)
    requires v == Run(c, Do(c, w, DropResponses(o, p)), steps)
    requires Cached(c.connect, v.entries, ConnectKey(o, p, t, host), v.now).Some?
    ensures var key := ConnectKey(o, p, t, host);
            && key in v.origins
            && Explains(v, t, host, Cached(c.connect, v.entries, key, v.now).value, v.origins[key])
            && (v.origins[key].since >= |w.history| - 1 || v.origins[key].id in w.flights)
  {
    ReachableSound(c, w);
    StepKeepsSound(c, w, DropResponses(o, p));
    DroppedIsRecent(c, w, o, p);
    ReachesOn(c, w, DropResponses(o, p), steps);
    CachedAnswerExplained(c, v, o, p, t, host);
    CachedSince(c, Do(c, w, DropResponses(o, p)), steps, v, o, p, t, host, |w.history| - 1, w.flights.Keys);
  }

  lemma CachedSince(c: Codecs, w: Air, steps: seq<Step>, v: Air, o: string, p: string, t: string, host: string,
                    from: nat, prior: set<nat>)
    requires Sound(c, w) && Permitted(c, w, steps) && v == Run(c, w, steps) && from < |w.history|
    requires Recent(w, o, p, from, prior) && ConnectKey(o, p, t, host) in v.entries
    ensures var key := ConnectKey(o, p, t, host);
            key in v.origins && (v.origins[key].since >= from || v.origins[key].id in prior)
  {
    RunKeepsRecent(c, w, steps, o, p, from, prior);
    KeyUnderProject(o, p, t, host);
  }

  /** The same for the builds of app injections, which besides never outlive their token. The row a
      build uses may be older: see `ConnectionRows`. */
  lemma AppStaleOnlyIfUnderWay(
    c: Codecs, w: Air, o: string, p: string, steps: seq<Step>, v: Air,
    connectionId: string, host: string, policy: Option<string>)
    requires Reachable(c, w) && Faithful(c.app) && ':' !in o && ':' !in p
    requires w.history != [] && Permitted(c, Do(c, w, DropApps(o, p)), steps)
    requires v == Run(c, Do(c, w, DropApps(o, p)), steps)
    requires Cached(c.app, v.entries, AppKey(o, p, connectionId, host, policy), v.now).Some?
    ensures var key := AppKey(o, p, connectionId, host, policy);
            && key in v.appOrigins
            && v.appOrigins[key].built.injection == Cached(c.app, v.entries, key, v.now).value
            && v.appOrigins[key].storedAt <= v.now < v.appOrigins[key].storedAt + CACHE_TTL_SECS
            && (v.appOrigins[key].built.expiresAt.Some? ==> v.now < v.appOrigins[key].built.expiresAt.value)
            && (v.appOrigins[key].since >= |w.history| - 1 || v.appOrigins[key].id in w.apps)
  {
    ReachableSound(c, w);
    var first, key := Do(c, w, DropApps(o, p)), AppKey(o, p, connectionId, host, policy);
    StepKeepsSound(c, w, DropApps(o, p));
    RunKeepsSound(c, first, steps);
    RunKeepsRecent(c, first, steps, o, p, |w.history| - 1, w.apps.Keys);
    AppKeyRest(o, p, connectionId, host, policy);
    PrefixKinds(key, o, p);
    assert EntryOk(c, v, key);
  }

  lemma {:induction false} RunOn(c: Codecs, w: Air, steps: seq<Step>, more: seq<Step>)
    requires w.history != [] && Permitted(c, w, steps) && Permitted(c, Run(c, w, steps), more)
    ensures Permitted(c, w, steps + more) && Run(c, w, steps + more) == Run(c, Run(c, w, steps), more)
    decreases |steps|
  {
    if steps == [] {
      assert steps + more == more;
    } else {
      var v, all := Do(c, w, steps[0]), steps + more;
      assert all[0] == steps[0] && all[1..] == steps[1..] + more;
      OneStep(c, w, steps, v);
      RunOn(c, v, steps[1..], more);
      OneStep(c, w, all, v);
    }
  }

  lemma OneStep(c: Codecs, w: Air, steps: seq<Step>, v: Air)
    requires w.history != [] && steps != [] && v == Do(c, w, steps[0])
    ensures Permitted(c, w, steps) <==> Enabled(w, steps[0]) && Permitted(c, v, steps[1..])
    ensures Run(c, w, steps) == Run(c, v, steps[1..])
  {
  }

  lemma ReachesOn(c: Codecs, w: Air, step: Step, steps: seq<Step>)
    requires Reachable(c, w) && w.history != [] && Enabled(w, step) && Permitted(c, Do(c, w, step), steps)
    ensures Reachable(c, Run(c, Do(c, w, step), steps))
  {
    var now: nat, db, before :|
      ColonFreeIds(db) && Permitted(c, Grounded(now, db), before) && w == Run(c, Grounded(now, db), before);
    var more := [step] + steps;
    assert more[1..] == steps;
    RunOn(c, Grounded(now, db), before, more);
  }
}
