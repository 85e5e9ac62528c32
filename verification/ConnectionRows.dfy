/** Which connection rows the injected credentials come from. A request builds app injections from
    the rows in the response it was served (mitm.rs, connect.rs), which may be a cached one, and an
    invalidation (gateway.rs) drops the app injections first and the responses second. */
module ConnectionRows {
  import opened Wrappers
  import opened Cache
  import opened ConnectCache
  import CF = ConnectFlights

  // ── State ─────────────────────────────────────────────────────────────

  /** A response in the hands of a request, served at `takenAt`; `origin` is the resolution that
      queried it. */
  datatype Held = Held(
    orgId: string, projectId: string, host: string, response: ConnectResponse, origin: CF.Origin, takenAt: nat)

  /** What an app injection is built from: a row of the response its request holds. */
  datatype Source = Source(request: nat, held: Held, row: AppConnectionRow)

  function SourceKey(src: Source): string {
    AppKey(src.held.orgId, src.held.projectId, src.row.id, src.held.host, src.row.sessionPolicy)
  }

  /** `held` has the requests that got a response and have not finished; `sources` those of all app
      injections ever begun. */
  datatype Gateway = Gateway(air: CF.Air, held: map<nat, Held>, sources: map<nat, Source>)

  /** What decryption, token resolution and rule building may make of a row on a host. */
  type Builder = (AppConnectionRow, string, Built) -> bool

  function Opened(now: nat, db: Db): Gateway {
    Gateway(CF.Grounded(now, db), map[], map[])
  }

  // ── Steps ─────────────────────────────────────────────────────────────

  /** `Other` is any step that is not one of an app injection. */
  datatype Step =
    | Other(step: CF.Step)
    | Use(request: nat, i: nat)
    | Build(id: nat, built: Option<Built>)
    | StoreApp(id: nat)
    | Finish(request: nat)

  /** The response a resolution gets with this step: from the cache, or its own. */
  function Taken(c: Codecs, w: CF.Air, step: CF.Step): Option<Held> {
    if step.Read? && step.id in w.flights && w.flights[step.id].stage.Reading? then
      var f := w.flights[step.id];
      var key := CF.KeyOf(f);
      var cached := Cached(c.connect, w.entries, key, w.now);
      if cached.Some? && key in w.origins
      then Some(Held(f.orgId, f.projectId, f.host, cached.value, w.origins[key], w.now))
      else None
    else if step.Store? && step.id in w.flights && w.flights[step.id].stage.Queried?
            && w.flights[step.id].found.Some? then
      var f := w.flights[step.id];
      Some(Held(f.orgId, f.projectId, f.host, f.stage.response, CF.OriginOf(w, step.id), w.now))
    else None
  }

  function OtherNext(c: Codecs, s: Gateway, step: CF.Step): Gateway
    requires s.air.history != []
  {
    var taken := Taken(c, s.air, step);
    s.(air := CF.Do(c, s.air, step), held := if taken.Some? then s.held[step.id := taken.value] else s.held)
  }

  /** The app injection of a row that the request's response has. */
  function UseNext(c: Codecs, s: Gateway, request: nat, i: nat): Gateway
    requires s.air.history != [] && request in s.held && i < |s.held[request].response.appConnections|
  {
    var src := Source(request, s.held[request], s.held[request].response.appConnections[i]);
    var v := CF.BeginAppNext(c, s.air, SourceKey(src));
    s.(air := v, sources := if s.air.nextId in v.apps then s.sources[s.air.nextId := src] else s.sources)
  }

  function BuildNext(c: Codecs, s: Gateway, id: nat, built: Option<Built>): Gateway
    requires s.air.history != []
  {
    s.(air := CF.DoApp(c, s.air, CF.Build(id, built)))
  }

  function StoreAppNext(c: Codecs, s: Gateway, id: nat): Gateway
    requires id in s.air.apps && s.air.apps[id].built.Some?
  {
    s.(air := CF.StoreAppNext(c, s.air, id))
  }

  function Do(c: Codecs, s: Gateway, step: Step): Gateway
    requires s.air.history != []
    ensures Do(c, s, step).air.history != []
  {
    match step
    case Other(step) => OtherNext(c, s, step)
    case Use(request, i) =>
      if request in s.held && i < |s.held[request].response.appConnections| then UseNext(c, s, request, i) else s
    case Build(id, built) => BuildNext(c, s, id, built)
    case StoreApp(id) => if id in s.air.apps && s.air.apps[id].built.Some? then StoreAppNext(c, s, id) else s
    case Finish(request) => s.(held := s.held - {request})
  }

  /** Rows are used only where the response has no injection rules of its own. */
  ghost predicate Enabled(b: Builder, s: Gateway, step: Step) {
    match step
    case Other(step) => CF.Enabled(s.air, step) && !CF.AppStep(step)
    case Use(request, i) =>
      request in s.held && i < |s.held[request].response.appConnections| ==>
        s.held[request].response.injectionRules == [] && ':' !in s.held[request].response.appConnections[i].id
    case Build(id, built) =>
      built.Some? && id in s.sources ==> b(s.sources[id].row, s.sources[id].held.host, built.value)
    case _ => true
  }

  ghost predicate Permitted(c: Codecs, b: Builder, s: Gateway, steps: seq<Step>)
    requires s.air.history != []
    decreases |steps|
  {
    steps == [] || (Enabled(b, s, steps[0]) && Permitted(c, b, Do(c, s, steps[0]), steps[1..]))
  }

  function Run(c: Codecs, s: Gateway, steps: seq<Step>): Gateway
    requires s.air.history != []
    ensures Run(c, s, steps).air.history != []
    decreases |steps|
  {
    if steps == [] then s else Run(c, Do(c, s, steps[0]), steps[1..])
  }

  // ── Invariant ─────────────────────────────────────────────────────────

  /** The response was queried by its resolution, stored after that, and taken within the minute
      the cache keeps it. */
  predicate HeldOk(now: nat, history: seq<Snapshot>, h: Held) {
    var g := h.origin;
    && ':' !in h.orgId && ':' !in h.projectId && g.host == h.host && g.response == h.response
    && CF.Resolved(history, g.since, g.agentToken, g.host, g.found, g.queriedAt, g.response)
    && history[g.queriedAt].time <= g.storedAt <= h.takenAt <= now && h.takenAt < g.storedAt + CACHE_TTL_SECS
  }

  predicate SourceOk(now: nat, history: seq<Snapshot>, src: Source) {
    HeldOk(now, history, src.held) && src.row in src.held.response.appConnections && ':' !in src.row.id
  }

  /** The app injection is built for and from the row of its source. */
  predicate BuiltFrom(b: Builder, src: Source, key: string, built: Built) {
    key == SourceKey(src) && b(src.row, src.held.host, built)
  }

  predicate TimesOk(now: nat, history: seq<Snapshot>) {
    forall i | 0 <= i < |history| :: history[i].time <= now
  }

  predicate OriginOk(history: seq<Snapshot>, g: CF.Origin) {
    g.queriedAt < |history| && history[g.queriedAt].time <= g.storedAt
  }

  predicate OriginsOk(w: CF.Air) {
    forall key | key in w.origins :: OriginOk(w.history, w.origins[key])
  }

  predicate HeldAllOk(s: Gateway) {
    forall r | r in s.held :: r < s.air.nextId && HeldOk(s.air.now, s.air.history, s.held[r])
  }

  predicate SourcesOk(s: Gateway) {
    forall id | id in s.sources :: SourceOk(s.air.now, s.air.history, s.sources[id])
  }

  predicate AppOk(b: Builder, s: Gateway, id: nat)
    requires id in s.air.apps
  {
    && id in s.sources && s.air.apps[id].key == SourceKey(s.sources[id])
    && (s.air.apps[id].built.Some? ==> b(s.sources[id].row, s.sources[id].held.host, s.air.apps[id].built.value))
  }

  predicate AppsOk(b: Builder, s: Gateway) {
    forall id | id in s.air.apps :: AppOk(b, s, id)
  }

  /** What the cache has under an app key was built from the row of its source. */
  predicate StoredOk(b: Builder, s: Gateway, key: string)
    requires key in s.air.appOrigins
  {
    var g := s.air.appOrigins[key];
    g.id < s.air.nextId && g.id in s.sources && BuiltFrom(b, s.sources[g.id], key, g.built)
    && s.sources[g.id].held.takenAt <= g.storedAt
  }

  predicate AllStoredOk(b: Builder, s: Gateway) {
    forall key | key in s.air.appOrigins :: StoredOk(b, s, key)
  }

  ghost predicate Sourced(c: Codecs, b: Builder, s: Gateway) {
    && CF.Sound(c, s.air) && TimesOk(s.air.now, s.air.history) && OriginsOk(s.air)
    && HeldAllOk(s) && SourcesOk(s) && AppsOk(b, s) && AllStoredOk(b, s)
  }

  // ── Every step keeps it ───────────────────────────────────────────────

  lemma Later(now: nat, history: seq<Snapshot>, later: nat, longer: seq<Snapshot>, h: Held)
    requires HeldOk(now, history, h) && now <= later && history <= longer
    ensures HeldOk(later, longer, h)
  {
    var g := h.origin;
    assert longer[g.queriedAt] == history[g.queriedAt] && longer[g.found.at] == history[g.found.at];
  }

  /** What another step leaves alone. */
  ghost predicate LeavesApps(w: CF.Air, v: CF.Air) {
    && v.apps == w.apps && v.appOrigins == w.appOrigins && w.nextId <= v.nextId
    && w.now <= v.now && w.history <= v.history
    && (v.history == w.history || v.history == w.history + [Snapshot(v.now, v.db)])
  }

  lemma OtherLeaves(c: Codecs, w: CF.Air, step: CF.Step)
    requires CF.Sound(c, w) && CF.Enabled(w, step) && !CF.AppStep(step)
    ensures LeavesApps(w, CF.Do(c, w, step)) && CF.Sound(c, CF.Do(c, w, step))
    ensures !step.Store? ==> CF.Do(c, w, step).origins == w.origins
  {
    CF.StepKeepsSound(c, w, step);
    if CF.FlightStep(step) {
      CF.FlightStepMoves(c, w, step);
      if !step.Store? {
        CF.FlightStepStores(c, w, step);
      }
    }
  }

  lemma StoreOrigins(c: Codecs, w: CF.Air, id: nat)
    requires w.history != []
    ensures var v := CF.DoFlight(c, w, CF.Store(id));
            || v.origins == w.origins
            || (&& id in w.flights && w.flights[id].stage.Queried? && w.flights[id].found.Some?
                && v.origins == w.origins[CF.KeyOf(w.flights[id]) := CF.OriginOf(w, id)])
  {
  }

  lemma OtherKeepsOrigins(c: Codecs, w: CF.Air, step: CF.Step)
    requires CF.Sound(c, w) && CF.Enabled(w, step) && !CF.AppStep(step)
    requires TimesOk(w.now, w.history) && OriginsOk(w)
    ensures TimesOk(CF.Do(c, w, step).now, CF.Do(c, w, step).history) && OriginsOk(CF.Do(c, w, step))
  {
    var v := CF.Do(c, w, step);
    OtherLeaves(c, w, step);
    forall key | key in w.origins ensures OriginOk(v.history, w.origins[key]) {
      assert v.history[w.origins[key].queriedAt] == w.history[w.origins[key].queriedAt];
    }
    if step.Store? {
      StoreOrigins(c, w, step.id);
      if step.id in w.flights {
        assert CF.FlightOk(w.history, w.flights[step.id]);
      }
    }
  }

  /** A response from the cache is the one its origin stored, for the same host. */
  lemma ReadTaken(c: Codecs, w: CF.Air, f: CF.Flight)
    requires CF.Sound(c, w) && OriginsOk(w) && Faithful(c.connect) && CF.FlightOk(w.history, f)
    requires Cached(c.connect, w.entries, CF.KeyOf(f), w.now).Some? && CF.KeyOf(f) in w.origins
    ensures HeldOk(w.now, w.history, Held(f.orgId, f.projectId, f.host,
              Cached(c.connect, w.entries, CF.KeyOf(f), w.now).value, w.origins[CF.KeyOf(f)], w.now))
  {
    var key := CF.KeyOf(f);
    var g := w.origins[key];
    CF.KeyUnderProject(f.orgId, f.projectId, f.agentToken, f.host);
    CF.PrefixKinds(key, f.orgId, f.projectId);
    assert CF.EntryOk(c, w, key);
    var o, p :| ':' !in o && ':' !in p && ':' !in g.agentToken && key == ConnectKey(o, p, g.agentToken, g.host);
    ConnectKeyInjective(f.orgId, f.projectId, f.agentToken, f.host, o, p, g.agentToken, g.host);
  }

  lemma TakenOk(c: Codecs, w: CF.Air, step: CF.Step)
    requires CF.Sound(c, w) && TimesOk(w.now, w.history) && OriginsOk(w) && Faithful(c.connect)
    requires Taken(c, w, step).Some?
    ensures step.id in w.flights && HeldOk(w.now, w.history, Taken(c, w, step).value)
  {
    assert CF.FlightOk(w.history, w.flights[step.id]);
    if step.Read? {
      ReadTaken(c, w, w.flights[step.id]);
    }
  }

  lemma HeldLater(s: Gateway, t: Gateway, r: nat)
    requires HeldAllOk(s) && LeavesApps(s.air, t.air) && r in s.held
    ensures r < t.air.nextId && HeldOk(t.air.now, t.air.history, s.held[r])
  {
    Later(s.air.now, s.air.history, t.air.now, t.air.history, s.held[r]);
  }

  lemma TakenLater(c: Codecs, s: Gateway, t: Gateway, step: CF.Step)
    requires CF.Sound(c, s.air) && TimesOk(s.air.now, s.air.history) && OriginsOk(s.air) && Faithful(c.connect)
    requires LeavesApps(s.air, t.air) && Taken(c, s.air, step).Some?
    ensures step.id < t.air.nextId && HeldOk(t.air.now, t.air.history, Taken(c, s.air, step).value)
  {
    TakenOk(c, s.air, step);
    Later(s.air.now, s.air.history, t.air.now, t.air.history, Taken(c, s.air, step).value);
  }

  lemma OtherKeepsHeld(c: Codecs, s: Gateway, step: CF.Step)
    requires CF.Sound(c, s.air) && CF.Enabled(s.air, step) && !CF.AppStep(step) && Faithful(c.connect)
    requires TimesOk(s.air.now, s.air.history) && OriginsOk(s.air) && HeldAllOk(s)
    ensures HeldAllOk(OtherNext(c, s, step))
  {
    var t, taken := OtherNext(c, s, step), Taken(c, s.air, step);
    OtherLeaves(c, s.air, step);
    forall r | r in t.held ensures r < t.air.nextId && HeldOk(t.air.now, t.air.history, t.held[r]) {
      if taken.Some? && r == step.id {
        TakenLater(c, s, t, step);
      } else {
        HeldLater(s, t, r);
      }
    }
  }

  /** What is known of sources stays as time goes on. */
  lemma SourcesLater(b: Builder, s: Gateway, t: Gateway)
    requires SourcesOk(s) && AppsOk(b, s) && AllStoredOk(b, s)
    requires t.sources == s.sources && LeavesApps(s.air, t.air)
    ensures SourcesOk(t) && AppsOk(b, t) && AllStoredOk(b, t)
  {
    forall id | id in t.sources ensures SourceOk(t.air.now, t.air.history, t.sources[id]) {
      Later(s.air.now, s.air.history, t.air.now, t.air.history, s.sources[id].held);
    }
    forall id | id in t.air.apps ensures AppOk(b, t, id) {
      assert AppOk(b, s, id);
    }
    forall key | key in t.air.appOrigins ensures StoredOk(b, t, key) {
      assert StoredOk(b, s, key);
    }
  }

  lemma OtherKeepsSourced(c: Codecs, b: Builder, s: Gateway, step: CF.Step)
    requires Sourced(c, b, s) && Enabled(b, s, Other(step)) && Faithful(c.connect)
    ensures Sourced(c, b, OtherNext(c, s, step))
  {
    OtherLeaves(c, s.air, step);
    OtherKeepsOrigins(c, s.air, step);
    OtherKeepsHeld(c, s, step);
    SourcesLater(b, s, OtherNext(c, s, step));
  }

  /** An app step moves neither time nor what requests hold. */
  ghost predicate LeavesHeld(s: Gateway, t: Gateway) {
    && t.air.now == s.air.now && t.air.history == s.air.history && t.air.db == s.air.db
    && t.air.origins == s.air.origins && s.air.nextId <= t.air.nextId && t.held == s.held
  }

  lemma HeldStays(s: Gateway, t: Gateway)
    requires TimesOk(s.air.now, s.air.history) && OriginsOk(s.air) && HeldAllOk(s) && LeavesHeld(s, t)
    ensures TimesOk(t.air.now, t.air.history) && OriginsOk(t.air) && HeldAllOk(t)
  {
  }

  lemma UseInAir(c: Codecs, w: CF.Air, src: Source)
    requires CF.Sound(c, w) && SourceOk(w.now, w.history, src)
    ensures CF.Sound(c, CF.BeginAppNext(c, w, SourceKey(src)))
  {
    var h, row := src.held, src.row;
    CF.StepKeepsSound(c, w, CF.BeginApp(h.orgId, h.projectId, row.id, h.host, row.sessionPolicy));
  }

  lemma BeginAppShape(c: Codecs, w: CF.Air, key: string)
    requires w.history != []
    ensures var v := CF.BeginAppNext(c, w, key);
            && v.now == w.now && v.history == w.history && v.db == w.db && v.origins == w.origins
            && v.appOrigins == w.appOrigins && v.flights == w.flights && w.nextId <= v.nextId
            && (v.apps == w.apps || v.apps == w.apps[w.nextId := CF.AppFlight(key, CF.Last(w), None)])
            && (forall k | k in v.entries :: k in w.entries)
  {
  }

  /** What a request's use of a row changes. */
  ghost predicate Uses(s: Gateway, t: Gateway, src: Source) {
    && LeavesHeld(s, t) && t.air.appOrigins == s.air.appOrigins && t.air.flights == s.air.flights
    && (forall key | key in t.air.entries :: key in s.air.entries)
    && (|| (t.air.apps == s.air.apps && t.sources == s.sources)
        || (&& s.air.history != [] && t.sources == s.sources[s.air.nextId := src]
            && t.air.apps
               == s.air.apps[s.air.nextId := CF.AppFlight(SourceKey(src), CF.Last(s.air), None)]))
  }

  lemma UseShape(c: Codecs, s: Gateway, request: nat, i: nat)
    requires s.air.history != [] && (forall id | id in s.air.apps :: id < s.air.nextId)
    requires request in s.held && i < |s.held[request].response.appConnections|
    ensures Uses(s, UseNext(c, s, request, i),
                 Source(request, s.held[request], s.held[request].response.appConnections[i]))
  {
    BeginAppShape(c, s.air, SourceKey(Source(request, s.held[request], s.held[request].response.appConnections[i])));
  }

  lemma UseKeepsSources(s: Gateway, t: Gateway, src: Source)
    requires SourcesOk(s) && SourceOk(s.air.now, s.air.history, src) && Uses(s, t, src)
    ensures SourcesOk(t)
  {
    forall id | id in t.sources ensures SourceOk(t.air.now, t.air.history, t.sources[id]) {
      assert id in s.sources ==> SourceOk(s.air.now, s.air.history, s.sources[id]);
    }
  }

  lemma UseKeepsApps(b: Builder, s: Gateway, t: Gateway, src: Source)
    requires AppsOk(b, s) && Uses(s, t, src) && (forall id | id in s.air.apps :: id < s.air.nextId)
    ensures AppsOk(b, t)
  {
    forall id | id in t.air.apps ensures AppOk(b, t, id) {
      if id in s.air.apps {
        assert AppOk(b, s, id);
      }
    }
  }

  lemma UseKeepsStored(b: Builder, s: Gateway, t: Gateway, src: Source)
    requires AllStoredOk(b, s) && Uses(s, t, src)
    ensures AllStoredOk(b, t)
  {
    forall key | key in t.air.appOrigins ensures StoredOk(b, t, key) {
      assert StoredOk(b, s, key);
    }
  }

  lemma UseKeepsSourced(c: Codecs, b: Builder, s: Gateway, request: nat, i: nat)
    requires Sourced(c, b, s) && Enabled(b, s, Use(request, i))
    requires request in s.held && i < |s.held[request].response.appConnections|
    ensures Sourced(c, b, UseNext(c, s, request, i))
  {
    var h, t := s.held[request], UseNext(c, s, request, i);
    var src := Source(request, h, h.response.appConnections[i]);
    UseInAir(c, s.air, src);
    UseShape(c, s, request, i);
    HeldStays(s, t);
    UseKeepsSources(s, t, src);
    UseKeepsApps(b, s, t, src);
    UseKeepsStored(b, s, t, src);
  }

  lemma BuildShape(c: Codecs, w: CF.Air, id: nat, built: Option<Built>)
    requires w.history != []
    ensures var v := CF.DoApp(c, w, CF.Build(id, built));
            && v.now == w.now && v.history == w.history && v.db == w.db && v.origins == w.origins
            && v.appOrigins == w.appOrigins && v.nextId == w.nextId && v.entries == w.entries
            && (forall other | other in v.apps ::
                  other in w.apps && v.apps[other].key == w.apps[other].key
                  && (v.apps[other].built == w.apps[other].built || (other == id && v.apps[other].built == built)))
  {
  }

  lemma BuildInAir(c: Codecs, w: CF.Air, id: nat, built: Option<Built>)
    requires CF.Sound(c, w)
    ensures CF.Sound(c, CF.DoApp(c, w, CF.Build(id, built)))
  {
    CF.StepKeepsSound(c, w, CF.Build(id, built));
  }

  lemma BuildKeepsBuilds(b: Builder, s: Gateway, t: Gateway, id: nat, built: Option<Built>)
    requires SourcesOk(s) && AppsOk(b, s) && AllStoredOk(b, s) && Enabled(b, s, Build(id, built))
    requires LeavesHeld(s, t) && t.sources == s.sources && t.air.appOrigins == s.air.appOrigins
    requires forall other | other in t.air.apps ::
               && other in s.air.apps && t.air.apps[other].key == s.air.apps[other].key
               && (t.air.apps[other].built == s.air.apps[other].built
                   || (other == id && t.air.apps[other].built == built))
    ensures SourcesOk(t) && AppsOk(b, t) && AllStoredOk(b, t)
  {
    forall other | other in t.air.apps ensures AppOk(b, t, other) {
      assert AppOk(b, s, other);
    }
    forall key | key in t.air.appOrigins ensures StoredOk(b, t, key) {
      assert StoredOk(b, s, key);
    }
  }

  lemma BuildKeepsSourced(c: Codecs, b: Builder, s: Gateway, id: nat, built: Option<Built>)
    requires Sourced(c, b, s) && Enabled(b, s, Build(id, built))
    ensures Sourced(c, b, BuildNext(c, s, id, built))
  {
    BuildInAir(c, s.air, id, built);
    BuildShape(c, s.air, id, built);
    HeldStays(s, BuildNext(c, s, id, built));
    BuildKeepsBuilds(b, s, BuildNext(c, s, id, built), id, built);
  }

  lemma StoreAppInAir(c: Codecs, w: CF.Air, id: nat)
    requires CF.Sound(c, w) && id in w.apps && w.apps[id].built.Some?
    ensures CF.Sound(c, CF.StoreAppNext(c, w, id))
  {
    CF.StepKeepsSound(c, w, CF.StoreApp(id));
  }

  lemma StoreAppShape(c: Codecs, w: CF.Air, id: nat)
    requires id in w.apps && w.apps[id].built.Some?
    ensures var f, v := w.apps[id], CF.StoreAppNext(c, w, id);
            && v.now == w.now && v.history == w.history && v.db == w.db && v.origins == w.origins
            && v.nextId == w.nextId && v.apps == w.apps - {id}
            && (|| v.appOrigins == w.appOrigins
                || v.appOrigins == w.appOrigins[f.key := CF.AppOrigin(id, f.since, w.now, f.built.value)])
  {
  }

  lemma StoreAppKeepsApps(b: Builder, s: Gateway, t: Gateway, id: nat)
    requires AppsOk(b, s) && t.sources == s.sources && id in s.air.apps && t.air.apps == s.air.apps - {id}
    ensures AppsOk(b, t)
  {
    forall other | other in t.air.apps ensures AppOk(b, t, other) {
      assert AppOk(b, s, other);
    }
  }

  lemma StoreAppKeepsStored(b: Builder, s: Gateway, t: Gateway, id: nat)
    requires AllStoredOk(b, s) && id in s.air.apps && s.air.apps[id].built.Some? && AppOk(b, s, id)
    requires id < s.air.nextId == t.air.nextId && s.sources[id].held.takenAt <= s.air.now && t.sources == s.sources
    requires || t.air.appOrigins == s.air.appOrigins
             || t.air.appOrigins == s.air.appOrigins[s.air.apps[id].key := NewOrigin(s, id)]
    ensures AllStoredOk(b, t)
  {
    forall key | key in t.air.appOrigins ensures StoredOk(b, t, key) {
      assert key in s.air.appOrigins ==> StoredOk(b, s, key);
    }
  }

  function NewOrigin(s: Gateway, id: nat): CF.AppOrigin
    requires id in s.air.apps && s.air.apps[id].built.Some?
  {
    CF.AppOrigin(id, s.air.apps[id].since, s.air.now, s.air.apps[id].built.value)
  }

  lemma StoreAppKeepsSourced(c: Codecs, b: Builder, s: Gateway, id: nat)
    requires Sourced(c, b, s) && id in s.air.apps && s.air.apps[id].built.Some?
    ensures Sourced(c, b, StoreAppNext(c, s, id))
  {
    StoreAppInAir(c, s.air, id);
    StoreAppShape(c, s.air, id);
    HeldStays(s, StoreAppNext(c, s, id));
    StoreAppKeepsApps(b, s, StoreAppNext(c, s, id), id);
    assert AppOk(b, s, id) && SourceOk(s.air.now, s.air.history, s.sources[id]);
    StoreAppKeepsStored(b, s, StoreAppNext(c, s, id), id);
  }

  lemma FinishKeepsSourced(c: Codecs, b: Builder, s: Gateway, request: nat)
    requires Sourced(c, b, s)
    ensures Sourced(c, b, s.(held := s.held - {request}))
  {
    var t := s.(held := s.held - {request});
    SourcesLater(b, s, t);
  }

  lemma StepKeepsSourced(c: Codecs, b: Builder, s: Gateway, step: Step)
    requires Sourced(c, b, s) && Enabled(b, s, step) && Faithful(c.connect)
    ensures Sourced(c, b, Do(c, s, step))
  {
    match step
    case Other(other) => OtherKeepsSourced(c, b, s, other);
    case Use(request, i) =>
      if request in s.held && i < |s.held[request].response.appConnections| {
        UseKeepsSourced(c, b, s, request, i);
      }
    case Build(id, built) => BuildKeepsSourced(c, b, s, id, built);
    case StoreApp(id) =>
      if id in s.air.apps && s.air.apps[id].built.Some? {
        StoreAppKeepsSourced(c, b, s, id);
      }
    case Finish(request) => FinishKeepsSourced(c, b, s, request);
  }

  lemma {:induction false} RunKeepsSourced(c: Codecs, b: Builder, s: Gateway, steps: seq<Step>)
    requires Sourced(c, b, s) && Permitted(c, b, s, steps) && Faithful(c.connect)
    ensures Sourced(c, b, Run(c, s, steps))
    decreases |steps|
  {
    if steps != [] {
      StepKeepsSourced(c, b, s, steps[0]);
      RunKeepsSourced(c, b, Do(c, s, steps[0]), steps[1..]);
    }
  }

  ghost predicate Reachable(c: Codecs, b: Builder, s: Gateway) {
    exists now: nat, db, steps ::
      ColonFreeIds(db) && Permitted(c, b, Opened(now, db), steps) && s == Run(c, Opened(now, db), steps)
  }

  lemma ReachableSourced(c: Codecs, b: Builder, s: Gateway)
    requires Reachable(c, b, s) && Faithful(c.connect)
    ensures Sourced(c, b, s)
  {
    var now: nat, db, steps :|
      ColonFreeIds(db) && Permitted(c, b, Opened(now, db), steps) && s == Run(c, Opened(now, db), steps);
    RunKeepsSourced(c, b, Opened(now, db), steps);
  }

  // ── Where a served injection comes from ───────────────────────────────

  ghost predicate Serves(c: Codecs, v: Gateway, key: string) {
    Cached(c.app, v.air.entries, key, v.air.now).Some?
  }

  predicate HasSource(v: Gateway, key: string) {
    key in v.air.appOrigins && v.air.appOrigins[key].id in v.sources
  }

  function SourceOf(v: Gateway, key: string): Source
    requires HasSource(v, key)
  {
    v.sources[v.air.appOrigins[key].id]
  }

  /** The injection was built from a row of the connection that some database gave for its host; the
      response with the row was stored at most a minute before its request took it, and the injection
      at most a minute ago, with a token that is alive. */
  predicate RowExplains(b: Builder, v: Gateway, o: string, p: string, connectionId: string, key: string,
                        served: CachedAppInjection)
    requires HasSource(v, key)
  {
    var src, g := SourceOf(v, key), v.air.appOrigins[key];
    var h := src.held;
    && h.orgId == o && h.projectId == p && src.row.id == connectionId && src.row in h.response.appConnections
    && g.built.injection == served && b(src.row, h.host, g.built)
    && CF.Resolved(v.air.history, h.origin.since, h.origin.agentToken, h.host, h.origin.found, h.origin.queriedAt,
                   h.response)
    && v.air.history[h.origin.queriedAt].time <= h.origin.storedAt <= h.takenAt < h.origin.storedAt + CACHE_TTL_SECS
    && h.takenAt <= g.storedAt <= v.air.now < g.storedAt + CACHE_TTL_SECS
    && (g.built.expiresAt.Some? ==> v.air.now < g.built.expiresAt.value)
  }

  lemma ServedRowExplained(
    c: Codecs, b: Builder, v: Gateway, o: string, p: string, connectionId: string, host: string,
    policy: Option<string>)
    requires Reachable(c, b, v) && Faithful(c.connect) && Faithful(c.app)
    requires ':' !in o && ':' !in p && ':' !in connectionId
    requires Serves(c, v, AppKey(o, p, connectionId, host, policy))
    ensures var key := AppKey(o, p, connectionId, host, policy);
            HasSource(v, key)
            && RowExplains(b, v, o, p, connectionId, key, Cached(c.app, v.air.entries, key, v.air.now).value)
            && SourceOf(v, key).held.host + PolicySuffix(SourceOf(v, key).row.sessionPolicy)
               == host + PolicySuffix(policy)
  {
    ReachableSourced(c, b, v);
    var key := AppKey(o, p, connectionId, host, policy);
    AppKeyRest(o, p, connectionId, host, policy);
    CF.PrefixKinds(key, o, p);
    assert CF.EntryOk(c, v.air, key);
    assert StoredOk(b, v, key);
    var src := SourceOf(v, key);
    assert SourceOk(v.air.now, v.air.history, src);
    AppKeysCoincideIff(o, p, connectionId, host, policy, src.held.orgId, src.held.projectId, src.row.id,
                       src.held.host, src.row.sessionPolicy);
  }

  // ── After an invalidation ─────────────────────────────────────────────

  /** The step of `ConnectFlights` this step is, if it is one. */
  function AirStep(s: Gateway, step: Step): Option<CF.Step> {
    match step
    case Other(other) => Some(other)
    case Use(request, i) =>
      if request in s.held && i < |s.held[request].response.appConnections| then
        var h := s.held[request];
        var row := h.response.appConnections[i];
        Some(CF.BeginApp(h.orgId, h.projectId, row.id, h.host, row.sessionPolicy))
      else None
    case Build(id, built) => Some(CF.Build(id, built))
    case StoreApp(id) => Some(CF.StoreApp(id))
    case Finish(_) => None
  }

  lemma UseIsBeginApp(c: Codecs, s: Gateway, request: nat, i: nat)
    requires s.air.history != [] && request in s.held && i < |s.held[request].response.appConnections|
    ensures UseNext(c, s, request, i).air == CF.Do(c, s.air, AirStep(s, Use(request, i)).value)
  {
  }

  lemma StoreAppIsStoreApp(c: Codecs, s: Gateway, id: nat)
    requires s.air.history != []
    ensures Do(c, s, StoreApp(id)).air == CF.Do(c, s.air, CF.StoreApp(id))
  {
  }

  lemma AirStepEnabled(b: Builder, s: Gateway, step: Step)
    requires HeldAllOk(s) && Enabled(b, s, step) && AirStep(s, step).Some?
    ensures CF.Enabled(s.air, AirStep(s, step).value)
  {
    if step.Use? && step.request in s.held {
      assert HeldOk(s.air.now, s.air.history, s.held[step.request]);
    }
  }

  lemma StepInAir(c: Codecs, s: Gateway, step: Step)
    requires s.air.history != []
    ensures AirStep(s, step).Some? ==> Do(c, s, step).air == CF.Do(c, s.air, AirStep(s, step).value)
    ensures AirStep(s, step).None? ==> Do(c, s, step).air == s.air
  {
    if step.Use? && AirStep(s, step).Some? {
      UseIsBeginApp(c, s, step.request, step.i);
    } else if step.StoreApp? {
      StoreAppIsStoreApp(c, s, step.id);
    }
  }

  lemma StepKeepsRecent(c: Codecs, b: Builder, s: Gateway, step: Step, o: string, p: string, from: nat, prior: set<nat>)
    requires Sourced(c, b, s) && Enabled(b, s, step) && from < |s.air.history|
    ensures CF.Recent(s.air, o, p, from, prior) ==> CF.Recent(Do(c, s, step).air, o, p, from, prior)
    ensures CF.AppsRecent(s.air, o, p, from, prior) ==> CF.AppsRecent(Do(c, s, step).air, o, p, from, prior)
    ensures |s.air.history| <= |Do(c, s, step).air.history|
  {
    StepInAir(c, s, step);
    if AirStep(s, step).Some? {
      AirStepEnabled(b, s, step);
      CF.StepKeepsRecent(c, s.air, AirStep(s, step).value, o, p, from, prior);
      CF.StepKeepsSound(c, s.air, AirStep(s, step).value);
    }
  }

  /** All that is under way: resolutions, requests with a response, and builds. */
  function UnderWay(s: Gateway): set<nat> {
    s.air.flights.Keys + s.held.Keys + s.air.apps.Keys
  }

  /** The response was resolved from snapshot `from` on, or its resolution or its request is one of `prior`. */
  predicate HeldSince(request: nat, h: Held, from: nat, prior: set<nat>) {
    from <= h.origin.since || h.origin.id in prior || request in prior
  }

  predicate OfProject(h: Held, o: string, p: string) {
    h.orgId == o && h.projectId == p
  }

  predicate HeldRecent(s: Gateway, o: string, p: string, from: nat, prior: set<nat>) {
    forall r | r in s.held && OfProject(s.held[r], o, p) :: HeldSince(r, s.held[r], from, prior)
  }

  predicate SourceSince(s: Gateway, id: nat, from: nat, prior: set<nat>)
    requires id in s.sources
  {
    id in prior || HeldSince(s.sources[id].request, s.sources[id].held, from, prior)
  }

  predicate BuildsRecent(s: Gateway, o: string, p: string, from: nat, prior: set<nat>) {
    forall id | id in s.air.apps && id in s.sources && OfProject(s.sources[id].held, o, p) ::
      SourceSince(s, id, from, prior)
  }

  /** The entry is one of `stored`, or its source is recent. */
  predicate InjectionSince(s: Gateway, key: string, from: nat, prior: set<nat>, stored: map<string, CF.AppOrigin>) {
    && HasSource(s, key)
    && ((key in stored && stored[key] == s.air.appOrigins[key])
        || SourceSince(s, s.air.appOrigins[key].id, from, prior))
  }

  predicate InjectionsRecent(s: Gateway, o: string, p: string, from: nat, prior: set<nat>,
                             stored: map<string, CF.AppOrigin>) {
    forall key | key in s.air.entries && "app_injection:" + o + ":" + p + ":" <= key ::
      InjectionSince(s, key, from, prior, stored)
  }

  predicate RequestsRecent(s: Gateway, o: string, p: string, from: nat, prior: set<nat>,
                           stored: map<string, CF.AppOrigin>) {
    && HeldRecent(s, o, p, from, prior) && BuildsRecent(s, o, p, from, prior)
    && InjectionsRecent(s, o, p, from, prior, stored)
  }

  ghost predicate RowsRecent(s: Gateway, o: string, p: string, from: nat, prior: set<nat>,
                             stored: map<string, CF.AppOrigin>) {
    CF.Recent(s.air, o, p, from, prior) && RequestsRecent(s, o, p, from, prior, stored)
  }

  lemma TakenSince(c: Codecs, w: CF.Air, step: CF.Step, o: string, p: string, from: nat, prior: set<nat>)
    requires CF.Sound(c, w) && CF.Recent(w, o, p, from, prior)
    requires Taken(c, w, step).Some? && OfProject(Taken(c, w, step).value, o, p)
    ensures HeldSince(step.id, Taken(c, w, step).value, from, prior)
  {
    var f := w.flights[step.id];
    CF.KeyUnderProject(f.orgId, f.projectId, f.agentToken, f.host);
  }

  /** Only the storing of an app injection adds an app entry. */
  lemma OtherAppEntries(c: Codecs, w: CF.Air, step: CF.Step, key: string)
    requires CF.Sound(c, w) && CF.Enabled(w, step) && !CF.AppStep(step)
    requires key in CF.Do(c, w, step).entries && "app_injection:" <= key
    ensures key in w.entries
  {
    CF.PrefixKinds(key, "", "");
    if CF.FlightStep(step) && !step.Store? {
      CF.FlightStepStores(c, w, step);
    } else if step.Store? && step.id in w.flights {
      assert CF.KeyOf(w.flights[step.id])[0] == 'c';
    }
  }

  lemma OtherKeepsHeldRecent(c: Codecs, s: Gateway, step: CF.Step, o: string, p: string, from: nat, prior: set<nat>)
    requires CF.Sound(c, s.air) && CF.Recent(s.air, o, p, from, prior) && HeldRecent(s, o, p, from, prior)
    ensures HeldRecent(OtherNext(c, s, step), o, p, from, prior)
  {
    var taken := Taken(c, s.air, step);
    if taken.Some? && OfProject(taken.value, o, p) {
      TakenSince(c, s.air, step, o, p, from, prior);
    }
  }

  /** Builds and injections stay, and entries at most go. */
  predicate AppsStay(s: Gateway, t: Gateway, o: string, p: string) {
    && t.air.apps == s.air.apps && t.sources == s.sources && t.air.appOrigins == s.air.appOrigins
    && forall key | key in t.air.entries && "app_injection:" + o + ":" + p + ":" <= key :: key in s.air.entries
  }

  lemma AppsStayRecent(s: Gateway, t: Gateway, o: string, p: string, from: nat, prior: set<nat>,
                       stored: map<string, CF.AppOrigin>)
    requires AppsStay(s, t, o, p)
    requires BuildsRecent(s, o, p, from, prior) && InjectionsRecent(s, o, p, from, prior, stored)
    ensures BuildsRecent(t, o, p, from, prior) && InjectionsRecent(t, o, p, from, prior, stored)
  {
    forall id | id in t.air.apps && id in t.sources && OfProject(t.sources[id].held, o, p)
      ensures SourceSince(t, id, from, prior)
    {
      assert SourceSince(s, id, from, prior);
    }
    forall key | key in t.air.entries && "app_injection:" + o + ":" + p + ":" <= key
      ensures InjectionSince(t, key, from, prior, stored)
    {
      assert InjectionSince(s, key, from, prior, stored);
    }
  }

  lemma OtherAppsStay(c: Codecs, s: Gateway, step: CF.Step, o: string, p: string)
    requires CF.Sound(c, s.air) && CF.Enabled(s.air, step) && !CF.AppStep(step)
    ensures AppsStay(s, OtherNext(c, s, step), o, p)
  {
    var t := OtherNext(c, s, step);
    OtherLeaves(c, s.air, step);
    forall key | key in t.air.entries && "app_injection:" + o + ":" + p + ":" <= key ensures key in s.air.entries {
      CF.PrefixKinds(key, o, p);
      OtherAppEntries(c, s.air, step, key);
    }
  }

  lemma OtherKeepsRows(c: Codecs, s: Gateway, step: CF.Step, o: string, p: string, from: nat, prior: set<nat>,
                       stored: map<string, CF.AppOrigin>)
    requires CF.Sound(c, s.air) && CF.Enabled(s.air, step) && !CF.AppStep(step)
    requires RowsRecent(s, o, p, from, prior, stored)
    ensures RequestsRecent(OtherNext(c, s, step), o, p, from, prior, stored)
  {
    OtherKeepsHeldRecent(c, s, step, o, p, from, prior);
    OtherAppsStay(c, s, step, o, p);
    AppsStayRecent(s, OtherNext(c, s, step), o, p, from, prior, stored);
  }

  lemma UseKeepsInjections(b: Builder, s: Gateway, t: Gateway, src: Source, o: string, p: string, from: nat,
                           prior: set<nat>, stored: map<string, CF.AppOrigin>)
    requires AllStoredOk(b, s) && Uses(s, t, src) && InjectionsRecent(s, o, p, from, prior, stored)
    ensures InjectionsRecent(t, o, p, from, prior, stored)
  {
    forall key | key in t.air.entries && "app_injection:" + o + ":" + p + ":" <= key
      ensures InjectionSince(t, key, from, prior, stored)
    {
      assert InjectionSince(s, key, from, prior, stored) && StoredOk(b, s, key);
    }
  }

  lemma UseKeepsBuilds(s: Gateway, t: Gateway, src: Source, o: string, p: string, from: nat, prior: set<nat>)
    requires (forall id | id in s.air.apps :: id < s.air.nextId) && Uses(s, t, src)
    requires OfProject(src.held, o, p) ==> HeldSince(src.request, src.held, from, prior)
    requires BuildsRecent(s, o, p, from, prior)
    ensures BuildsRecent(t, o, p, from, prior)
  {
    forall id | id in t.air.apps && id in t.sources && OfProject(t.sources[id].held, o, p)
      ensures SourceSince(t, id, from, prior)
    {
      if id in s.air.apps {
        assert t.sources[id] == s.sources[id] && SourceSince(s, id, from, prior);
      }
    }
  }

  lemma UseKeepsRows(c: Codecs, b: Builder, s: Gateway, request: nat, i: nat, o: string, p: string, from: nat,
                     prior: set<nat>, stored: map<string, CF.AppOrigin>)
    requires s.air.history != [] && AllStoredOk(b, s) && (forall id | id in s.air.apps :: id < s.air.nextId)
    requires request in s.held && i < |s.held[request].response.appConnections|
    requires RequestsRecent(s, o, p, from, prior, stored)
    ensures RequestsRecent(UseNext(c, s, request, i), o, p, from, prior, stored)
  {
    var t := UseNext(c, s, request, i);
    var src := Source(request, s.held[request], s.held[request].response.appConnections[i]);
    UseShape(c, s, request, i);
    UseKeepsBuilds(s, t, src, o, p, from, prior);
    UseKeepsInjections(b, s, t, src, o, p, from, prior, stored);
  }

  /** What the storing of build `id` changes. */
  ghost predicate Stores(s: Gateway, t: Gateway, id: nat)
    requires id in s.air.apps
  {
    && t.held == s.held && t.sources == s.sources && t.air.apps == s.air.apps - {id}
    && (forall key | key in t.air.entries ::
          || (key in s.air.entries && (key in s.air.appOrigins ==>
                key in t.air.appOrigins && t.air.appOrigins[key] == s.air.appOrigins[key]))
          || (key == s.air.apps[id].key && key in t.air.appOrigins && t.air.appOrigins[key].id == id))
  }

  lemma StoreAppStores(c: Codecs, s: Gateway, id: nat)
    requires id in s.air.apps && s.air.apps[id].built.Some?
    ensures Stores(s, StoreAppNext(c, s, id), id)
  {
  }

  /** A build of another project stores nothing under this one's prefix. */
  lemma StoredUnder(src: Source, o: string, p: string)
    requires ':' !in src.held.orgId && ':' !in src.held.projectId && ':' !in o && ':' !in p
    requires "app_injection:" + o + ":" + p + ":" <= SourceKey(src)
    ensures OfProject(src.held, o, p)
  {
    var h := src.held;
    AppKeyRest(h.orgId, h.projectId, src.row.id, h.host, src.row.sessionPolicy);
    PrefixCovers("app_injection:", o, p, h.orgId, h.projectId,
                 src.row.id + ":" + h.host + PolicySuffix(src.row.sessionPolicy));
  }

  lemma StoresKeepsBuilds(s: Gateway, t: Gateway, id: nat, o: string, p: string, from: nat, prior: set<nat>)
    requires id in s.air.apps && Stores(s, t, id) && BuildsRecent(s, o, p, from, prior)
    ensures BuildsRecent(t, o, p, from, prior)
  {
    forall other | other in t.air.apps && other in t.sources && OfProject(t.sources[other].held, o, p)
      ensures SourceSince(t, other, from, prior)
    {
      assert SourceSince(s, other, from, prior);
    }
  }

  lemma StoresKeepsInjections(s: Gateway, t: Gateway, id: nat, o: string, p: string, from: nat, prior: set<nat>,
                              stored: map<string, CF.AppOrigin>)
    requires id in s.air.apps && Stores(s, t, id) && id in s.sources && s.air.apps[id].key == SourceKey(s.sources[id])
    requires "app_injection:" + o + ":" + p + ":" <= s.air.apps[id].key ==> SourceSince(s, id, from, prior)
    requires InjectionsRecent(s, o, p, from, prior, stored)
    ensures InjectionsRecent(t, o, p, from, prior, stored)
  {
    forall key | key in t.air.entries && "app_injection:" + o + ":" + p + ":" <= key
      ensures InjectionSince(t, key, from, prior, stored)
    {
      if key == s.air.apps[id].key && key in t.air.appOrigins && t.air.appOrigins[key].id == id {
        assert SourceSince(s, id, from, prior);
      } else {
        assert InjectionSince(s, key, from, prior, stored);
      }
    }
  }

  lemma StoreAppKeepsRows(c: Codecs, b: Builder, s: Gateway, id: nat, o: string, p: string, from: nat,
                          prior: set<nat>, stored: map<string, CF.AppOrigin>)
    requires ':' !in o && ':' !in p && SourcesOk(s) && AppsOk(b, s)
    requires id in s.air.apps && s.air.apps[id].built.Some? && RequestsRecent(s, o, p, from, prior, stored)
    ensures RequestsRecent(StoreAppNext(c, s, id), o, p, from, prior, stored)
  {
    var t := StoreAppNext(c, s, id);
    assert AppOk(b, s, id) && SourceOk(s.air.now, s.air.history, s.sources[id]);
    if "app_injection:" + o + ":" + p + ":" <= s.air.apps[id].key {
      StoredUnder(s.sources[id], o, p);
      assert SourceSince(s, id, from, prior);
    }
    StoreAppStores(c, s, id);
    StoresKeepsBuilds(s, t, id, o, p, from, prior);
    StoresKeepsInjections(s, t, id, o, p, from, prior, stored);
  }

  lemma BuildKeepsRows(c: Codecs, s: Gateway, id: nat, built: Option<Built>, o: string, p: string, from: nat,
                       prior: set<nat>, stored: map<string, CF.AppOrigin>)
    requires s.air.history != [] && RequestsRecent(s, o, p, from, prior, stored)
    ensures RequestsRecent(BuildNext(c, s, id, built), o, p, from, prior, stored)
  {
    var t := BuildNext(c, s, id, built);
    BuildShape(c, s.air, id, built);
    forall other | other in t.air.apps && other in t.sources && OfProject(t.sources[other].held, o, p)
      ensures SourceSince(t, other, from, prior)
    {
      assert SourceSince(s, other, from, prior);
    }
    forall key | key in t.air.entries && "app_injection:" + o + ":" + p + ":" <= key
      ensures InjectionSince(t, key, from, prior, stored)
    {
      assert InjectionSince(s, key, from, prior, stored);
    }
  }

  lemma StepKeepsRequests(c: Codecs, b: Builder, s: Gateway, step: Step, o: string, p: string, from: nat,
                          prior: set<nat>, stored: map<string, CF.AppOrigin>)
    requires CF.Sound(c, s.air) && SourcesOk(s) && AppsOk(b, s) && AllStoredOk(b, s)
    requires Enabled(b, s, step) && ':' !in o && ':' !in p && RowsRecent(s, o, p, from, prior, stored)
    ensures RequestsRecent(Do(c, s, step), o, p, from, prior, stored)
  {
    match step
    case Other(other) => OtherKeepsRows(c, s, other, o, p, from, prior, stored);
    case Use(request, i) =>
      if request in s.held && i < |s.held[request].response.appConnections| {
        UseKeepsRows(c, b, s, request, i, o, p, from, prior, stored);
      }
    case Build(id, built) => BuildKeepsRows(c, s, id, built, o, p, from, prior, stored);
    case StoreApp(id) =>
      if id in s.air.apps && s.air.apps[id].built.Some? {
        StoreAppKeepsRows(c, b, s, id, o, p, from, prior, stored);
      }
    case Finish(_) =>
  }

  lemma StepKeepsRows(c: Codecs, b: Builder, s: Gateway, step: Step, o: string, p: string, from: nat,
                      prior: set<nat>, stored: map<string, CF.AppOrigin>)
    requires Sourced(c, b, s) && Enabled(b, s, step) && from < |s.air.history| && ':' !in o && ':' !in p
    requires RowsRecent(s, o, p, from, prior, stored)
    ensures RowsRecent(Do(c, s, step), o, p, from, prior, stored)
  {
    StepKeepsRecent(c, b, s, step, o, p, from, prior);
    StepKeepsRequests(c, b, s, step, o, p, from, prior, stored);
  }

  lemma {:induction false} RunKeepsRows(c: Codecs, b: Builder, s: Gateway, steps: seq<Step>, o: string, p: string,
                                        from: nat, prior: set<nat>, stored: map<string, CF.AppOrigin>)
    requires Sourced(c, b, s) && Permitted(c, b, s, steps) && Faithful(c.connect)
    requires from < |s.air.history| && ':' !in o && ':' !in p
    requires RowsRecent(s, o, p, from, prior, stored)
    ensures RowsRecent(Run(c, s, steps), o, p, from, prior, stored)
    ensures Sourced(c, b, Run(c, s, steps)) && |s.air.history| <= |Run(c, s, steps).air.history|
    decreases |steps|
  {
    if steps != [] {
      StepKeepsSourced(c, b, s, steps[0]);
      StepKeepsRecent(c, b, s, steps[0], o, p, from, prior);
      StepKeepsRows(c, b, s, steps[0], o, p, from, prior, stored);
      RunKeepsRows(c, b, Do(c, s, steps[0]), steps[1..], o, p, from, prior, stored);
    }
  }

  lemma {:induction false} RunKeepsRecent(c: Codecs, b: Builder, s: Gateway, steps: seq<Step>, o: string, p: string,
                                          from: nat, prior: set<nat>)
    requires Sourced(c, b, s) && Permitted(c, b, s, steps) && Faithful(c.connect) && from < |s.air.history|
    requires CF.AppsRecent(s.air, o, p, from, prior)
    ensures CF.AppsRecent(Run(c, s, steps).air, o, p, from, prior) && Sourced(c, b, Run(c, s, steps))
    decreases |steps|
  {
    if steps != [] {
      StepKeepsSourced(c, b, s, steps[0]);
      StepKeepsRecent(c, b, s, steps[0], o, p, from, prior);
      RunKeepsRecent(c, b, Do(c, s, steps[0]), steps[1..], o, p, from, prior);
    }
  }

  /** Some steps that may be taken lead from `s` to `t`. */
  ghost predicate Leads(c: Codecs, b: Builder, s: Gateway, t: Gateway)
    requires s.air.history != []
  {
    exists steps :: Permitted(c, b, s, steps) && Run(c, s, steps) == t
  }

  /** The project's responses are dropped. */
  function DropResponses(s: Gateway, o: string, p: string): Gateway {
    s.(air := s.air.(entries := AfterDelByPrefix(s.air.entries, "connect:" + o + ":" + p + ":")))
  }

  /** The project's app injections are dropped. */
  function DropApps(s: Gateway, o: string, p: string): Gateway {
    s.(air := s.air.(entries := AfterDelByPrefix(s.air.entries, "app_injection:" + o + ":" + p + ":")))
  }

  /** The database changes. */
  function Changed(s: Gateway, db: Db): Gateway {
    s.(air := s.air.(db := db, history := s.air.history + [Snapshot(s.air.now, db)]))
  }

  /** All three are steps. */
  lemma ChangesAreSteps(c: Codecs, s: Gateway, o: string, p: string, db: Db)
    requires s.air.history != []
    ensures Do(c, s, Other(CF.DropResponses(o, p))) == DropResponses(s, o, p)
    ensures Do(c, s, Other(CF.DropApps(o, p))) == DropApps(s, o, p)
    ensures Do(c, s, Other(CF.Advance(s.air.now, db))) == Changed(s, db)
  {
  }

  lemma DropsKeepSourced(c: Codecs, b: Builder, s: Gateway, o: string, p: string)
    requires Sourced(c, b, s) && Faithful(c.connect)
    ensures Sourced(c, b, DropResponses(s, o, p)) && Sourced(c, b, DropApps(s, o, p))
  {
    ChangesAreSteps(c, s, o, p, s.air.db);
    StepKeepsSourced(c, b, s, Other(CF.DropResponses(o, p)));
    StepKeepsSourced(c, b, s, Other(CF.DropApps(o, p)));
  }

  /** The app injections in the cache, by their origins. */
  function Stored(s: Gateway): map<string, CF.AppOrigin> {
    map key | key in s.air.entries && key in s.air.appOrigins :: s.air.appOrigins[key]
  }

  /** Right after the responses are dropped, all is recent but what is under way and the
      injections that are stored. */
  lemma DroppedRowsRecent(s: Gateway, o: string, p: string)
    requires s.air.history != [] && (forall key | key in s.air.entries && "app_injection:" <= key :: HasSource(s, key))
    ensures RowsRecent(DropResponses(s, o, p), o, p, |s.air.history| - 1, UnderWay(s), Stored(s))
    ensures DropResponses(s, o, p).air.history == s.air.history
  {
    var t := DropResponses(s, o, p);
    forall key | key in t.air.entries && "app_injection:" + o + ":" + p + ":" <= key
      ensures InjectionSince(t, key, |s.air.history| - 1, UnderWay(s), Stored(s))
    {
      CF.PrefixKinds(key, o, p);
    }
  }

  /** With the app injections dropped none of them is left. */
  lemma DroppedAppsRecent(s: Gateway, o: string, p: string, from: nat, prior: set<nat>,
                          stored: map<string, CF.AppOrigin>)
    requires s.air.history != [] && from < |s.air.history|
    requires RowsRecent(s, o, p, from, prior, stored)
    ensures RowsRecent(DropApps(s, o, p), o, p, from, prior, map[])
    ensures DropApps(s, o, p).air.history == s.air.history
  {
    var t := DropApps(s, o, p);
    assert t.sources == s.sources && t.held == s.held && t.air.apps == s.air.apps;
    assert BuildsRecent(t, o, p, from, prior);
  }

  lemma EntriesHaveSources(c: Codecs, b: Builder, s: Gateway)
    requires Sourced(c, b, s)
    ensures forall key | key in s.air.entries && "app_injection:" <= key :: HasSource(s, key)
  {
    forall key | key in s.air.entries && "app_injection:" <= key ensures HasSource(s, key) {
      assert CF.EntryOk(c, s.air, key);
      assert StoredOk(b, s, key);
    }
  }

  lemma ServedUnder(o: string, p: string, connectionId: string, host: string, policy: Option<string>)
    ensures "app_injection:" + o + ":" + p + ":" <= AppKey(o, p, connectionId, host, policy)
    ensures "app_injection:" <= AppKey(o, p, connectionId, host, policy)
  {
    AppKeyRest(o, p, connectionId, host, policy);
    CF.PrefixKinds(AppKey(o, p, connectionId, host, policy), o, p);
  }

  lemma ResponsesDropped(c: Codecs, b: Builder, s: Gateway, o: string, p: string)
    requires Sourced(c, b, s) && Faithful(c.connect)
    ensures var t := DropResponses(s, o, p);
            && Sourced(c, b, t) && t.air.history == s.air.history
            && RowsRecent(t, o, p, |s.air.history| - 1, UnderWay(s), Stored(s))
  {
    EntriesHaveSources(c, b, s);
    DroppedRowsRecent(s, o, p);
    DropsKeepSourced(c, b, s, o, p);
  }

  lemma AfterResponses(c: Codecs, b: Builder, s: Gateway, o: string, p: string, v: Gateway)
    requires Sourced(c, b, s) && Faithful(c.connect) && ':' !in o && ':' !in p
    requires Leads(c, b, DropResponses(s, o, p), v)
    ensures Sourced(c, b, v) && |s.air.history| <= |v.air.history|
    ensures RowsRecent(v, o, p, |s.air.history| - 1, UnderWay(s), Stored(s))
  {
    ResponsesDropped(c, b, s, o, p);
    var steps :| Permitted(c, b, DropResponses(s, o, p), steps) && Run(c, DropResponses(s, o, p), steps) == v;
    RunKeepsRows(c, b, DropResponses(s, o, p), steps, o, p, |s.air.history| - 1, UnderWay(s), Stored(s));
  }

  /** After the responses are dropped, a request of the project builds from older rows only if its
      resolution or it itself was under way at the drop. */
  lemma BuildAfterResponses(c: Codecs, b: Builder, s: Gateway, o: string, p: string, v: Gateway, id: nat)
    requires Reachable(c, b, s) && s.air.history != [] && Faithful(c.connect) && ':' !in o && ':' !in p
    requires Leads(c, b, DropResponses(s, o, p), v)
    requires id in v.air.apps && id in v.sources && OfProject(v.sources[id].held, o, p)
    ensures SourceSince(v, id, |s.air.history| - 1, UnderWay(s))
  {
    ReachableSourced(c, b, s);
    AfterResponses(c, b, s, o, p, v);
  }

  lemma AfterApps(c: Codecs, b: Builder, w: Gateway, o: string, p: string, from: nat, prior: set<nat>,
                  stored: map<string, CF.AppOrigin>, v: Gateway)
    requires Sourced(c, b, w) && Faithful(c.connect) && ':' !in o && ':' !in p && from < |w.air.history|
    requires RowsRecent(w, o, p, from, prior, stored)
    requires Leads(c, b, DropApps(w, o, p), v)
    ensures RowsRecent(v, o, p, from, prior, map[])
  {
    DroppedAppsRecent(w, o, p, from, prior, stored);
    DropsKeepSourced(c, b, w, o, p);
    var after :| Permitted(c, b, DropApps(w, o, p), after) && Run(c, DropApps(w, o, p), after) == v;
    RunKeepsRows(c, b, DropApps(w, o, p), after, o, p, from, prior, map[]);
  }

  /** The responses are dropped first and the app injections second: whatever happens in between and
      after, an injection served then was built from a row as old as the first drop at most, or by
      what was under way at that drop. */
  lemma RowAfterResponsesThenApps(
    c: Codecs, b: Builder, s: Gateway, o: string, p: string, w: Gateway, v: Gateway,
    connectionId: string, host: string, policy: Option<string>)
    requires Reachable(c, b, s) && s.air.history != [] && Faithful(c.connect) && ':' !in o && ':' !in p
    requires Leads(c, b, DropResponses(s, o, p), w) && w.air.history != [] && Leads(c, b, DropApps(w, o, p), v)
    requires Serves(c, v, AppKey(o, p, connectionId, host, policy))
    ensures var key := AppKey(o, p, connectionId, host, policy);
            HasSource(v, key) && SourceSince(v, v.air.appOrigins[key].id, |s.air.history| - 1, UnderWay(s))
  {
    ReachableSourced(c, b, s);
    AfterResponses(c, b, s, o, p, w);
    AfterApps(c, b, w, o, p, |s.air.history| - 1, UnderWay(s), Stored(s), v);
    ServedUnder(o, p, connectionId, host, policy);
    assert InjectionSince(v, AppKey(o, p, connectionId, host, policy), |s.air.history| - 1, UnderWay(s), map[]);
  }

  lemma AppsDropped(s: Gateway, o: string, p: string)
    requires s.air.history != []
    ensures CF.AppsRecent(DropApps(s, o, p).air, o, p, |s.air.history| - 1, s.air.apps.Keys)
    ensures DropApps(s, o, p).air.history == s.air.history
  {
  }

  /** Stored after the drop in `s` and still there in `w`, by a build that began after that drop or was
      under way at it. */
  predicate StoredBetween(s: Gateway, w: Gateway, key: string, g: CF.AppOrigin) {
    && key in Stored(w) && Stored(w)[key] == g
    && (|s.air.history| <= g.since + 1 || g.id in s.air.apps)
  }

  /** What the first drop leaves to the second. */
  lemma BetweenDrops(c: Codecs, b: Builder, s: Gateway, o: string, p: string, w: Gateway)
    requires Sourced(c, b, s) && Faithful(c.connect) && Leads(c, b, DropApps(s, o, p), w)
    ensures Sourced(c, b, w) && CF.AppsRecent(w.air, o, p, |s.air.history| - 1, s.air.apps.Keys)
  {
    DropsKeepSourced(c, b, s, o, p);
    AppsDropped(s, o, p);
    var between :| Permitted(c, b, DropApps(s, o, p), between) && Run(c, DropApps(s, o, p), between) == w;
    RunKeepsRecent(c, b, DropApps(s, o, p), between, o, p, |s.air.history| - 1, s.air.apps.Keys);
  }

  /** With nothing between the drops there is no such case. */
  lemma NothingBetween(s: Gateway, o: string, p: string, key: string, g: CF.AppOrigin)
    requires s.air.history != [] && "app_injection:" + o + ":" + p + ":" <= key
    ensures !StoredBetween(s, DropApps(s, o, p), key, g)
  {
  }

  /** The app injections are dropped first and the responses second, as the code does: then there is
      one more case, an injection stored between the drops. */
  lemma RowAfterAppsThenResponses(
    c: Codecs, b: Builder, s: Gateway, o: string, p: string, w: Gateway, v: Gateway,
    connectionId: string, host: string, policy: Option<string>)
    requires Reachable(c, b, s) && s.air.history != [] && Faithful(c.connect) && ':' !in o && ':' !in p
    requires Leads(c, b, DropApps(s, o, p), w) && w.air.history != [] && Leads(c, b, DropResponses(w, o, p), v)
    requires Serves(c, v, AppKey(o, p, connectionId, host, policy))
    ensures var key := AppKey(o, p, connectionId, host, policy);
            && HasSource(v, key)
            && (|| SourceSince(v, v.air.appOrigins[key].id, |w.air.history| - 1, UnderWay(w))
                || (w != DropApps(s, o, p) && StoredBetween(s, w, key, v.air.appOrigins[key])))
  {
    ReachableSourced(c, b, s);
    BetweenDrops(c, b, s, o, p, w);
    ServedUnder(o, p, connectionId, host, policy);
    var key := AppKey(o, p, connectionId, host, policy);
    AfterResponses(c, b, w, o, p, v);
    assert InjectionSince(v, key, |w.air.history| - 1, UnderWay(w), Stored(w));
    if w == DropApps(s, o, p) {
      NothingBetween(s, o, p, key, v.air.appOrigins[key]);
    }
  }

  // ── The order of the drops matters ────────────────────────────────────

  lemma StepLeads(c: Codecs, b: Builder, s: Gateway, step: Step, t: Gateway, u: Gateway)
    requires s.air.history != [] && Enabled(b, s, step) && t == Do(c, s, step) && Leads(c, b, t, u)
    ensures Leads(c, b, s, u)
  {
    var rest :| Permitted(c, b, t, rest) && Run(c, t, rest) == u;
    var steps := [step] + rest;
    assert steps[1..] == rest;
    assert Permitted(c, b, s, steps) && Run(c, s, steps) == u;
  }

  /** The response `r` for the token and the host is in the cache. */
  ghost predicate HasResponse(c: Codecs, w: CF.Air, o: string, p: string, t: string, host: string, r: ConnectResponse) {
    && ':' !in o && ':' !in p && ':' !in t
    && Cached(c.connect, w.entries, ConnectKey(o, p, t, host), w.now) == Some(r)
    && ConnectKey(o, p, t, host) in w.origins
  }

  /** The state with a new request that holds `h`. */
  function Holding(s: Gateway, h: Held): Gateway {
    s.(air := s.air.(nextId := s.air.nextId + 1), held := s.held[s.air.nextId := h])
  }

  lemma HitTaken(c: Codecs, s: Gateway, f: CF.Flight, h: Held)
    requires s.air.history != [] && s.air.flights == map[] && f.stage.Reading?
    requires Cached(c.connect, s.air.entries, CF.KeyOf(f), s.air.now) == Some(h.response)
    requires CF.KeyOf(f) in s.air.origins
    requires h == Held(f.orgId, f.projectId, f.host, h.response, s.air.origins[CF.KeyOf(f)], s.air.now)
    ensures Do(c, s.(air := CF.Begin(s.air, f)), Other(CF.Read(s.air.nextId))) == Holding(s, h)
  {
    assert map[s.air.nextId := f] - {s.air.nextId} == map[];
    assert s.air.flights[s.air.nextId := f] == map[s.air.nextId := f];
  }

  /** A request whose response comes from the cache. */
  lemma Hit(c: Codecs, b: Builder, s: Gateway, o: string, p: string, t: string, host: string, r: ConnectResponse,
            h: Held, u: Gateway)
    requires s.air.history != [] && s.air.flights == map[] && HasResponse(c, s.air, o, p, t, host, r)
    requires h == Held(o, p, host, r, s.air.origins[ConnectKey(o, p, t, host)], s.air.now)
    requires Leads(c, b, Holding(s, h), u)
    ensures Leads(c, b, s, u)
  {
    var f := CF.Flight(o, p, t, host, CF.Last(s.air), None, CF.Reading);
    var begun := s.(air := CF.Begin(s.air, f));
    HitTaken(c, s, f, h);
    StepLeads(c, b, begun, Other(CF.Read(s.air.nextId)), Holding(s, h), u);
    StepLeads(c, b, s, Other(CF.BeginFromCache(o, p, t, host)), begun, u);
  }

  /** The state with build `n` from `src` under way. */
  function WithBuild(s: Gateway, n: nat, src: Source, built: Option<Built>): Gateway
    requires s.air.history != []
  {
    s.(air := s.air.(apps := map[n := CF.AppFlight(SourceKey(src), CF.Last(s.air), built)], nextId := n + 1),
       sources := s.sources[n := src])
  }

  /** The state after build `n` from `src` has been stored. */
  function WithInjection(c: Codecs, s: Gateway, n: nat, src: Source, built: Built): Gateway
    requires s.air.history != []
  {
    s.(air := s.air.(nextId := n + 1,
                     entries := StoreBuilt(c.app, s.air.entries, SourceKey(src), built, s.air.now),
                     appOrigins := s.air.appOrigins[SourceKey(src) :=
                       CF.AppOrigin(n, CF.Last(s.air), s.air.now, built)]),
       sources := s.sources[n := src])
  }

  lemma UseLeads(c: Codecs, b: Builder, s: Gateway, src: Source, u: Gateway)
    requires s.air.history != [] && s.air.apps == map[] && src.request in s.held && src.held == s.held[src.request]
    requires src.held.response.appConnections == [src.row] && src.held.response.injectionRules == []
    requires ':' !in src.row.id && SourceKey(src) !in s.air.entries
    requires Leads(c, b, WithBuild(s, s.air.nextId, src, None), u)
    ensures Leads(c, b, s, u)
  {
    var used := WithBuild(s, s.air.nextId, src, None);
    assert used == Do(c, s, Use(src.request, 0));
    StepLeads(c, b, s, Use(src.request, 0), used, u);
  }

  lemma BuildIsDone(c: Codecs, s: Gateway, n: nat, src: Source, built: Built)
    requires s.air.history != []
    ensures Do(c, WithBuild(s, n, src, None), Build(n, Some(built))) == WithBuild(s, n, src, Some(built))
  {
    var before, after := WithBuild(s, n, src, None), WithBuild(s, n, src, Some(built));
    assert before.air.apps[n := before.air.apps[n].(built := Some(built))] == after.air.apps;
  }

  lemma BuildLeads(c: Codecs, b: Builder, s: Gateway, n: nat, src: Source, built: Built, u: Gateway)
    requires s.air.history != [] && b(src.row, src.held.host, built)
    requires Leads(c, b, WithBuild(s, n, src, Some(built)), u)
    ensures Leads(c, b, WithBuild(s, n, src, None), u)
  {
    BuildIsDone(c, s, n, src, built);
    StepLeads(c, b, WithBuild(s, n, src, None), Build(n, Some(built)), WithBuild(s, n, src, Some(built)), u);
  }

  lemma StoreLeads(c: Codecs, b: Builder, s: Gateway, n: nat, src: Source, built: Built, u: Gateway)
    requires s.air.history != [] && s.air.apps == map[] && AppTtl(built.expiresAt, s.air.now) > 0
    requires Leads(c, b, WithInjection(c, s, n, src, built), u)
    ensures Leads(c, b, WithBuild(s, n, src, Some(built)), u)
  {
    var before, after := WithBuild(s, n, src, Some(built)), WithInjection(c, s, n, src, built);
    assert before.air.apps - {n} == map[];
    assert after == Do(c, before, StoreApp(n));
    StepLeads(c, b, before, StoreApp(n), after, u);
  }

  /** A request that holds `src.held` has stored its injection and finishes. */
  lemma HolderFinishes(c: Codecs, b: Builder, s: Gateway, src: Source, built: Built)
    requires s.air.history != [] && s.held == map[]
    ensures var n := s.air.nextId + 1;
            Leads(c, b, WithInjection(c, Holding(s, src.held), n, src, built), WithInjection(c, s, n, src, built))
  {
    var n, u := s.air.nextId, WithInjection(c, s, s.air.nextId + 1, src, built);
    var stored := WithInjection(c, Holding(s, src.held), n + 1, src, built);
    assert stored.held - {n} == map[];
    assert u == Do(c, stored, Finish(n));
    assert Permitted(c, b, u, []) && Run(c, u, []) == u;
    StepLeads(c, b, stored, Finish(n), u, u);
  }

  /** `src` is the row that a request would take from this cached response, next. */
  ghost predicate WouldUse(c: Codecs, s: Gateway, o: string, p: string, t: string, host: string, r: ConnectResponse,
                           src: Source)
  {
    && HasResponse(c, s.air, o, p, t, host, r) && r.injectionRules == [] && r.appConnections == [src.row]
    && src.held == Held(o, p, host, r, s.air.origins[ConnectKey(o, p, t, host)], s.air.now)
    && src.request == s.air.nextId && ':' !in src.row.id && SourceKey(src) !in s.air.entries
  }

  /** The rest of a request whose build has begun. */
  lemma BuilderLeads(c: Codecs, b: Builder, s: Gateway, n: nat, src: Source, built: Built)
    requires s.air.history != [] && s.held == map[] && s.air.apps == map[] && n == s.air.nextId + 1
    requires b(src.row, src.held.host, built) && AppTtl(built.expiresAt, s.air.now) > 0
    ensures Leads(c, b, WithBuild(Holding(s, src.held), n, src, None), WithInjection(c, s, n, src, built))
  {
    HolderFinishes(c, b, s, src, built);
    StoreLeads(c, b, Holding(s, src.held), n, src, built, WithInjection(c, s, n, src, built));
    BuildLeads(c, b, Holding(s, src.held), n, src, built, WithInjection(c, s, n, src, built));
  }

  /** The rest of a request that holds `src.held`. */
  lemma HolderLeads(c: Codecs, b: Builder, s: Gateway, n: nat, src: Source, built: Built)
    requires s.air.history != [] && s.held == map[] && s.air.apps == map[] && n == s.air.nextId + 1
    requires b(src.row, src.held.host, built) && AppTtl(built.expiresAt, s.air.now) > 0
    requires src.held.response.appConnections == [src.row] && src.held.response.injectionRules == []
    requires src.request == s.air.nextId && ':' !in src.row.id && SourceKey(src) !in s.air.entries
    ensures Leads(c, b, Holding(s, src.held), WithInjection(c, s, n, src, built))
  {
    BuilderLeads(c, b, s, n, src, built);
    UseLeads(c, b, Holding(s, src.held), src, WithInjection(c, s, n, src, built));
  }

  /** With nothing else under way, a request on a cached response with one row and no injection rules
      of its own, from its beginning to its end. */
  lemma RequestLeads(c: Codecs, b: Builder, s: Gateway, o: string, p: string, t: string, host: string,
                     r: ConnectResponse, src: Source, built: Built)
    requires s.air.history != [] && UnderWay(s) == {} && WouldUse(c, s, o, p, t, host, r, src)
    requires b(src.row, host, built) && AppTtl(built.expiresAt, s.air.now) > 0
    ensures Leads(c, b, s, WithInjection(c, s, s.air.nextId + 1, src, built))
    ensures UnderWay(WithInjection(c, s, s.air.nextId + 1, src, built)) == {}
  {
    assert s.air.flights == map[] && s.held == map[] && s.air.apps == map[];
    HolderLeads(c, b, s, s.air.nextId + 1, src, built);
    Hit(c, b, s, o, p, t, host, r, src.held, WithInjection(c, s, s.air.nextId + 1, src, built));
  }

  lemma StillHasResponse(c: Codecs, b: Builder, s: Gateway, db: Db, o: string, p: string, t: string, host: string,
                         r: ConnectResponse)
    requires Sourced(c, b, s) && ':' !in o && ':' !in p && ':' !in t
    requires Cached(c.connect, s.air.entries, ConnectKey(o, p, t, host), s.air.now) == Some(r)
    ensures var d, key := DropApps(Changed(s, db), o, p), ConnectKey(o, p, t, host);
            && d.air.history != [] && UnderWay(d) == UnderWay(s) && d.air.now == s.air.now
            && HasResponse(c, d.air, o, p, t, host, r) && d.air.origins == s.air.origins
            && s.air.origins[key].since < |s.air.history|
  {
    var key := ConnectKey(o, p, t, host);
    CF.KeyUnderProject(o, p, t, host);
    CF.PrefixKinds(key, o, p);
    assert CF.EntryOk(c, s.air, key);
  }

  lemma ChangedAndGone(s: Gateway, db: Db, o: string, p: string, key: string)
    requires "app_injection:" + o + ":" + p + ":" <= key
    ensures var d := DropApps(Changed(s, db), o, p);
            key !in d.air.entries && d.air.history == s.air.history + [Snapshot(s.air.now, db)]
  {
  }

  /** Dropping the responses leaves an injection in the cache. */
  lemma InjectionStays(c: Codecs, s: Gateway, n: nat, src: Source, built: Built, o: string, p: string)
    requires s.air.history != [] && Faithful(c.app) && AppTtl(built.expiresAt, s.air.now) > 0
    ensures var v, key := DropResponses(WithInjection(c, s, n, src, built), o, p), SourceKey(src);
            && Cached(c.app, v.air.entries, key, v.air.now) == Some(built.injection)
            && HasSource(v, key) && v.air.appOrigins[key].id == n && SourceOf(v, key) == src
  {
    var h, key := src.held, SourceKey(src);
    ServedUnder(h.orgId, h.projectId, src.row.id, h.host, src.row.sessionPolicy);
    CF.PrefixKinds(key, o, p);
  }

  /** The cache serves what was built from `row`, which a resolution begun before snapshot `from` gave. */
  ghost predicate OldRowServed(c: Codecs, v: Gateway, o: string, p: string, host: string, row: AppConnectionRow,
                               built: Built, from: nat)
  {
    var key := AppKey(o, p, row.id, host, row.sessionPolicy);
    && Cached(c.app, v.air.entries, key, v.air.now) == Some(built.injection)
    && HasSource(v, key) && SourceOf(v, key).row == row && SourceOf(v, key).held.origin.since < from
  }

  lemma ServedAfterRequest(c: Codecs, d: Gateway, n: nat, src: Source, built: Built, o: string, p: string, from: nat)
    requires d.air.history != [] && Faithful(c.app) && AppTtl(built.expiresAt, d.air.now) > 0
    requires src.held.orgId == o && src.held.projectId == p && src.held.origin.since < from
    ensures OldRowServed(c, DropResponses(WithInjection(c, d, n, src, built), o, p), o, p, src.held.host, src.row,
                         built, from)
  {
    InjectionStays(c, d, n, src, built, o, p);
  }

  /** The request between the drops, and what is served after the second. */
  lemma RequestBetween(c: Codecs, b: Builder, d: Gateway, o: string, p: string, t: string, host: string,
                       r: ConnectResponse, src: Source, built: Built, from: nat) returns (w: Gateway)
    requires d.air.history != [] && UnderWay(d) == {} && WouldUse(c, d, o, p, t, host, r, src)
    requires b(src.row, host, built) && AppTtl(built.expiresAt, d.air.now) > 0
    requires Faithful(c.app) && src.held.origin.since < from
    ensures w.air.history != [] && UnderWay(w) == {} && Leads(c, b, d, w)
    ensures OldRowServed(c, DropResponses(w, o, p), o, p, host, src.row, built, from)
  {
    RequestLeads(c, b, d, o, p, t, host, r, src, built);
    ServedAfterRequest(c, d, d.air.nextId + 1, src, built, o, p, from);
    w := WithInjection(c, d, d.air.nextId + 1, src, built);
  }

  /** The third case is real. Whenever nothing is under way and a response of the project is in the
      cache, with one row from which an injection can be built: however the database changes at that
      moment, between the two drops a request can come and go, and after both of them, with nothing
      under way at either, the cache serves an injection built from the old row. */
  lemma OldRowCanSurvive(
    c: Codecs, b: Builder, s: Gateway, o: string, p: string, t: string, host: string, r: ConnectResponse,
    row: AppConnectionRow, built: Built, db: Db) returns (w: Gateway)
    requires Reachable(c, b, s) && s.air.history != [] && UnderWay(s) == {}
    requires Faithful(c.connect) && Faithful(c.app) && ColonFreeIds(db)
    requires ':' !in o && ':' !in p && ':' !in t && ':' !in row.id
    requires Cached(c.connect, s.air.entries, ConnectKey(o, p, t, host), s.air.now) == Some(r)
    requires r.injectionRules == [] && r.appConnections == [row]
    requires b(row, host, built) && AppTtl(built.expiresAt, s.air.now) > 0
    ensures UnderWay(DropApps(Changed(s, db), o, p)) == {}
    ensures w.air.history != [] && UnderWay(w) == {} && Leads(c, b, DropApps(Changed(s, db), o, p), w)
    ensures OldRowServed(c, DropResponses(w, o, p), o, p, host, row, built, |s.air.history|)
  {
    ReachableSourced(c, b, s);
    StillHasResponse(c, b, s, db, o, p, t, host, r);
    ServedUnder(o, p, row.id, host, row.sessionPolicy);
    ChangedAndGone(s, db, o, p, AppKey(o, p, row.id, host, row.sessionPolicy));
    var d := DropApps(Changed(s, db), o, p);
    var h := Held(o, p, host, r, d.air.origins[ConnectKey(o, p, t, host)], d.air.now);
    w := RequestBetween(c, b, d, o, p, t, host, r, Source(d.air.nextId, h, row), built, |s.air.history|);
  }
}
