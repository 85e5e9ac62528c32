/** Resolution with caching (connect.rs) and its invalidation (gateway.rs). */
module ConnectCache {
  import opened Wrappers
  import opened Text
  import opened PolicyRules
  import opened Cache
  import Inject

  const CACHE_TTL_SECS := 60

  /** A connection to an app as the database has it; the session policy in its rendered form. */
  datatype AppConnectionRow = AppConnectionRow(
    id: string, provider: string, credentials: Option<string>, connectionLabel: Option<string>,
    metadata: Option<Json>, sessionPolicy: Option<string>)

  datatype ConnectResponse = ConnectResponse(
    intercept: bool, injectionRules: seq<Inject.InjectionRule>, appConnections: seq<AppConnectionRow>,
    policyRules: seq<PolicyRule>, agentId: string, policyMode: string)

  datatype CachedAppInjection = CachedAppInjection(
    rules: seq<Inject.InjectionRule>, rewriteHost: Option<string>, connectionLabel: Option<string>)

  datatype AgentRow = AgentRow(id: string, organizationId: string, projectId: string)

  datatype ConnectError = InvalidToken | Internal(message: string)

  /** The database at one moment: the agent of a token, and the full resolution of an agent
      and a host. */
  datatype Db = Db(
    findAgent: string -> Result<AgentRow, ConnectError>,
    resolveUncached: (AgentRow, string) -> Result<ConnectResponse, ConnectError>)

  /** How cached values are written as text and read back. */
  datatype Codec<!T> = Codec(encode: T -> string, decode: string -> Option<T>)

  ghost predicate Faithful<T(!new)>(codec: Codec<T>) {
    forall t :: codec.decode(codec.encode(t)) == Some(t)
  }

  function ConnectKey(orgId: string, projectId: string, agentToken: string, host: string): string {
    "connect:" + orgId + ":" + projectId + ":" + agentToken + ":" + host
  }

  /** The resolution an empty cache would give. */
  function Uncached(db: Db, agentToken: string, host: string): Result<ConnectResponse, ConnectError> {
    match db.findAgent(agentToken)
    case Ok(agent) => db.resolveUncached(agent, host)
    case Err(e) => Err(e)
  }

  /** A typed read: what fails to decode counts as a miss. */
  function Cached<T>(codec: Codec<T>, e: Entries, key: string, now: nat): Option<T> {
    match Live(e, key, now)
    case Some(data) => codec.decode(data)
    case None => None
  }

  function StoreResponse(codec: Codec<ConnectResponse>, e: Entries, key: string,
                         r: Result<ConnectResponse, ConnectError>, now: nat): Entries
  {
    match r
    case Ok(response) => AfterSet(e, key, codec.encode(response), CACHE_TTL_SECS, now)
    case Err(_) => e
  }

  /** Look under `key`; on a miss resolve and store. */
  function LookAside(codec: Codec<ConnectResponse>, db: Db, e: Entries, key: string, agentToken: string,
                     host: string, now: nat)
    : (Result<ConnectResponse, ConnectError>, Entries)
  {
    var read := AfterGet(e, key, now);
    match Cached(codec, e, key, now)
    case Some(response) => (Ok(response), read)
    case None =>
      var r := Uncached(db, agentToken, host);
      (r, StoreResponse(codec, read, key, r, now))
  }

  function ResolveSpec(codec: Codec<ConnectResponse>, db: Db, e: Entries, agentToken: string, host: string, now: nat)
    : (Result<ConnectResponse, ConnectError>, Entries)
  {
    match db.findAgent(agentToken)
    case Ok(agent) =>
      LookAside(codec, db, e, ConnectKey(agent.organizationId, agent.projectId, agentToken, host), agentToken, host,
                now)
    case Err(error) => (Err(error), e)
  }

  method Resolve(codec: Codec<ConnectResponse>, db: Db, cache: InMemoryCacheStore, agentToken: string, host: string,
                 now: nat)
    returns (r: Result<ConnectResponse, ConnectError>)
    modifies cache
    ensures (r, cache.entries) == ResolveSpec(codec, db, old(cache.entries), agentToken, host, now)
  {
    // The agent comes first: its project is part of the key.
    var found := db.findAgent(agentToken);
    if found.Err? {
      return Err(found.error);
    }
    var agent := found.value;
    var key := ConnectKey(agent.organizationId, agent.projectId, agentToken, host);
    var raw := cache.GetRaw(key, now);
    if raw.Some? {
      var cached := codec.decode(raw.value);
      if cached.Some? {
        return Ok(cached.value);
      }
    }
    r := db.resolveUncached(agent, host);
    if r.Ok? {
      cache.SetRaw(key, codec.encode(r.value), CACHE_TTL_SECS, now);
    }
  }

  method ResolveFromCache(
    codec: Codec<ConnectResponse>, db: Db, cache: InMemoryCacheStore,
    orgId: string, projectId: string, agentToken: string, host: string, now: nat)
    returns (r: Result<ConnectResponse, ConnectError>)
    modifies cache
    ensures (r, cache.entries)
         == LookAside(codec, db, old(cache.entries), ConnectKey(orgId, projectId, agentToken, host), agentToken,
                      host, now)
  {
    var key := ConnectKey(orgId, projectId, agentToken, host);
    var raw := cache.GetRaw(key, now);
    if raw.Some? {
      var cached := codec.decode(raw.value);
      if cached.Some? {
        return Ok(cached.value);
      }
    }
    var found := db.findAgent(agentToken);
    if found.Err? {
      return Err(found.error);
    }
    r := db.resolveUncached(found.value, host);
    if r.Ok? {
      cache.SetRaw(key, codec.encode(r.value), CACHE_TTL_SECS, now);
    }
  }

  // ── App injections ────────────────────────────────────────────────────

  /** Rules freshly built from a connection's credentials, with the token's known expiry. */
  datatype Built = Built(injection: CachedAppInjection, expiresAt: Option<int>)

  /** A connection under a session policy is filed apart from the same one without. */
  function PolicySuffix(sessionPolicy: Option<string>): string {
    match sessionPolicy
    case Some(policy) => ":" + policy
    case None => ""
  }

  function AppKey(
    orgId: string, projectId: string, connectionId: string, host: string, sessionPolicy: Option<string>): string
  {
    "app_injection:" + orgId + ":" + projectId + ":" + connectionId + ":" + host + PolicySuffix(sessionPolicy)
  }

  /** The lesser of the cache TTL and the token's remaining life; zero means not cached. */
  function AppTtl(expiresAt: Option<int>, now: nat): nat {
    match expiresAt
    case Some(exp) => if exp <= now then 0 else if exp - now < CACHE_TTL_SECS then exp - now else CACHE_TTL_SECS
    case None => CACHE_TTL_SECS
  }

  function StoreBuilt(codec: Codec<CachedAppInjection>, e: Entries, key: string, b: Built, now: nat): Entries {
    var ttl := AppTtl(b.expiresAt, now);
    if ttl > 0 then AfterSet(e, key, codec.encode(b.injection), ttl, now) else e
  }

  /** `build` is what decryption, token resolution and rule building would give now. */
  function AppSpec(codec: Codec<CachedAppInjection>, e: Entries, key: string, build: Option<Built>, now: nat)
    : (Option<CachedAppInjection>, Entries)
  {
    var read := AfterGet(e, key, now);
    match Cached(codec, e, key, now)
    case Some(injection) => (Some(injection), read)
    case None =>
      match build
      case Some(b) => (Some(b.injection), StoreBuilt(codec, read, key, b, now))
      case None => (None, read)
  }

  method ResolveConnectionInjections(
    codec: Codec<CachedAppInjection>, cache: InMemoryCacheStore, orgId: string, projectId: string,
    connectionId: string, host: string, sessionPolicy: Option<string>, build: Option<Built>, now: nat)
    returns (r: Option<CachedAppInjection>)
    modifies cache
    ensures (r, cache.entries)
         == AppSpec(codec, old(cache.entries), AppKey(orgId, projectId, connectionId, host, sessionPolicy), build, now)
  {
    var policySuffix := match sessionPolicy case Some(policy) => ":" + policy case None => "";
    var key := "app_injection:" + orgId + ":" + projectId + ":" + connectionId + ":" + host + policySuffix;
    var raw := cache.GetRaw(key, now);
    if raw.Some? {
      var cached := codec.decode(raw.value);
      if cached.Some? {
        return cached;
      }
    }
    if build.None? {
      return None;
    }
    var ttl := match build.value.expiresAt
      case Some(exp) => if exp > now then (if exp - now < CACHE_TTL_SECS then exp - now else CACHE_TTL_SECS) else 0
      case None => CACHE_TTL_SECS;
    if ttl > 0 {
      cache.SetRaw(key, codec.encode(build.value.injection), ttl, now);
    }
    return Some(build.value.injection);
  }

  // ── Invalidation ──────────────────────────────────────────────────────

  /** `orgLookup` is the organization found for the project; a failed lookup leaves an empty
      organization in the prefixes. */
  function Invalidated(e: Entries, orgLookup: Option<string>, projectId: string): Entries {
    var orgId := match orgLookup case Some(o) => o case None => "";
    AfterDelByPrefix(AfterDelByPrefix(e, "app_injection:" + orgId + ":" + projectId + ":"),
                     "connect:" + orgId + ":" + projectId + ":")
  }

  method InvalidateCache(cache: InMemoryCacheStore, orgLookup: Option<string>, projectId: string)
    modifies cache
    ensures cache.entries == Invalidated(old(cache.entries), orgLookup, projectId)
  {
    var orgId := match orgLookup case Some(o) => o case None => "";
    cache.DelByPrefix("app_injection:" + orgId + ":" + projectId + ":");
    cache.DelByPrefix("connect:" + orgId + ":" + projectId + ":");
  }

  lemma TwoFields(a: string, b: string, x: string, c: string, d: string, y: string)
    requires ':' !in a && ':' !in b && ':' !in c && ':' !in d
    requires a + ":" + b + ":" + x == c + ":" + d + ":" + y
    ensures a == c && b == d && x == y
  {
    var s, t := b + ":" + x, d + ":" + y;
    assert a + ":" + s == c + ":" + t by {
      assert a + ":" + s == a + ":" + b + ":" + x;
      assert c + ":" + t == c + ":" + d + ":" + y;
    }
    BeforeIs(a, ':', s);
    BeforeIs(c, ':', t);
    assert s == (a + ":" + s)[|a| + 1..] == (c + ":" + t)[|c| + 1..] == t;
    BeforeIs(b, ':', x);
    BeforeIs(d, ':', y);
    assert x == s[|b| + 1..] == t[|d| + 1..] == y;
  }

  /** A prefix of two fields covers exactly the keys with the same two fields. */
  lemma PrefixCovers(kind: string, a: string, b: string, c: string, d: string, rest: string)
    requires ':' !in a && ':' !in b && ':' !in c && ':' !in d
    ensures kind + a + ":" + b + ":" <= kind + c + ":" + d + ":" + rest <==> a == c && b == d
  {
    var prefix, key := kind + a + ":" + b + ":", kind + c + ":" + d + ":" + rest;
    if prefix <= key {
      var x := key[|prefix|..];
      assert key == prefix + x;
      assert key[|kind|..] == c + ":" + d + ":" + rest;
      assert (prefix + x)[|kind|..] == a + ":" + b + ":" + x;
      TwoFields(a, b, x, c, d, rest);
    }
    if a == c && b == d {
      assert key == prefix + rest;
    }
  }

  /** Invalidation removes a response filed under a project and its organization exactly when
      it is asked for that project and the organization lookup succeeded with that one. */
  lemma InvalidationIff(e: Entries, orgLookup: Option<string>, projectId: string,
                        keyOrg: string, keyProject: string, agentToken: string, host: string)
    requires ':' !in projectId && ':' !in keyOrg && ':' !in keyProject && keyOrg != ""
    requires orgLookup.Some? ==> ':' !in orgLookup.value
    requires ConnectKey(keyOrg, keyProject, agentToken, host) in e
    ensures ConnectKey(keyOrg, keyProject, agentToken, host) !in Invalidated(e, orgLookup, projectId)
       <==> orgLookup == Some(keyOrg) && projectId == keyProject
    ensures ConnectKey(keyOrg, keyProject, agentToken, host) in Invalidated(e, orgLookup, projectId) ==>
              Invalidated(e, orgLookup, projectId)[ConnectKey(keyOrg, keyProject, agentToken, host)]
              == e[ConnectKey(keyOrg, keyProject, agentToken, host)]
  {
    var key := ConnectKey(keyOrg, keyProject, agentToken, host);
    var orgId := match orgLookup case Some(o) => o case None => "";
    assert key == "connect:" + keyOrg + ":" + keyProject + ":" + (agentToken + ":" + host);
    PrefixCovers("connect:", orgId, projectId, keyOrg, keyProject, agentToken + ":" + host);
    assert key[0] == 'c' && ("app_injection:" + orgId + ":" + projectId + ":")[0] == 'a';
  }

  lemma AppKeyRest(o: string, p: string, c: string, host: string, policy: Option<string>)
    ensures AppKey(o, p, c, host, policy)
         == "app_injection:" + o + ":" + p + ":" + (c + ":" + host + PolicySuffix(policy))
  {
  }

  /** The same for the app injections of a project. */
  lemma AppInvalidationIff(e: Entries, orgLookup: Option<string>, projectId: string, keyOrg: string,
                           keyProject: string, connectionId: string, host: string, sessionPolicy: Option<string>)
    requires ':' !in projectId && ':' !in keyOrg && ':' !in keyProject && keyOrg != ""
    requires orgLookup.Some? ==> ':' !in orgLookup.value
    requires AppKey(keyOrg, keyProject, connectionId, host, sessionPolicy) in e
    ensures AppKey(keyOrg, keyProject, connectionId, host, sessionPolicy) !in Invalidated(e, orgLookup, projectId)
       <==> orgLookup == Some(keyOrg) && projectId == keyProject
    ensures var key := AppKey(keyOrg, keyProject, connectionId, host, sessionPolicy);
            key in Invalidated(e, orgLookup, projectId) ==> Invalidated(e, orgLookup, projectId)[key] == e[key]
  {
    var key := AppKey(keyOrg, keyProject, connectionId, host, sessionPolicy);
    var orgId := match orgLookup case Some(o) => o case None => "";
    AppKeyRest(keyOrg, keyProject, connectionId, host, sessionPolicy);
    PrefixCovers("app_injection:", orgId, projectId, keyOrg, keyProject,
                 connectionId + ":" + host + PolicySuffix(sessionPolicy));
    assert key[0] == 'a' && ("connect:" + orgId + ":" + projectId + ":")[0] == 'c';
  }

  /** The key belongs to a counter, or to a project of a real organization. */
  ghost predicate Filed(key: string) {
    "rate:" <= key || FiledAs("connect:", key) || FiledAs("app_injection:", key)
  }

  ghost predicate FiledAs(kind: string, key: string) {
    exists o: string, p: string, rest: string ::
      ':' !in o && ':' !in p && o != "" && key == kind + o + ":" + p + ":" + rest
  }

  /** With a failed organization lookup an invalidation removes nothing at all. */
  lemma FailedLookupRemovesNothing(e: Entries, projectId: string)
    requires ':' !in projectId && (forall key | key in e :: Filed(key))
    ensures Invalidated(e, None, projectId) == e
  {
    forall key | key in e ensures key in Invalidated(e, None, projectId) {
      KeptWithoutOrganization(key, projectId);
    }
  }

  lemma KeptWithoutOrganization(key: string, projectId: string)
    requires ':' !in projectId && Filed(key)
    ensures !("app_injection:" + "" + ":" + projectId + ":" <= key)
    ensures !("connect:" + "" + ":" + projectId + ":" <= key)
  {
    assert ("app_injection:" + "" + ":" + projectId + ":")[0] == 'a';
    assert ("connect:" + "" + ":" + projectId + ":")[0] == 'c';
    if "rate:" <= key {
      assert key[0] == 'r';
    } else if FiledAs("connect:", key) {
      var o, p, rest :| ':' !in o && ':' !in p && o != "" && key == "connect:" + o + ":" + p + ":" + rest;
      PrefixCovers("connect:", "", projectId, o, p, rest);
      assert key[0] == 'c';
    } else {
      var o, p, rest :| ':' !in o && ':' !in p && o != "" && key == "app_injection:" + o + ":" + p + ":" + rest;
      PrefixCovers("app_injection:", "", projectId, o, p, rest);
      assert key[0] == 'a';
    }
  }

  lemma AppKeyParts(o: string, p: string, c: string, host: string, policy: Option<string>)
    ensures AppKey(o, p, c, host, policy)
         == "app_injection:" + (o + ":" + p + ":" + (c + ":" + (host + PolicySuffix(policy))))
  {
  }

  /** Two app keys coincide exactly when organization, project and connection agree and so do host
      and policy written one behind the other; colon-free hosts then agree, and policies too. */
  lemma AppKeysCoincideIff(o: string, p: string, c: string, host: string, policy: Option<string>,
                           o': string, p': string, c': string, host': string, policy': Option<string>)
    requires ':' !in o && ':' !in p && ':' !in c && ':' !in o' && ':' !in p' && ':' !in c'
    ensures AppKey(o, p, c, host, policy) == AppKey(o', p', c', host', policy')
       <==> o == o' && p == p' && c == c' && host + PolicySuffix(policy) == host' + PolicySuffix(policy')
    ensures ':' !in host && ':' !in host' && host + PolicySuffix(policy) == host' + PolicySuffix(policy') ==>
              host == host' && policy == policy'
  {
    AppKeyParts(o, p, c, host, policy);
    AppKeyParts(o', p', c', host', policy');
    var x, y := host + PolicySuffix(policy), host' + PolicySuffix(policy');
    if AppKey(o, p, c, host, policy) == AppKey(o', p', c', host', policy') {
      var n, key := |"app_injection:"|, AppKey(o, p, c, host, policy);
      assert key[n..] == o + ":" + p + ":" + (c + ":" + x);
      assert key[n..] == o' + ":" + p' + ":" + (c' + ":" + y);
      TwoFields(o, p, c + ":" + x, o', p', c' + ":" + y);
      BeforeIs(c, ':', x);
      BeforeIs(c', ':', y);
      assert (c + ":" + x)[|c| + 1..] == x && (c' + ":" + y)[|c'| + 1..] == y;
    }
    if ':' !in host && ':' !in host' && x == y {
      HostBefore(host, policy);
      HostBefore(host', policy');
      assert x[|host|..] == PolicySuffix(policy) && y[|host'|..] == PolicySuffix(policy');
      assert policy.Some? ==> PolicySuffix(policy)[1..] == policy.value;
      assert policy'.Some? ==> PolicySuffix(policy')[1..] == policy'.value;
    }
  }

  lemma AddedBehind(a: string, b: string, c: string)
    ensures a + (b + c) == a + b + c && a + "" == a
  {
  }

  lemma HostBefore(host: string, policy: Option<string>)
    requires ':' !in host
    ensures Before(host + PolicySuffix(policy), ':') == host
  {
    match policy
    case Some(value) =>
      BeforeIs(host, ':', value);
      AddedBehind(host, ":", value);
    case None =>
      BeforeIs(host, ':', "");
      AddedBehind(host, "", "");
  }

  /** After a successful invalidation the next resolution is fresh. */
  lemma FreshAfterInvalidation(codec: Codec<ConnectResponse>, db: Db, e: Entries, agent: AgentRow,
                               agentToken: string, host: string, now: nat)
    requires db.findAgent(agentToken) == Ok(agent)
    ensures var f := Invalidated(e, Some(agent.organizationId), agent.projectId);
            ResolveSpec(codec, db, f, agentToken, host, now).0 == Uncached(db, agentToken, host)
  {
    var f := Invalidated(e, Some(agent.organizationId), agent.projectId);
    var key := ConnectKey(agent.organizationId, agent.projectId, agentToken, host);
    var prefix := "connect:" + agent.organizationId + ":" + agent.projectId + ":";
    assert key == prefix + (agentToken + ":" + host);
    assert key !in f;
  }

  // ── Agreement over whole runs ─────────────────────────────────────────

  /** The database at a moment in time. */
  datatype Snapshot = Snapshot(time: nat, db: Db)

  /** Rules built at a moment and filed under a key. */
  datatype BuildRecord = BuildRecord(time: nat, key: string, built: Built)

  /** `history` ends with the present database; `builds` records every fresh build. */
  datatype World = World(
    now: nat, db: Db, entries: Entries, history: seq<Snapshot>, builds: seq<BuildRecord>)

  datatype Codecs = Codecs(connect: Codec<ConnectResponse>, app: Codec<CachedAppInjection>)

  datatype Step =
    | Advance(now: nat, db: Db)
    | DoResolve(agentToken: string, host: string)
    | DoResolveFromCache(orgId: string, projectId: string, agentToken: string, host: string)
    | DoAppInjection(orgId: string, projectId: string, connectionId: string, host: string,
                     sessionPolicy: Option<string>, build: Option<Built>)
    | DoInvalidate(orgLookup: Option<string>, projectId: string)
    | DoCount(key: string, ttl: nat)

  ghost predicate ColonFreeIds(db: Db) {
    forall t | db.findAgent(t).Ok? ::
      ':' !in db.findAgent(t).value.organizationId && ':' !in db.findAgent(t).value.projectId
  }

  ghost predicate Enabled(w: World, step: Step) {
    match step
    case Advance(now, db) => w.now <= now && ColonFreeIds(db)
    case DoResolve(t, _) => ':' !in t
    case DoResolveFromCache(o, p, t, _) => ':' !in o && ':' !in p && ':' !in t
    case DoAppInjection(o, p, c, _, _, _) => ':' !in o && ':' !in p && ':' !in c
    case DoInvalidate(_, _) => true
    case DoCount(key, _) => "rate:" <= key
  }

  /** A build is recorded when the cache did not answer. */
  function BuildsAfter(c: Codecs, w: World, key: string, build: Option<Built>): seq<BuildRecord> {
    if Cached(c.app, w.entries, key, w.now).None? && build.Some?
    then w.builds + [BuildRecord(w.now, key, build.value)] else w.builds
  }

  function DoApp(c: Codecs, w: World, key: string, build: Option<Built>): World {
    w.(entries := AppSpec(c.app, w.entries, key, build, w.now).1, builds := BuildsAfter(c, w, key, build))
  }

  function Do(c: Codecs, w: World, step: Step): World {
    match step
    case Advance(now, db) => World(now, db, w.entries, w.history + [Snapshot(now, db)], w.builds)
    case DoResolve(t, host) => w.(entries := ResolveSpec(c.connect, w.db, w.entries, t, host, w.now).1)
    case DoResolveFromCache(o, p, t, host) =>
      w.(entries := LookAside(c.connect, w.db, w.entries, ConnectKey(o, p, t, host), t, host, w.now).1)
    case DoAppInjection(o, p, connection, host, policy, build) =>
      DoApp(c, w, AppKey(o, p, connection, host, policy), build)
    case DoInvalidate(orgLookup, projectId) => w.(entries := Invalidated(w.entries, orgLookup, projectId))
    case DoCount(key, ttl) => w.(entries := w.entries[key := Bumped(w.entries, key, ttl, w.now)])
  }

  /** `snap` is a database whose own resolution is `data`, to be served until `expiresAt`. */
  ghost predicate Explains(codec: Codec<ConnectResponse>, snap: Snapshot, agentToken: string, host: string,
                           entry: Entry) {
    && entry.expiresAt == snap.time + CACHE_TTL_SECS
    && Uncached(snap.db, agentToken, host).Ok?
    && entry.data == codec.encode(Uncached(snap.db, agentToken, host).value)
  }

  /** The entry under a connect key is what some database of the past gave for the token and
      the host of that key. */
  ghost predicate ConnectEntryOk(codec: Codec<ConnectResponse>, history: seq<Snapshot>, key: string, entry: Entry) {
    exists i, o, p, t, host ::
      && 0 <= i < |history|
      && ':' !in o && ':' !in p && ':' !in t && key == ConnectKey(o, p, t, host)
      && Explains(codec, history[i], t, host, entry)
  }

  /** The entry under an app key was built while its token was alive, and outlives neither a
      minute nor the token. */
  ghost predicate AppEntryOk(codec: Codec<CachedAppInjection>, builds: seq<BuildRecord>, key: string, entry: Entry) {
    exists i :: 0 <= i < |builds| && builds[i].key == key && BuiltAs(codec, builds[i], entry)
  }

  predicate BuiltAs(codec: Codec<CachedAppInjection>, b: BuildRecord, entry: Entry) {
    && entry.data == codec.encode(b.built.injection)
    && entry.expiresAt <= b.time + CACHE_TTL_SECS
    && (b.built.expiresAt.Some? ==> entry.expiresAt <= b.built.expiresAt.value)
  }

  ghost predicate EntryOk(c: Codecs, w: World, key: string) {
    key in w.entries ==>
      && ("connect:" <= key ==> ConnectEntryOk(c.connect, w.history, key, w.entries[key]))
      && ("app_injection:" <= key ==> AppEntryOk(c.app, w.builds, key, w.entries[key]))
  }

  ghost predicate Consistent(c: Codecs, w: World) {
    && ColonFreeIds(w.db)
    && w.history != [] && w.history[|w.history| - 1] == Snapshot(w.now, w.db)
    && (forall i | 0 <= i < |w.history| :: w.history[i].time <= w.now)
    && (forall i | 0 <= i < |w.builds| :: w.builds[i].time <= w.now)
    && (forall key | key in w.entries :: EntryOk(c, w, key))
  }

  /** An entry that is kept stays explained as the records grow. */
  lemma EntryStays(c: Codecs, w: World, v: World, key: string)
    requires EntryOk(c, w, key) && w.history <= v.history && w.builds <= v.builds
    requires key in v.entries ==> key in w.entries && v.entries[key] == w.entries[key]
    ensures EntryOk(c, v, key)
  {
    if key in v.entries {
      var entry := w.entries[key];
      if "connect:" <= key {
        var i, o, p, t, host :| && 0 <= i < |w.history|
          && ':' !in o && ':' !in p && ':' !in t && key == ConnectKey(o, p, t, host)
          && Explains(c.connect, w.history[i], t, host, entry);
        assert v.history[i] == w.history[i];
      }
      if "app_injection:" <= key {
        var i :| 0 <= i < |w.builds| && w.builds[i].key == key && BuiltAs(c.app, w.builds[i], entry);
        assert v.builds[i] == w.builds[i];
      }
    }
  }

  lemma LookAsideKeepsConsistent(c: Codecs, w: World, o: string, p: string, t: string, host: string)
    requires Consistent(c, w) && ':' !in o && ':' !in p && ':' !in t
    ensures var entries := LookAside(c.connect, w.db, w.entries, ConnectKey(o, p, t, host), t, host, w.now).1;
            Consistent(c, w.(entries := entries))
  {
    var key := ConnectKey(o, p, t, host);
    var v := w.(entries := LookAside(c.connect, w.db, w.entries, key, t, host, w.now).1);
    forall other | other in v.entries ensures EntryOk(c, v, other) {
      if other != key || (key in w.entries && v.entries[key] == w.entries[key]) {
        EntryStays(c, w, v, other);
      } else {
        assert Explains(c.connect, v.history[|v.history| - 1], t, host, v.entries[key]);
        assert key[0] == 'c';
      }
    }
  }

  lemma AppKeepsConsistent(c: Codecs, w: World, key: string, build: Option<Built>)
    requires Consistent(c, w) && "app_injection:" <= key
    ensures Consistent(c, DoApp(c, w, key, build))
  {
    var v := DoApp(c, w, key, build);
    forall other | other in v.entries ensures EntryOk(c, v, other) {
      if other != key || (key in w.entries && v.entries[key] == w.entries[key]) {
        EntryStays(c, w, v, other);
      } else {
        assert v.builds[|w.builds|] == BuildRecord(w.now, key, build.value);
        assert BuiltAs(c.app, v.builds[|w.builds|], v.entries[key]);
        assert key[0] == 'a';
      }
    }
  }

  lemma StepKeepsConsistent(c: Codecs, w: World, step: Step)
    requires Consistent(c, w) && Enabled(w, step)
    ensures Consistent(c, Do(c, w, step))
  {
    var v := Do(c, w, step);
    match step {
      case DoResolve(t, host) =>
        if w.db.findAgent(t).Ok? {
          var agent := w.db.findAgent(t).value;
          LookAsideKeepsConsistent(c, w, agent.organizationId, agent.projectId, t, host);
        }
      case DoResolveFromCache(o, p, t, host) => LookAsideKeepsConsistent(c, w, o, p, t, host);
      case DoAppInjection(o, p, connection, host, policy, build) =>
        AppKeyParts(o, p, connection, host, policy);
        AppKeepsConsistent(c, w, AppKey(o, p, connection, host, policy), build);
      case DoCount(key, _) =>
        forall other | other in v.entries ensures EntryOk(c, v, other) {
          if other != key {
            EntryStays(c, w, v, other);
          } else {
            assert key[0] == 'r';
          }
        }
      case _ =>
        forall other | other in v.entries ensures EntryOk(c, v, other) {
          EntryStays(c, w, v, other);
        }
    }
  }

  ghost predicate Permitted(c: Codecs, w: World, steps: seq<Step>)
    decreases |steps|
  {
    steps == [] || (Enabled(w, steps[0]) && Permitted(c, Do(c, w, steps[0]), steps[1..]))
  }

  function Run(c: Codecs, w: World, steps: seq<Step>): World
    decreases |steps|
  {
    if steps == [] then w else Run(c, Do(c, w, steps[0]), steps[1..])
  }

  function Start(now: nat, db: Db): World {
    World(now, db, map[], [Snapshot(now, db)], [])
  }

  lemma {:induction false} RunKeepsConsistent(c: Codecs, w: World, steps: seq<Step>)
    requires Consistent(c, w) && Permitted(c, w, steps)
    ensures Consistent(c, Run(c, w, steps))
    decreases |steps|
  {
    if steps != [] {
      StepKeepsConsistent(c, w, steps[0]);
      RunKeepsConsistent(c, Do(c, w, steps[0]), steps[1..]);
    }
  }

  /** A world some run leads to from an empty cache. */
  ghost predicate Reachable(c: Codecs, w: World) {
    exists now: nat, db, steps ::
      ColonFreeIds(db) && Permitted(c, Start(now, db), steps) && w == Run(c, Start(now, db), steps)
  }

  lemma ReachableConsistent(c: Codecs, w: World)
    requires Reachable(c, w)
    ensures Consistent(c, w)
  {
    var now: nat, db, steps :|
      ColonFreeIds(db) && Permitted(c, Start(now, db), steps) && w == Run(c, Start(now, db), steps);
    RunKeepsConsistent(c, Start(now, db), steps);
  }

  lemma ConnectKeyInjective(o: string, p: string, t: string, h: string, o': string, p': string, t': string, h': string)
    requires ':' !in o && ':' !in p && ':' !in t && ':' !in o' && ':' !in p' && ':' !in t'
    requires ConnectKey(o, p, t, h) == ConnectKey(o', p', t', h')
    ensures t == t' && h == h'
  {
    var x, y := t + ":" + h, t' + ":" + h';
    var k := ConnectKey(o, p, t, h);
    assert k[|"connect:"|..] == o + ":" + p + ":" + x;
    assert k[|"connect:"|..] == o' + ":" + p' + ":" + y;
    TwoFields(o, p, x, o', p', y);
    BeforeIs(t, ':', h);
    BeforeIs(t', ':', h');
    assert h == x[|t| + 1..] && h' == y[|t'| + 1..];
  }

  /** `r` is what an uncached resolution gave at some moment of the last minute. */
  ghost predicate RecentlyTrue(w: World, agentToken: string, host: string, r: ConnectResponse) {
    exists i :: && 0 <= i < |w.history|
                && w.history[i].time <= w.now < w.history[i].time + CACHE_TTL_SECS
                && Uncached(w.history[i].db, agentToken, host) == Ok(r)
  }

  /** In every reachable state, what a lookup answers was the uncached answer at some moment of
      the last 60 seconds, and an error is the uncached answer now. */
  lemma AnswersAreRecent(c: Codecs, w: World, o: string, p: string, t: string, host: string)
    requires Reachable(c, w) && Faithful(c.connect) && ':' !in o && ':' !in p && ':' !in t
    ensures match LookAside(c.connect, w.db, w.entries, ConnectKey(o, p, t, host), t, host, w.now).0
            case Ok(r) => RecentlyTrue(w, t, host, r)
            case Err(e) => Uncached(w.db, t, host) == Err(e)
  {
    ReachableConsistent(c, w);
    var key := ConnectKey(o, p, t, host);
    var last := w.history[|w.history| - 1];
    if Cached(c.connect, w.entries, key, w.now).Some? {
      var entry := w.entries[key];
      assert EntryOk(c, w, key);
      var i, o', p', t', host' :| && 0 <= i < |w.history|
        && ':' !in o' && ':' !in p' && ':' !in t' && key == ConnectKey(o', p', t', host')
        && Explains(c.connect, w.history[i], t', host', entry);
      ConnectKeyInjective(o, p, t, host, o', p', t', host');
      assert w.history[i].time <= w.now < w.history[i].time + CACHE_TTL_SECS;
    }
  }

  /** The same for `resolve`, which also refuses a revoked token at once. */
  lemma ResolveIsRecent(c: Codecs, w: World, t: string, host: string)
    requires Reachable(c, w) && Faithful(c.connect) && ':' !in t
    ensures match ResolveSpec(c.connect, w.db, w.entries, t, host, w.now).0
            case Ok(r) => w.db.findAgent(t).Ok? && RecentlyTrue(w, t, host, r)
            case Err(e) => Uncached(w.db, t, host) == Err(e)
  {
    ReachableConsistent(c, w);
    if w.db.findAgent(t).Ok? {
      var agent := w.db.findAgent(t).value;
      AnswersAreRecent(c, w, agent.organizationId, agent.projectId, t, host);
    }
  }

  /** An app injection answered from the cache was built less than 60 seconds ago, for the same
      key, with a token that has not reached its known expiry. */
  lemma CachedInjectionsAreAlive(c: Codecs, w: World, key: string)
    requires Reachable(c, w) && Faithful(c.app) && "app_injection:" <= key
    requires Cached(c.app, w.entries, key, w.now).Some?
    ensures exists i :: && 0 <= i < |w.builds| && w.builds[i].key == key
              && w.builds[i].built.injection == Cached(c.app, w.entries, key, w.now).value
              && w.builds[i].time <= w.now < w.builds[i].time + CACHE_TTL_SECS
              && (w.builds[i].built.expiresAt.Some? ==> w.now < w.builds[i].built.expiresAt.value)
  {
    ReachableConsistent(c, w);
    assert EntryOk(c, w, key);
    var i :| 0 <= i < |w.builds| && w.builds[i].key == key && BuiltAs(c.app, w.builds[i], w.entries[key]);
  }

  /** A stored text that has not expired and reads as an app injection. */
  predicate LiveInjection(codec: Codec<CachedAppInjection>, e: Entries, key: string, now: nat) {
    key in e && now < e[key].expiresAt && codec.decode(e[key].data).Some?
  }

  /** `injection` was built for the key less than 60 seconds ago, with a token that is alive. */
  ghost predicate RecentlyBuilt(w: World, key: string, injection: CachedAppInjection) {
    exists i :: && 0 <= i < |w.builds| && w.builds[i].key == key && w.builds[i].built.injection == injection
                && w.builds[i].time <= w.now < w.builds[i].time + 60
                && (w.builds[i].built.expiresAt.Some? ==> w.now < w.builds[i].built.expiresAt.value)
  }

  /** In every reachable state a request for a connection's injections is answered exactly when one
      is in the cache or a build succeeds: from the cache with a recent build for the very key, and
      otherwise with what was built just now. */
  lemma InjectionAnswers(c: Codecs, w: World, o: string, p: string, connectionId: string, host: string,
                         policy: Option<string>, build: Option<Built>)
    requires Reachable(c, w) && Faithful(c.app)
    ensures var key := AppKey(o, p, connectionId, host, policy);
            var answer := AppSpec(c.app, w.entries, key, build, w.now).0;
            && (answer.Some? <==> LiveInjection(c.app, w.entries, key, w.now) || build.Some?)
            && (LiveInjection(c.app, w.entries, key, w.now) ==> RecentlyBuilt(w, key, answer.value))
            && (!LiveInjection(c.app, w.entries, key, w.now) && build.Some? ==> answer == Some(build.value.injection))
  {
    var key := AppKey(o, p, connectionId, host, policy);
    AppKeyParts(o, p, connectionId, host, policy);
    if LiveInjection(c.app, w.entries, key, w.now) {
      CachedInjectionsAreAlive(c, w, key);
    }
  }

  /** What was built is answered again, without a build, until 60 seconds have passed or its token
      runs out, and not a second longer, if nothing else touches its entry. */
  lemma BuiltIsServedAgain(codec: Codec<CachedAppInjection>, e: Entries, key: string, b: Built, now: nat,
                           f: Entries, later: nat)
    requires Faithful(codec) && !LiveInjection(codec, e, key, now) && now <= later
    requires var g := AppSpec(codec, e, key, Some(b), now).1; key in f <==> key in g
    requires var g := AppSpec(codec, e, key, Some(b), now).1; key in g ==> f[key] == g[key]
    ensures AppSpec(codec, f, key, None, later).0
         == if (if b.expiresAt.Some? && b.expiresAt.value < now + 60 then later < b.expiresAt.value
                else later < now + 60)
            then Some(b.injection) else None
  {
  }

  /** A response is stored by the resolution that missed it, and answered from the cache, whatever the
      database says then, for exactly 60 seconds, if nothing else touches its entry. */
  lemma ResponseIsServedAgain(codec: Codec<ConnectResponse>, db: Db, e: Entries, key: string, t: string, host: string,
                              now: nat, f: Entries, later: nat, laterDb: Db)
    requires Faithful(codec) && Cached(codec, e, key, now).None? && Uncached(db, t, host).Ok? && now <= later
    requires var g := LookAside(codec, db, e, key, t, host, now).1; key in f && key in g && f[key] == g[key]
    ensures LookAside(codec, laterDb, f, key, t, host, later).0
         == if later < now + 60 then Uncached(db, t, host) else Uncached(laterDb, t, host)
  {
  }
}
