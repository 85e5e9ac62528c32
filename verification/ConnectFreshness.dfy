/** What the cache answers for a project in the time after an invalidation (gateway.rs and
    connect.rs), over whole runs. */
module ConnectFreshness {
  import opened Wrappers
  import opened ConnectCache

  /** The response under a key of project `p` comes from the snapshot at `from` or a later one. */
  ghost predicate ConnectSince(c: Codecs, w: World, o: string, p: string, from: nat, key: string)
    requires key in w.entries
  {
    exists i, t, host ::
      && from <= i < |w.history| && ':' !in t && key == ConnectKey(o, p, t, host)
      && Explains(c.connect, w.history[i], t, host, w.entries[key])
  }

  /** The injection under a key was built no earlier than the build at `from`. */
  ghost predicate AppSince(c: Codecs, w: World, from: nat, key: string)
    requires key in w.entries
  {
    exists i :: from <= i < |w.builds| && w.builds[i].key == key && BuiltAs(c.app, w.builds[i], w.entries[key])
  }

  /** All that is filed for project `p` of organization `o` is that recent. */
  ghost predicate FreshSince(c: Codecs, w: World, o: string, p: string, snapshot: nat, build: nat) {
    && snapshot < |w.history| && build <= |w.builds|
    && (forall key | key in w.entries && "connect:" + o + ":" + p + ":" <= key ::
          ConnectSince(c, w, o, p, snapshot, key))
    && (forall key | key in w.entries && "app_injection:" + o + ":" + p + ":" <= key :: AppSince(c, w, build, key))
  }

  lemma KindsApart(o: string, p: string, key: string)
    ensures "connect:" + o + ":" + p + ":" <= key ==> key[0] == 'c'
    ensures "app_injection:" + o + ":" + p + ":" <= key ==> key[0] == 'a'
  {
    assert ("connect:" + o + ":" + p + ":")[0] == 'c' && ("app_injection:" + o + ":" + p + ":")[0] == 'a';
  }

  /** An entry that is kept is as recent as before. */
  lemma KeptStaysFresh(c: Codecs, w: World, v: World, o: string, p: string, snapshot: nat, build: nat, key: string)
    requires FreshSince(c, w, o, p, snapshot, build) && w.history <= v.history && w.builds <= v.builds
    requires key in v.entries && key in w.entries && v.entries[key] == w.entries[key]
    ensures "connect:" + o + ":" + p + ":" <= key ==> ConnectSince(c, v, o, p, snapshot, key)
    ensures "app_injection:" + o + ":" + p + ":" <= key ==> AppSince(c, v, build, key)
  {
    if "connect:" + o + ":" + p + ":" <= key {
      var i, t, host :| && snapshot <= i < |w.history| && ':' !in t && key == ConnectKey(o, p, t, host)
        && Explains(c.connect, w.history[i], t, host, w.entries[key]);
      assert v.history[i] == w.history[i];
    }
    if "app_injection:" + o + ":" + p + ":" <= key {
      var i :| build <= i < |w.builds| && w.builds[i].key == key && BuiltAs(c.app, w.builds[i], w.entries[key]);
      assert v.builds[i] == w.builds[i];
    }
  }

  lemma LookAsideKeepsFresh(
    c: Codecs, w: World, o: string, p: string, snapshot: nat, build: nat, a: string, b: string, t: string, host: string)
    requires Consistent(c, w) && FreshSince(c, w, o, p, snapshot, build)
    requires ':' !in o && ':' !in p && ':' !in a && ':' !in b && ':' !in t
    ensures var entries := LookAside(c.connect, w.db, w.entries, ConnectKey(a, b, t, host), t, host, w.now).1;
            FreshSince(c, w.(entries := entries), o, p, snapshot, build)
  {
    var key := ConnectKey(a, b, t, host);
    var v := w.(entries := LookAside(c.connect, w.db, w.entries, key, t, host, w.now).1);
    forall k | k in v.entries
      ensures "connect:" + o + ":" + p + ":" <= k ==> ConnectSince(c, v, o, p, snapshot, k)
      ensures "app_injection:" + o + ":" + p + ":" <= k ==> AppSince(c, v, build, k)
    {
      KindsApart(o, p, k);
      if k in w.entries && v.entries[k] == w.entries[k] {
        KeptStaysFresh(c, w, v, o, p, snapshot, build, k);
      } else {
        assert key[0] == 'c' && key == "connect:" + a + ":" + b + ":" + (t + ":" + host);
        PrefixCovers("connect:", o, p, a, b, t + ":" + host);
        assert Explains(c.connect, v.history[|v.history| - 1], t, host, v.entries[key]);
      }
    }
  }

  lemma AppKeepsFresh(
    c: Codecs, w: World, o: string, p: string, snapshot: nat, build: nat, key: string, built: Option<Built>)
    requires FreshSince(c, w, o, p, snapshot, build) && "app_injection:" <= key
    ensures FreshSince(c, DoApp(c, w, key, built), o, p, snapshot, build)
  {
    var v := DoApp(c, w, key, built);
    forall k | k in v.entries
      ensures "connect:" + o + ":" + p + ":" <= k ==> ConnectSince(c, v, o, p, snapshot, k)
      ensures "app_injection:" + o + ":" + p + ":" <= k ==> AppSince(c, v, build, k)
    {
      KindsApart(o, p, k);
      if k in w.entries && v.entries[k] == w.entries[k] {
        KeptStaysFresh(c, w, v, o, p, snapshot, build, k);
      } else {
        assert key[0] == 'a';
        assert v.builds[|w.builds|] == BuildRecord(w.now, key, built.value);
        assert BuiltAs(c.app, v.builds[|w.builds|], v.entries[key]);
      }
    }
  }

  /** A step that only drops entries, counts, or moves on in time. */
  lemma OtherStepKeepsFresh(c: Codecs, w: World, o: string, p: string, snapshot: nat, build: nat, step: Step)
    requires FreshSince(c, w, o, p, snapshot, build) && Enabled(w, step)
    requires step.Advance? || step.DoInvalidate? || step.DoCount?
    ensures FreshSince(c, Do(c, w, step), o, p, snapshot, build)
  {
    var v := Do(c, w, step);
    forall k | k in v.entries
      ensures "connect:" + o + ":" + p + ":" <= k ==> ConnectSince(c, v, o, p, snapshot, k)
      ensures "app_injection:" + o + ":" + p + ":" <= k ==> AppSince(c, v, build, k)
    {
      KindsApart(o, p, k);
      if k in w.entries && v.entries[k] == w.entries[k] {
        KeptStaysFresh(c, w, v, o, p, snapshot, build, k);
      } else {
        assert k[0] == 'r';
      }
    }
  }

  lemma StepKeepsFresh(c: Codecs, w: World, o: string, p: string, snapshot: nat, build: nat, step: Step)
    requires Consistent(c, w) && FreshSince(c, w, o, p, snapshot, build) && Enabled(w, step)
    requires ':' !in o && ':' !in p
    ensures FreshSince(c, Do(c, w, step), o, p, snapshot, build)
  {
    match step {
      case DoResolve(t, host) =>
        if w.db.findAgent(t).Ok? {
          var agent := w.db.findAgent(t).value;
          LookAsideKeepsFresh(c, w, o, p, snapshot, build, agent.organizationId, agent.projectId, t, host);
        }
      case DoResolveFromCache(a, b, t, host) => LookAsideKeepsFresh(c, w, o, p, snapshot, build, a, b, t, host);
      case DoAppInjection(a, b, connection, host, policy, built) =>
        AppKeyParts(a, b, connection, host, policy);
        AppKeepsFresh(c, w, o, p, snapshot, build, AppKey(a, b, connection, host, policy), built);
      case _ => OtherStepKeepsFresh(c, w, o, p, snapshot, build, step);
    }
  }

  lemma {:induction false} RunKeepsFresh(
    c: Codecs, w: World, o: string, p: string, snapshot: nat, build: nat, steps: seq<Step>)
    requires Consistent(c, w) && FreshSince(c, w, o, p, snapshot, build) && Permitted(c, w, steps)
    requires ':' !in o && ':' !in p
    ensures FreshSince(c, Run(c, w, steps), o, p, snapshot, build)
    decreases |steps|
  {
    if steps != [] {
      StepKeepsConsistent(c, w, steps[0]);
      StepKeepsFresh(c, w, o, p, snapshot, build, steps[0]);
      RunKeepsFresh(c, Do(c, w, steps[0]), o, p, snapshot, build, steps[1..]);
    }
  }

  /** Right after an invalidation nothing is filed for the project. */
  lemma InvalidatedIsFresh(c: Codecs, w: World, o: string, p: string)
    requires Consistent(c, w)
    ensures var v := Do(c, w, DoInvalidate(Some(o), p));
            Consistent(c, v) && FreshSince(c, v, o, p, |w.history| - 1, |w.builds|)
  {
    StepKeepsConsistent(c, w, DoInvalidate(Some(o), p));
  }

  /** `v` is a world some permitted steps after an invalidation of project `p` in `w`. */
  ghost predicate After(c: Codecs, w: World, o: string, p: string, steps: seq<Step>, v: World) {
    && Permitted(c, Do(c, w, DoInvalidate(Some(o), p)), steps)
    && v == Run(c, Do(c, w, DoInvalidate(Some(o), p)), steps)
  }

  lemma FreshAfter(c: Codecs, w: World, o: string, p: string, steps: seq<Step>, v: World)
    requires Reachable(c, w) && ':' !in o && ':' !in p && After(c, w, o, p, steps, v)
    ensures |w.history| >= 1 && Consistent(c, v) && FreshSince(c, v, o, p, |w.history| - 1, |w.builds|)
  {
    ReachableConsistent(c, w);
    InvalidatedIsFresh(c, w, o, p);
    RunKeepsConsistent(c, Do(c, w, DoInvalidate(Some(o), p)), steps);
    RunKeepsFresh(c, Do(c, w, DoInvalidate(Some(o), p)), o, p, |w.history| - 1, |w.builds|, steps);
  }

  /** `r` is the uncached answer of the snapshot at `from` or a later one, in the last minute. */
  ghost predicate TrueSince(w: World, from: nat, agentToken: string, host: string, r: ConnectResponse) {
    exists i :: && from <= i < |w.history|
                && w.history[i].time <= w.now < w.history[i].time + CACHE_TTL_SECS
                && Uncached(w.history[i].db, agentToken, host) == Ok(r)
  }

  /** After a project's invalidation every answer for it, at any later time and whatever ran in
      between, is the uncached answer of a database no older than the one at the invalidation. */
  lemma AnswersAfterInvalidation(
    c: Codecs, w: World, o: string, p: string, steps: seq<Step>, v: World, t: string, host: string)
    requires Reachable(c, w) && Faithful(c.connect) && After(c, w, o, p, steps, v)
    requires ':' !in o && ':' !in p && ':' !in t
    ensures |w.history| >= 1
    ensures match LookAside(c.connect, v.db, v.entries, ConnectKey(o, p, t, host), t, host, v.now).0
            case Ok(r) => TrueSince(v, |w.history| - 1, t, host, r)
            case Err(e) => Uncached(v.db, t, host) == Err(e)
  {
    ReachableConsistent(c, w);
    FreshAfter(c, w, o, p, steps, v);
    var key := ConnectKey(o, p, t, host);
    var last := v.history[|v.history| - 1];
    if Cached(c.connect, v.entries, key, v.now).Some? {
      assert key == "connect:" + o + ":" + p + ":" + (t + ":" + host);
      assert ConnectSince(c, v, o, p, |w.history| - 1, key);
      var i, t', host' :| |w.history| - 1 <= i < |v.history| && ':' !in t' && key == ConnectKey(o, p, t', host')
        && Explains(c.connect, v.history[i], t', host', v.entries[key]);
      ConnectKeyInjective(o, p, t, host, o, p, t', host');
    }
  }

  /** The same through `resolve`, for an agent that belongs to the project. */
  lemma ResolveAfterInvalidation(
    c: Codecs, w: World, steps: seq<Step>, v: World, agent: AgentRow, t: string, host: string)
    requires Reachable(c, w) && Faithful(c.connect)
    requires After(c, w, agent.organizationId, agent.projectId, steps, v)
    requires ':' !in agent.organizationId && ':' !in agent.projectId && ':' !in t
    requires v.db.findAgent(t) == Ok(agent)
    ensures |w.history| >= 1
    ensures match ResolveSpec(c.connect, v.db, v.entries, t, host, v.now).0
            case Ok(r) => TrueSince(v, |w.history| - 1, t, host, r)
            case Err(e) => Uncached(v.db, t, host) == Err(e)
  {
    AnswersAfterInvalidation(c, w, agent.organizationId, agent.projectId, steps, v, t, host);
  }

  /** And an app injection served from the cache was built after the invalidation. */
  lemma InjectionsAfterInvalidation(
    c: Codecs, w: World, o: string, p: string, steps: seq<Step>, v: World,
    connectionId: string, host: string, policy: Option<string>)
    requires Reachable(c, w) && Faithful(c.app) && After(c, w, o, p, steps, v)
    requires ':' !in o && ':' !in p
    requires Cached(c.app, v.entries, AppKey(o, p, connectionId, host, policy), v.now).Some?
    ensures var key := AppKey(o, p, connectionId, host, policy);
            exists i :: |w.builds| <= i < |v.builds| && v.builds[i].key == key
                        && v.builds[i].built.injection == Cached(c.app, v.entries, key, v.now).value
  {
    FreshAfter(c, w, o, p, steps, v);
    var key := AppKey(o, p, connectionId, host, policy);
    AppKeyRest(o, p, connectionId, host, policy);
    assert AppSince(c, v, |w.builds|, key);
  }
}
