/** Rate limits over whole runs: every interleaving of counter steps of many requests with
    the cache's other uses (policy.rs over cache.rs). */
module RateRuns {
  import opened Text
  import opened PolicyRules
  import opened ConditionMatch
  import opened Cache
  import opened Policy

  /** Who is counted: one agent at one rate rule of one project. */
  datatype Subject = Subject(orgId: string, projectId: string, ruleId: string, agentToken: string)

  /** One atomic use of the shared cache. */
  datatype CacheOp =
    | Count(subject: Subject, maxRequests: nat, windowSecs: nat)
    | Read(key: string)
    | Write(key: string, value: string, ttl: nat)
    | DropPrefix(prefix: string)

  datatype Timed = Timed(now: nat, op: CacheOp)

  function SubjectKey(s: Subject, windowId: nat): string {
    RateKey(s.orgId, s.projectId, s.ruleId, s.agentToken, windowId)
  }

  function Exec(e: Entries, t: Timed): Entries {
    match t.op
    case Count(s, _, w) =>
      var key := SubjectKey(s, WindowId(w, t.now));
      e[key := Bumped(e, key, w, t.now)]
    case Read(key) => AfterGet(e, key, t.now)
    case Write(key, value, ttl) => AfterSet(e, key, value, ttl, t.now)
    case DropPrefix(prefix) => AfterDelByPrefix(e, prefix)
  }

  function Run(e: Entries, run: seq<Timed>): Entries
    decreases |run|
  {
    if run == [] then e else Run(Exec(e, run[0]), run[1..])
  }

  /** A counter step lets its request through. */
  predicate Passes(e: Entries, t: Timed) {
    t.op.Count? &&
    Counter(e, SubjectKey(t.op.subject, WindowId(t.op.windowSecs, t.now)), t.now) + 1 <= t.op.maxRequests
  }

  // ── One evaluation is a sequence of counter steps ─────────────────────

  function SubjectOf(request: Request, rule: PolicyRule): Subject
    requires rule.action.RateLimit?
  {
    Subject(request.orgId, request.projectId, rule.action.ruleId, request.agentToken)
  }

  /** The counter steps of an evaluation that no limit stops. */
  function CountSteps(parsers: Parsers, request: Request, rules: seq<PolicyRule>, clock: seq<nat>): seq<Timed>
    requires |clock| == |rules|
    decreases |rules|
  {
    if rules == [] then []
    else
      (if Counts(parsers, request, rules[0])
       then
         var action := rules[0].action;
         [Timed(clock[0], Count(SubjectOf(request, rules[0]), action.maxRequests, action.windowSecs))]
       else [])
      + CountSteps(parsers, request, rules[1..], clock[1..])
  }

  ghost predicate AllPass(e: Entries, run: seq<Timed>)
    decreases |run|
  {
    run == [] || (Passes(e, run[0]) && AllPass(Exec(e, run[0]), run[1..]))
  }

  /** Decision `d` and entries `f` result from `steps`: all of them, each letting the request
      through, or up to and including the one at `k`, the first that does not. */
  ghost predicate RunsTo(e: Entries, steps: seq<Timed>, d: PolicyDecision, f: Entries, k: nat) {
    && k <= |steps|
    && AllPass(e, steps[..k])
    && (d.Allowed? ==> k == |steps| && f == Run(e, steps))
    && (d.RateLimited? ==> k < |steps| && !Passes(Run(e, steps[..k]), steps[k]) && f == Run(e, steps[..k + 1]))
  }

  lemma RunCons(e: Entries, first: Timed, rest: seq<Timed>, j: nat)
    requires j <= |rest|
    ensures Run(e, ([first] + rest)[..j + 1]) == Run(Exec(e, first), rest[..j])
    ensures AllPass(e, ([first] + rest)[..j + 1]) <==> Passes(e, first) && AllPass(Exec(e, first), rest[..j])
  {
    assert ([first] + rest)[..j + 1][1..] == rest[..j];
  }

  lemma OnePassesThenRunsTo(e: Entries, first: Timed, rest: seq<Timed>, d: PolicyDecision, f: Entries, j: nat)
    requires Passes(e, first) && RunsTo(Exec(e, first), rest, d, f, j)
    ensures RunsTo(e, [first] + rest, d, f, j + 1)
  {
    assert ([first] + rest)[1..] == rest;
    RunCons(e, first, rest, j);
    if j < |rest| {
      RunCons(e, first, rest, j + 1);
    }
  }

  lemma FirstStopsRun(e: Entries, first: Timed, rest: seq<Timed>, d: PolicyDecision)
    requires !Passes(e, first) && d.RateLimited?
    ensures RunsTo(e, [first] + rest, d, Exec(e, first), 0)
  {
    RunCons(e, first, rest, 0);
  }

  /** The rate pass is a run of these steps. */
  lemma {:induction false} RatePassRunsSteps(
    parsers: Parsers, request: Request, rules: seq<PolicyRule>, clock: seq<nat>, e: Entries) returns (k: nat)
    requires |clock| == |rules|
    ensures var (d, f) := RatePass(parsers, request, rules, clock, e);
            RunsTo(e, CountSteps(parsers, request, rules, clock), d, f, k)
    decreases |rules|
  {
    if rules == [] {
      k := 0;
    } else {
      var rest := CountSteps(parsers, request, rules[1..], clock[1..]);
      if !Counts(parsers, request, rules[0]) {
        assert CountSteps(parsers, request, rules, clock) == rest;
        k := RatePassRunsSteps(parsers, request, rules[1..], clock[1..], e);
      } else {
        var rule := rules[0];
        var first := Timed(clock[0], Count(SubjectOf(request, rule), rule.action.maxRequests, rule.action.windowSecs));
        var (d, f) := RatePass(parsers, request, rules, clock, e);
        if Passes(e, first) {
          var j := RatePassRunsSteps(parsers, request, rules[1..], clock[1..], Exec(e, first));
          k := j + 1;
          OnePassesThenRunsTo(e, first, rest, d, f, j);
        } else {
          k := 0;
          FirstStopsRun(e, first, rest, d);
        }
      }
    }
  }

  // ── Runs of the gateway ───────────────────────────────────────────────

  predicate ColonFree(s: Subject) {
    ':' !in s.orgId && ':' !in s.projectId && ':' !in s.ruleId && ':' !in s.agentToken
  }

  predicate ResolutionKey(key: string) {
    "connect:" <= key || "app_injection:" <= key
  }

  /** What the gateway does to the cache. Counter steps for the rule of `s` carry that rule's
      configuration; resolutions and invalidations stay under their own prefixes. */
  predicate GatewayStep(t: Timed, s: Subject, maxRequests: nat, windowSecs: nat) {
    match t.op
    case Count(subject, m, w) =>
      ColonFree(subject) && (subject.ruleId == s.ruleId ==> m == maxRequests && w == windowSecs)
    case Read(key) => ResolutionKey(key)
    case Write(key, _, _) => ResolutionKey(key)
    case DropPrefix(prefix) => ResolutionKey(prefix)
  }

  predicate GatewayRun(run: seq<Timed>, s: Subject, maxRequests: nat, windowSecs: nat) {
    forall i | 0 <= i < |run| :: GatewayStep(run[i], s, maxRequests, windowSecs)
  }

  /** A counter step of `s` in window `w`. */
  predicate IsAttempt(t: Timed, s: Subject, windowSecs: nat, w: nat) {
    t.op.Count? && t.op.subject == s && WindowId(windowSecs, t.now) == w
  }

  function Attempts(run: seq<Timed>, s: Subject, windowSecs: nat, w: nat): nat {
    if run == [] then 0
    else (if IsAttempt(run[0], s, windowSecs, w) then 1 else 0) + Attempts(run[1..], s, windowSecs, w)
  }

  /** How many steps of `s` in window `w` let their request through. */
  function Admitted(e: Entries, run: seq<Timed>, s: Subject, windowSecs: nat, w: nat): nat
    decreases |run|
  {
    if run == [] then 0
    else (if IsAttempt(run[0], s, windowSecs, w) && Passes(e, run[0]) then 1 else 0)
         + Admitted(Exec(e, run[0]), run[1..], s, windowSecs, w)
  }

  lemma SubjectKeyParts(s: Subject, w: nat)
    requires ColonFree(s)
    ensures Split(SubjectKey(s, w), ':')
         == ["rate", s.orgId, s.projectId, s.ruleId, s.agentToken, ToDecimal(w)]
  {
    var parts := ["rate", s.orgId, s.projectId, s.ruleId, s.agentToken, ToDecimal(w)];
    assert parts[5..] == [parts[5]];
    assert Join(parts[4..], ':') == parts[4] + ":" + parts[5] by { assert parts[4..][1..] == parts[5..]; }
    assert Join(parts[3..], ':') == parts[3] + ":" + Join(parts[4..], ':') by { assert parts[3..][1..] == parts[4..]; }
    assert Join(parts[2..], ':') == parts[2] + ":" + Join(parts[3..], ':') by { assert parts[2..][1..] == parts[3..]; }
    assert Join(parts[1..], ':') == parts[1] + ":" + Join(parts[2..], ':') by { assert parts[1..][1..] == parts[2..]; }
    assert Join(parts, ':') == SubjectKey(s, w);
    SplitJoin(parts, ':');
  }

  /** Different subjects, or different windows, never share a counter. */
  lemma SubjectKeyInjective(s: Subject, w: nat, t: Subject, v: nat)
    requires ColonFree(s) && ColonFree(t) && SubjectKey(s, w) == SubjectKey(t, v)
    ensures s == t && w == v
  {
    SubjectKeyParts(s, w);
    SubjectKeyParts(t, v);
    var p, q := Split(SubjectKey(s, w), ':'), Split(SubjectKey(t, v), ':');
    assert p[1] == q[1] && p[2] == q[2] && p[3] == q[3] && p[4] == q[4] && p[5] == q[5];
    ToDecimalInjective(w, v);
  }

  /** The counter of `s` in window `w` holds `n` and lives to the end of the window. */
  predicate HoldsCount(e: Entries, s: Subject, windowSecs: nat, w: nat, n: nat) {
    var key := SubjectKey(s, w);
    if key in e then e[key].data == ToDecimal(n) && e[key].expiresAt >= (w + 1) * windowSecs else n == 0
  }

  /** The end of its window lies after every moment of it, and at most one window away. */
  lemma WindowBounds(windowSecs: nat, now: nat)
    requires windowSecs >= 1
    ensures var w := WindowId(windowSecs, now);
            w * windowSecs <= now < (w + 1) * windowSecs && (w + 1) * windowSecs <= now + windowSecs
  {
    var w := WindowId(windowSecs, now);
    assert w == now / windowSecs;
    assert now == w * windowSecs + now % windowSecs;
    assert (w + 1) * windowSecs == w * windowSecs + windowSecs;
  }

  lemma StepKeepsCount(e: Entries, t: Timed, s: Subject, maxRequests: nat, windowSecs: nat, w: nat, n: nat)
    requires ColonFree(s) && windowSecs >= 1 && GatewayStep(t, s, maxRequests, windowSecs)
    requires HoldsCount(e, s, windowSecs, w, n)
    ensures HoldsCount(Exec(e, t), s, windowSecs, w, if IsAttempt(t, s, windowSecs, w) then n + 1 else n)
    ensures IsAttempt(t, s, windowSecs, w) ==> (Passes(e, t) <==> n + 1 <= maxRequests)
  {
    var key := SubjectKey(s, w);
    assert key[0] == 'r';
    match t.op
    case Count(subject, m, v) =>
      var other := SubjectKey(subject, WindowId(v, t.now));
      if other == key {
        SubjectKeyInjective(s, w, subject, WindowId(v, t.now));
        WindowBounds(windowSecs, t.now);
        ParseToDecimal(n);
        ParseToDecimal(0);
      }
    case Read(k) =>
    case Write(k, value, ttl) =>
    case DropPrefix(prefix) =>
  }

  function Min(a: nat, b: nat): nat { if a <= b then a else b }

  lemma {:induction false} AdmittedFrom(
    e: Entries, run: seq<Timed>, s: Subject, maxRequests: nat, windowSecs: nat, w: nat, n: nat)
    requires ColonFree(s) && windowSecs >= 1 && GatewayRun(run, s, maxRequests, windowSecs)
    requires HoldsCount(e, s, windowSecs, w, n)
    ensures Admitted(e, run, s, windowSecs, w) + Min(n, maxRequests)
         == Min(n + Attempts(run, s, windowSecs, w), maxRequests)
    decreases |run|
  {
    if run != [] {
      StepKeepsCount(e, run[0], s, maxRequests, windowSecs, w, n);
      var next := if IsAttempt(run[0], s, windowSecs, w) then n + 1 else n;
      AdmittedFrom(Exec(e, run[0]), run[1..], s, maxRequests, windowSecs, w, next);
    }
  }

  /** In one window a rate rule lets through the first `maxRequests` attempts of an agent and
      no other, whatever else runs in between and in whatever order the clock is read. */
  lemma AdmittedInWindow(
    e: Entries, run: seq<Timed>, s: Subject, maxRequests: nat, windowSecs: nat, w: nat)
    requires ColonFree(s) && windowSecs >= 1 && GatewayRun(run, s, maxRequests, windowSecs)
    requires SubjectKey(s, w) !in e
    ensures Admitted(e, run, s, windowSecs, w) == Min(Attempts(run, s, windowSecs, w), maxRequests)
  {
    AdmittedFrom(e, run, s, maxRequests, windowSecs, w, 0);
  }

  // ── A sliding interval ────────────────────────────────────────────────

  /** Requests of `s` let through at times in `[from, until)`. */
  function AdmittedBetween(e: Entries, run: seq<Timed>, s: Subject, from: nat, until: nat): nat
    decreases |run|
  {
    if run == [] then 0
    else (if run[0].op.Count? && run[0].op.subject == s && from <= run[0].now < until && Passes(e, run[0])
          then 1 else 0)
         + AdmittedBetween(Exec(e, run[0]), run[1..], s, from, until)
  }

  lemma MulMonotone(a: nat, b: nat, m: nat)
    requires a <= b
    ensures a * m <= b * m
  {
    assert (b - a) * m >= 0;
    assert b * m == a * m + (b - a) * m;
  }

  /** The window of a moment is the only one whose bounds enclose it. */
  lemma WindowUnique(windowSecs: nat, now: nat, w: nat)
    requires windowSecs >= 1 && w * windowSecs <= now < (w + 1) * windowSecs
    ensures WindowId(windowSecs, now) == w
  {
    var v := WindowId(windowSecs, now);
    WindowBounds(windowSecs, now);
    if v < w {
      MulMonotone(v + 1, w, windowSecs);
    }
    if v > w {
      MulMonotone(w + 1, v, windowSecs);
    }
  }

  lemma TwoWindows(windowSecs: nat, from: nat, now: nat)
    requires windowSecs >= 1 && from <= now < from + windowSecs
    ensures WindowId(windowSecs, now) == WindowId(windowSecs, from)
         || WindowId(windowSecs, now) == WindowId(windowSecs, from) + 1
  {
    var v := WindowId(windowSecs, from);
    WindowBounds(windowSecs, from);
    assert (v + 2) * windowSecs == (v + 1) * windowSecs + windowSecs;
    if now < (v + 1) * windowSecs {
      WindowUnique(windowSecs, now, v);
    } else {
      WindowUnique(windowSecs, now, v + 1);
    }
  }

  lemma {:induction false} BetweenWithinTwoWindows(
    e: Entries, run: seq<Timed>, s: Subject, windowSecs: nat, from: nat)
    requires windowSecs >= 1
    ensures var w := WindowId(windowSecs, from);
            AdmittedBetween(e, run, s, from, from + windowSecs)
            <= Admitted(e, run, s, windowSecs, w) + Admitted(e, run, s, windowSecs, w + 1)
    decreases |run|
  {
    if run != [] {
      BetweenWithinTwoWindows(Exec(e, run[0]), run[1..], s, windowSecs, from);
      if from <= run[0].now < from + windowSecs {
        TwoWindows(windowSecs, from, run[0].now);
      }
    }
  }

  /** Any `windowSecs` consecutive seconds admit at most twice the limit. */
  lemma SlidingBound(e: Entries, run: seq<Timed>, s: Subject, maxRequests: nat, windowSecs: nat, from: nat)
    requires ColonFree(s) && windowSecs >= 1 && GatewayRun(run, s, maxRequests, windowSecs)
    requires forall w :: SubjectKey(s, w) !in e
    ensures AdmittedBetween(e, run, s, from, from + windowSecs) <= 2 * maxRequests
  {
    var w := WindowId(windowSecs, from);
    BetweenWithinTwoWindows(e, run, s, windowSecs, from);
    AdmittedInWindow(e, run, s, maxRequests, windowSecs, w);
    AdmittedInWindow(e, run, s, maxRequests, windowSecs, w + 1);
  }

  /** A limited request is told to come back in 1 to `windowSecs` seconds, which is the first
      moment of the next window. */
  lemma RetryAfterIsNextWindow(rule: PolicyRule, now: nat)
    requires rule.action.RateLimit? && rule.action.windowSecs >= 1
    ensures var windowSecs, retry := rule.action.windowSecs, Limited(rule, now).retryAfterSecs;
            1 <= retry <= windowSecs
            && now + retry == (WindowId(windowSecs, now) + 1) * windowSecs
            && WindowId(windowSecs, now + retry) == WindowId(windowSecs, now) + 1
  {
    var windowSecs := rule.action.windowSecs;
    var w := WindowId(windowSecs, now);
    WindowBounds(windowSecs, now);
    assert (w + 2) * windowSecs == (w + 1) * windowSecs + windowSecs;
    WindowUnique(windowSecs, (w + 1) * windowSecs, w + 1);
  }
}
