/** Policy evaluation with the strictest-wins doctrine (policy.rs). */
module Policy {
  import opened Wrappers
  import opened Text
  import opened PolicyRules
  import opened ConditionMatch
  import opened Cache
  import Globs

  datatype Request = Request(
    orgId: string, projectId: string, httpMethod: string, path: string, body: Body,
    agentToken: string, policyMode: string, enforceDeny: bool)

  datatype PolicyDecision =
    | Allowed
    | Blocked(ruleName: string)
    | RateLimited(ruleName: string, limit: nat, window: string, retryAfterSecs: nat)
    | NeedsApproval(ruleId: string)
    | BlockedByDefaultPolicy

  // ── Matching one rule ─────────────────────────────────────────────────

  function ToLower(c: char): char {
    if 'A' <= c <= 'Z' then c - 'A' + 'a' else c
  }

  predicate EqIgnoreCase(s: string, t: string) {
    |s| == |t| && forall i | 0 <= i < |s| :: ToLower(s[i]) == ToLower(t[i])
  }

  /** The first phase of a git push: a GET for `info/refs?service=git-receive-pack`. */
  predicate IsGitPushDiscovery(path: string) {
    var base := Before(path, '?');
    var query := if |base| < |path| then path[|base| + 1..] else "";
    EndsWith(base, "/info/refs") && "service=git-receive-pack" in Split(query, '&')
  }

  predicate MatchesRequest(parsers: Parsers, rule: PolicyRule, request: Request) {
    || (&& Globs.PathMatches(request.path, rule.pathPattern)
        && (rule.httpMethod.None? || EqIgnoreCase(rule.httpMethod.value, request.httpMethod))
        && ConditionsMatch(parsers, rule, request.body))
    || (&& EndsWith(rule.pathPattern, "/git-receive-pack")
        && EqIgnoreCase(request.httpMethod, "GET")
        && IsGitPushDiscovery(request.path)
        && ConditionsMatch(parsers, rule, request.body))
  }

  // ── Rate counters ─────────────────────────────────────────────────────

  function WindowId(windowSecs: nat, now: nat): nat {
    now / if windowSecs > 1 then windowSecs else 1
  }

  function RateKey(orgId: string, projectId: string, ruleId: string, agentToken: string, windowId: nat): string {
    "rate:" + orgId + ":" + projectId + ":" + ruleId + ":" + agentToken + ":" + ToDecimal(windowId)
  }

  function KeyAt(request: Request, rule: PolicyRule, now: nat): string
    requires rule.action.RateLimit?
  {
    RateKey(request.orgId, request.projectId, rule.action.ruleId, request.agentToken,
            WindowId(rule.action.windowSecs, now))
  }

  function WindowName(windowSecs: nat): string {
    if windowSecs == 60 then "minute"
    else if windowSecs == 3600 then "hour"
    else if windowSecs == 86400 then "day"
    else "window"
  }

  function Limited(rule: PolicyRule, now: nat): PolicyDecision
    requires rule.action.RateLimit?
  {
    var windowEnd := (WindowId(rule.action.windowSecs, now) + 1) * rule.action.windowSecs;
    RateLimited(rule.name, rule.action.maxRequests, WindowName(rule.action.windowSecs),
                if windowEnd > now then windowEnd - now else 0)
  }

  /** A rate rule that applies to the request and so counts it. */
  predicate Counts(parsers: Parsers, request: Request, rule: PolicyRule) {
    rule.action.RateLimit? && MatchesRequest(parsers, rule, request)
  }

  /** The rate pass: count the request at each applicable rule in turn, stopping at the
      first limit exceeded. `clock[i]` is the time read at rule `i`. */
  function RatePass(parsers: Parsers, request: Request, rules: seq<PolicyRule>, clock: seq<nat>, e: Entries)
    : (PolicyDecision, Entries)
    requires |clock| == |rules|
    decreases |rules|
  {
    if rules == [] then (Allowed, e)
    else if !Counts(parsers, request, rules[0]) then RatePass(parsers, request, rules[1..], clock[1..], e)
    else
      var rule, now := rules[0], clock[0];
      var key := KeyAt(request, rule, now);
      var f := e[key := Bumped(e, key, rule.action.windowSecs, now)];
      if Counter(e, key, now) + 1 > rule.action.maxRequests then (Limited(rule, now), f)
      else RatePass(parsers, request, rules[1..], clock[1..], f)
  }

  // ── The evaluator ─────────────────────────────────────────────────────

  /** What the evaluator looks for in its passes over the rules, next to rate limits. */
  datatype Pass = BlockPass | ApprovalPass | AllowPass

  predicate Applies(parsers: Parsers, request: Request, pass: Pass, rule: PolicyRule) {
    && MatchesRequest(parsers, rule, request)
    && match pass
       case BlockPass => rule.action.Block?
       case ApprovalPass => rule.action.ManualApproval?
       case AllowPass => rule.action.Allow? || rule.action.RateLimit?
  }

  /** The place of the first rule that applies, or one past the end. */
  function First(parsers: Parsers, request: Request, pass: Pass, rules: seq<PolicyRule>): (k: nat)
    ensures k <= |rules|
    ensures forall i | 0 <= i < k :: !Applies(parsers, request, pass, rules[i])
    ensures k < |rules| ==> Applies(parsers, request, pass, rules[k])
    decreases |rules|
  {
    if rules == [] || Applies(parsers, request, pass, rules[0]) then 0
    else 1 + First(parsers, request, pass, rules[1..])
  }

  predicate EnforcedDeny(request: Request) {
    request.policyMode == "deny" && request.enforceDeny
  }

  function EvaluateSpec(parsers: Parsers, request: Request, rules: seq<PolicyRule>, clock: seq<nat>, e: Entries)
    : (PolicyDecision, Entries)
    requires |clock| == |rules|
  {
    var b := First(parsers, request, BlockPass, rules);
    var a := First(parsers, request, ApprovalPass, rules);
    if b < |rules| then (Blocked(rules[b].name), e)
    else if a < |rules| then (NeedsApproval(rules[a].action.ruleId), e)
    else
      var (limit, f) := RatePass(parsers, request, rules, clock, e);
      if limit.RateLimited? then (limit, f)
      else if EnforcedDeny(request) && First(parsers, request, AllowPass, rules) == |rules|
      then (BlockedByDefaultPolicy, f)
      else (Allowed, f)
  }

  method RateLimitPass(parsers: Parsers, request: Request, rules: seq<PolicyRule>, clock: seq<nat>,
                       cache: InMemoryCacheStore)
    returns (decision: PolicyDecision)
    requires |clock| == |rules|
    modifies cache
    ensures (decision, cache.entries) == RatePass(parsers, request, rules, clock, old(cache.entries))
  {
    for i := 0 to |rules|
      invariant RatePass(parsers, request, rules[i..], clock[i..], cache.entries)
             == RatePass(parsers, request, rules, clock, old(cache.entries))
    {
      assert rules[i..][1..] == rules[i + 1..] && clock[i..][1..] == clock[i + 1..];
      var rule, now := rules[i], clock[i];
      if MatchesRequest(parsers, rule, request) && rule.action.RateLimit? {
        var key := KeyAt(request, rule, now);
        var count := cache.Incr(key, rule.action.windowSecs, now);
        if count > rule.action.maxRequests {
          return Limited(rule, now);
        }
      }
    }
    return Allowed;
  }

  /** The loop of one pass: the first rule that applies. */
  method FindFirst(parsers: Parsers, request: Request, pass: Pass, rules: seq<PolicyRule>) returns (k: nat)
    ensures k == First(parsers, request, pass, rules)
  {
    k := 0;
    while k < |rules|
      invariant k <= First(parsers, request, pass, rules)
    {
      if Applies(parsers, request, pass, rules[k]) {
        return;
      }
      k := k + 1;
    }
  }

  method Evaluate(parsers: Parsers, request: Request, rules: seq<PolicyRule>, clock: seq<nat>,
                  cache: InMemoryCacheStore)
    returns (decision: PolicyDecision)
    requires |clock| == |rules|
    modifies cache
    ensures (decision, cache.entries) == EvaluateSpec(parsers, request, rules, clock, old(cache.entries))
  {
    var block := FindFirst(parsers, request, BlockPass, rules);
    if block < |rules| {
      return Blocked(rules[block].name);
    }
    var approval := FindFirst(parsers, request, ApprovalPass, rules);
    if approval < |rules| {
      return NeedsApproval(rules[approval].action.ruleId);
    }
    var limit := RateLimitPass(parsers, request, rules, clock, cache);
    if limit.RateLimited? {
      return limit;
    }
    // In enforced deny mode, an explicit allow rule is required.
    if EnforcedDeny(request) {
      var allow := FindFirst(parsers, request, AllowPass, rules);
      if allow == |rules| {
        return BlockedByDefaultPolicy;
      }
    }
    return Allowed;
  }

  // ── Counters of different rules do not interfere ──────────────────────

  /** Rate rules carry distinct colon-free ids, as database ids do. */
  predicate DistinctRateIds(rules: seq<PolicyRule>) {
    && (forall i | 0 <= i < |rules| && rules[i].action.RateLimit? :: ':' !in rules[i].action.ruleId)
    && (forall i, j | 0 <= i < j < |rules| && rules[i].action.RateLimit? && rules[j].action.RateLimit? ::
          rules[i].action.ruleId != rules[j].action.ruleId)
  }

  lemma KeysDiffer(request: Request, r: PolicyRule, t: nat, s: PolicyRule, u: nat)
    requires r.action.RateLimit? && s.action.RateLimit? && r.action.ruleId != s.action.ruleId
    requires ':' !in r.action.ruleId && ':' !in s.action.ruleId
    ensures KeyAt(request, r, t) != KeyAt(request, s, u)
  {
    var prefix := "rate:" + request.orgId + ":" + request.projectId + ":";
    var v, w := WindowId(r.action.windowSecs, t), WindowId(s.action.windowSecs, u);
    var x := request.agentToken + ":" + ToDecimal(v);
    var y := request.agentToken + ":" + ToDecimal(w);
    var k, l := KeyAt(request, r, t), KeyAt(request, s, u);
    assert k[|prefix|..] == r.action.ruleId + [':'] + x;
    assert l[|prefix|..] == s.action.ruleId + [':'] + y;
    BeforeIs(r.action.ruleId, ':', x);
    BeforeIs(s.action.ruleId, ':', y);
  }

  /** Counting this request at rule `i`, against the counters it found, exceeds the limit. */
  predicate Exceeds(parsers: Parsers, request: Request, rules: seq<PolicyRule>, clock: seq<nat>, e: Entries, i: nat)
    requires |clock| == |rules|
  {
    i < |rules| && Counts(parsers, request, rules[i])
    && Counter(e, KeyAt(request, rules[i], clock[i]), clock[i]) + 1 > rules[i].action.maxRequests
  }

  ghost predicate AnyExceeds(parsers: Parsers, request: Request, rules: seq<PolicyRule>, clock: seq<nat>, e: Entries)
    requires |clock| == |rules|
  {
    exists i: nat :: Exceeds(parsers, request, rules, clock, e, i)
  }

  ghost predicate IsCountedKey(parsers: Parsers, request: Request, rules: seq<PolicyRule>, clock: seq<nat>, key: string)
    requires |clock| == |rules|
  {
    exists i | 0 <= i < |rules| :: Counts(parsers, request, rules[i]) && key == KeyAt(request, rules[i], clock[i])
  }

  ghost predicate SameAt(e: Entries, f: Entries, key: string) {
    (key in e <==> key in f) && (key in e ==> e[key] == f[key])
  }

  lemma OtherKeys(request: Request, rules: seq<PolicyRule>, clock: seq<nat>)
    requires |clock| == |rules| && |rules| > 0 && DistinctRateIds(rules) && rules[0].action.RateLimit?
    ensures forall i | 0 < i < |rules| && rules[i].action.RateLimit? ::
              KeyAt(request, rules[i], clock[i]) != KeyAt(request, rules[0], clock[0])
  {
    forall i | 0 < i < |rules| && rules[i].action.RateLimit?
      ensures KeyAt(request, rules[i], clock[i]) != KeyAt(request, rules[0], clock[0])
    {
      KeysDiffer(request, rules[i], clock[i], rules[0], clock[0]);
    }
  }

  lemma CounterIsLocal(e: Entries, f: Entries, key: string, now: nat, ttl: nat)
    requires SameAt(e, f, key)
    ensures Counter(e, key, now) == Counter(f, key, now)
    ensures Bumped(e, key, ttl, now) == Bumped(f, key, ttl, now)
  {
  }

  /** The pass limits exactly when some applicable rule is over its limit in the counters the
      request found; if none is, it adds one at each applicable rule's counter. In every case
      no other entry changes. */
  lemma {:induction false} RatePassEffect(
    parsers: Parsers, request: Request, rules: seq<PolicyRule>, clock: seq<nat>, e: Entries)
    requires |clock| == |rules| && DistinctRateIds(rules)
    ensures var (d, f) := RatePass(parsers, request, rules, clock, e);
            && (d.RateLimited? || d.Allowed?)
            && (d.RateLimited? <==> AnyExceeds(parsers, request, rules, clock, e))
            && (forall key: string | !IsCountedKey(parsers, request, rules, clock, key) :: SameAt(e, f, key))
            && (d.Allowed? ==> forall i | 0 <= i < |rules| && Counts(parsers, request, rules[i]) ::
                  var key := KeyAt(request, rules[i], clock[i]);
                  key in f && f[key] == Bumped(e, key, rules[i].action.windowSecs, clock[i]))
    decreases |rules|
  {
    if rules != [] {
      var rest, times := rules[1..], clock[1..];
      if !Counts(parsers, request, rules[0]) {
        RatePassEffect(parsers, request, rest, times, e);
        RateStepSkips(parsers, request, rules, clock, e);
      } else {
        var rule, now := rules[0], clock[0];
        var key := KeyAt(request, rule, now);
        var f := e[key := Bumped(e, key, rule.action.windowSecs, now)];
        OtherKeys(request, rules, clock);
        assert IsCountedKey(parsers, request, rules, clock, key);
        if Counter(e, key, now) + 1 > rule.action.maxRequests {
          assert Exceeds(parsers, request, rules, clock, e, 0);
        } else {
          RatePassEffect(parsers, request, rest, times, f);
          RateStepExceeds(parsers, request, rules, clock, e, f);
          RateStepCounts(parsers, request, rules, clock, e, f);
        }
      }
    }
  }

  /** Shifting statements about the rest of the rules by one place. */
  lemma RateStepSkips(parsers: Parsers, request: Request, rules: seq<PolicyRule>, clock: seq<nat>, e: Entries)
    requires |clock| == |rules| && rules != [] && !Counts(parsers, request, rules[0])
    ensures AnyExceeds(parsers, request, rules[1..], clock[1..], e)
       <==> AnyExceeds(parsers, request, rules, clock, e)
    ensures forall key: string ::
              IsCountedKey(parsers, request, rules[1..], clock[1..], key)
              <==> IsCountedKey(parsers, request, rules, clock, key)
    ensures forall i | 0 < i < |rules| :: rules[i] == rules[1..][i - 1] && clock[i] == clock[1..][i - 1]
  {
    forall i: nat | Exceeds(parsers, request, rules[1..], clock[1..], e, i)
      ensures Exceeds(parsers, request, rules, clock, e, i + 1)
    {
    }
    forall i: nat | Exceeds(parsers, request, rules, clock, e, i)
      ensures Exceeds(parsers, request, rules[1..], clock[1..], e, i - 1)
    {
    }
    forall key: string
      ensures IsCountedKey(parsers, request, rules[1..], clock[1..], key)
              <==> IsCountedKey(parsers, request, rules, clock, key)
    {
      CountedKeyShift(parsers, request, rules, clock, key);
    }
  }

  lemma CountedKeyShift(parsers: Parsers, request: Request, rules: seq<PolicyRule>, clock: seq<nat>, key: string)
    requires |clock| == |rules| && rules != []
    ensures IsCountedKey(parsers, request, rules, clock, key)
       <==> ((Counts(parsers, request, rules[0]) && key == KeyAt(request, rules[0], clock[0]))
             || IsCountedKey(parsers, request, rules[1..], clock[1..], key))
  {
    if i :| 0 <= i < |rules[1..]| && Counts(parsers, request, rules[1..][i])
            && key == KeyAt(request, rules[1..][i], clock[1..][i]) {
      assert Counts(parsers, request, rules[i + 1]) && key == KeyAt(request, rules[i + 1], clock[i + 1]);
    }
    if i :| 0 <= i < |rules| && Counts(parsers, request, rules[i]) && key == KeyAt(request, rules[i], clock[i]) {
      if i > 0 {
        assert Counts(parsers, request, rules[1..][i - 1]);
        assert key == KeyAt(request, rules[1..][i - 1], clock[1..][i - 1]);
      }
    }
  }

  /** The same, once the first rule has counted: no other rule's counter has changed. */
  lemma RateStepExceeds(parsers: Parsers, request: Request, rules: seq<PolicyRule>, clock: seq<nat>, e: Entries,
                        f: Entries)
    requires |clock| == |rules| && rules != [] && Counts(parsers, request, rules[0])
    requires !Exceeds(parsers, request, rules, clock, e, 0)
    requires forall key: string | key != KeyAt(request, rules[0], clock[0]) :: SameAt(e, f, key)
    requires forall i | 0 < i < |rules| && rules[i].action.RateLimit? ::
               KeyAt(request, rules[i], clock[i]) != KeyAt(request, rules[0], clock[0])
    ensures AnyExceeds(parsers, request, rules[1..], clock[1..], f) <==> AnyExceeds(parsers, request, rules, clock, e)
  {
    forall i: nat | Exceeds(parsers, request, rules[1..], clock[1..], f, i)
      ensures Exceeds(parsers, request, rules, clock, e, i + 1)
    {
      CounterIsLocal(e, f, KeyAt(request, rules[i + 1], clock[i + 1]), clock[i + 1], 0);
    }
    forall i: nat | Exceeds(parsers, request, rules, clock, e, i)
      ensures Exceeds(parsers, request, rules[1..], clock[1..], f, i - 1)
    {
      CounterIsLocal(e, f, KeyAt(request, rules[i], clock[i]), clock[i], 0);
    }
  }

  lemma RateStepCounts(parsers: Parsers, request: Request, rules: seq<PolicyRule>, clock: seq<nat>, e: Entries,
                       f: Entries)
    requires |clock| == |rules| && rules != [] && Counts(parsers, request, rules[0])
    requires forall key: string | key != KeyAt(request, rules[0], clock[0]) :: SameAt(e, f, key)
    requires forall i | 0 < i < |rules| && rules[i].action.RateLimit? ::
               KeyAt(request, rules[i], clock[i]) != KeyAt(request, rules[0], clock[0])
    ensures forall key: string ::
              IsCountedKey(parsers, request, rules, clock, key)
              <==> (key == KeyAt(request, rules[0], clock[0])
                    || IsCountedKey(parsers, request, rules[1..], clock[1..], key))
    ensures !IsCountedKey(parsers, request, rules[1..], clock[1..], KeyAt(request, rules[0], clock[0]))
    ensures forall i | 0 < i < |rules| :: rules[i] == rules[1..][i - 1] && clock[i] == clock[1..][i - 1]
    ensures forall i | 0 < i < |rules| && rules[i].action.RateLimit? ::
              var key := KeyAt(request, rules[i], clock[i]);
              Bumped(f, key, rules[i].action.windowSecs, clock[i])
              == Bumped(e, key, rules[i].action.windowSecs, clock[i])
  {
    forall key: string
      ensures IsCountedKey(parsers, request, rules, clock, key)
              <==> (key == KeyAt(request, rules[0], clock[0])
                    || IsCountedKey(parsers, request, rules[1..], clock[1..], key))
    {
      CountedKeyShift(parsers, request, rules, clock, key);
    }
    forall i | 0 < i < |rules| && rules[i].action.RateLimit?
      ensures var key := KeyAt(request, rules[i], clock[i]);
              Bumped(f, key, rules[i].action.windowSecs, clock[i])
              == Bumped(e, key, rules[i].action.windowSecs, clock[i])
    {
      CounterIsLocal(e, f, KeyAt(request, rules[i], clock[i]), clock[i], rules[i].action.windowSecs);
    }
  }

  // ── Strictest wins ────────────────────────────────────────────────────

  /** The kinds of outcome; a default denial answers 403 like a block. */
  datatype Class = AllowedClass | LimitedClass | ApprovalClass | BlockedClass | DefaultDenyClass

  function ClassOf(d: PolicyDecision): Class {
    match d
    case Allowed => AllowedClass
    case RateLimited(_, _, _, _) => LimitedClass
    case NeedsApproval(_) => ApprovalClass
    case Blocked(_) => BlockedClass
    case BlockedByDefaultPolicy => DefaultDenyClass
  }

  function Severity(c: Class): nat {
    match c
    case AllowedClass => 0
    case LimitedClass => 1
    case ApprovalClass => 2
    case BlockedClass => 3
    case DefaultDenyClass => 3
  }

  ghost predicate Any(parsers: Parsers, request: Request, pass: Pass, rules: seq<PolicyRule>) {
    exists rule :: rule in rules && Applies(parsers, request, pass, rule)
  }

  lemma FirstFinds(parsers: Parsers, request: Request, pass: Pass, rules: seq<PolicyRule>)
    ensures First(parsers, request, pass, rules) < |rules| <==> Any(parsers, request, pass, rules)
  {
    if rule :| rule in rules && Applies(parsers, request, pass, rule) {
      var i :| 0 <= i < |rules| && rules[i] == rule;
    }
  }

  /** The strictest of the outcomes that apply. */
  function Strictest(block: bool, approval: bool, limited: bool, unlisted: bool): Class {
    if block then BlockedClass
    else if approval then ApprovalClass
    else if limited then LimitedClass
    else if unlisted then DefaultDenyClass
    else AllowedClass
  }

  /** The doctrine, stated over the set of rules that apply and the counters found. */
  ghost function StrictestClass(parsers: Parsers, request: Request, rules: seq<PolicyRule>, clock: seq<nat>,
                                e: Entries): Class
    requires |clock| == |rules|
  {
    Strictest(
      Any(parsers, request, BlockPass, rules),
      Any(parsers, request, ApprovalPass, rules),
      AnyExceeds(parsers, request, rules, clock, e),
      EnforcedDeny(request) && !Any(parsers, request, AllowPass, rules))
  }

  lemma StrictestWins(parsers: Parsers, request: Request, rules: seq<PolicyRule>, clock: seq<nat>, e: Entries)
    requires |clock| == |rules| && DistinctRateIds(rules)
    ensures ClassOf(EvaluateSpec(parsers, request, rules, clock, e).0) == StrictestClass(parsers, request, rules,
                                                                                         clock, e)
  {
    FirstFinds(parsers, request, BlockPass, rules);
    FirstFinds(parsers, request, ApprovalPass, rules);
    FirstFinds(parsers, request, AllowPass, rules);
    RatePassEffect(parsers, request, rules, clock, e);
  }

  /** Blocked and approval outcomes leave the cache alone; an outcome past the rate pass adds
      exactly one at each applicable rate rule's counter and touches nothing else. */
  lemma CounterEffects(parsers: Parsers, request: Request, rules: seq<PolicyRule>, clock: seq<nat>, e: Entries)
    requires |clock| == |rules| && DistinctRateIds(rules)
    ensures var (d, f) := EvaluateSpec(parsers, request, rules, clock, e);
            && (d.Blocked? || d.NeedsApproval? ==> f == e)
            && (forall key: string | !IsCountedKey(parsers, request, rules, clock, key) :: SameAt(e, f, key))
            && (d.Allowed? || d.BlockedByDefaultPolicy? ==>
                  forall i | 0 <= i < |rules| && Counts(parsers, request, rules[i]) ::
                    var key := KeyAt(request, rules[i], clock[i]);
                    key in f && f[key] == Bumped(e, key, rules[i].action.windowSecs, clock[i]))
  {
    RatePassEffect(parsers, request, rules, clock, e);
  }

  function AllAt(rules: seq<PolicyRule>, now: nat): (clock: seq<nat>)
    ensures |clock| == |rules|
  {
    seq(|rules|, _ => now)
  }

  /** One evaluation at one moment. */
  function DecideAt(parsers: Parsers, request: Request, rules: seq<PolicyRule>, now: nat, e: Entries): PolicyDecision {
    EvaluateSpec(parsers, request, rules, AllAt(rules, now), e).0
  }

  lemma ExceedsCarriesOver(parsers: Parsers, request: Request, rules: seq<PolicyRule>, more: seq<PolicyRule>,
                           now: nat, e: Entries)
    requires forall rule | rule in rules :: rule in more
    ensures AnyExceeds(parsers, request, rules, AllAt(rules, now), e) ==>
            AnyExceeds(parsers, request, more, AllAt(more, now), e)
  {
    if i: nat :| Exceeds(parsers, request, rules, AllAt(rules, now), e, i) {
      assert rules[i] in more;
      var j :| 0 <= j < |more| && more[j] == rules[i];
      assert Exceeds(parsers, request, more, AllAt(more, now), e, j);
    }
  }

  /** The class of the outcome does not depend on the order or the repetition of rules. */
  lemma ClassIgnoresOrder(parsers: Parsers, request: Request, a: seq<PolicyRule>, b: seq<PolicyRule>, now: nat,
                          e: Entries)
    requires DistinctRateIds(a) && DistinctRateIds(b)
    requires forall rule :: rule in a <==> rule in b
    ensures ClassOf(DecideAt(parsers, request, a, now, e)) == ClassOf(DecideAt(parsers, request, b, now, e))
  {
    StrictestWins(parsers, request, a, AllAt(a, now), e);
    StrictestWins(parsers, request, b, AllAt(b, now), e);
    ExceedsCarriesOver(parsers, request, a, b, now, e);
    ExceedsCarriesOver(parsers, request, b, a, now, e);
  }

  lemma AnyCarriesOver(
    parsers: Parsers, request: Request, pass: Pass, rules: seq<PolicyRule>, more: seq<PolicyRule>)
    requires forall rule | rule in rules :: rule in more
    ensures Any(parsers, request, pass, rules) ==> Any(parsers, request, pass, more)
  {
    if rule :| rule in rules && Applies(parsers, request, pass, rule) {
      assert rule in more;
    }
  }

  ghost predicate AnyMatches(parsers: Parsers, request: Request, rules: seq<PolicyRule>) {
    exists rule :: rule in rules && MatchesRequest(parsers, rule, request)
  }

  /** A rule that matches applies in exactly one of the passes. */
  lemma AppliesInOneWay(parsers: Parsers, request: Request, rules: seq<PolicyRule>)
    ensures AnyMatches(parsers, request, rules)
       <==> (Any(parsers, request, BlockPass, rules)
             || Any(parsers, request, ApprovalPass, rules) || Any(parsers, request, AllowPass, rules))
  {
    if rule :| rule in rules && MatchesRequest(parsers, rule, request) {
      var pass := match rule.action case Block => BlockPass case ManualApproval(_) => ApprovalPass case _ => AllowPass;
      assert Applies(parsers, request, pass, rule);
    }
  }

  lemma LimitNeedsAllow(parsers: Parsers, request: Request, rules: seq<PolicyRule>, clock: seq<nat>, e: Entries)
    requires |clock| == |rules|
    ensures AnyExceeds(parsers, request, rules, clock, e) ==>
              Any(parsers, request, AllowPass, rules)
  {
    if i: nat :| Exceeds(parsers, request, rules, clock, e, i) {
      assert rules[i] in rules && Applies(parsers, request, AllowPass, rules[i]);
    }
  }

  /** Adding rules never lowers the severity, except that in enforced deny mode a request no
      rule applied to may be let through by the new ones; the exception is exact. */
  lemma MoreRulesNeverWeakerIff(
    parsers: Parsers, request: Request, rules: seq<PolicyRule>, more: seq<PolicyRule>, now: nat, e: Entries)
    requires DistinctRateIds(rules) && DistinctRateIds(more)
    requires forall rule | rule in rules :: rule in more
    ensures Severity(ClassOf(DecideAt(parsers, request, rules, now, e)))
         <= Severity(ClassOf(DecideAt(parsers, request, more, now, e)))
       <==> !(&& EnforcedDeny(request)
              && !AnyMatches(parsers, request, rules)
              && AnyMatches(parsers, request, more)
              && !Any(parsers, request, BlockPass, more))
  {
    StrictestWins(parsers, request, rules, AllAt(rules, now), e);
    StrictestWins(parsers, request, more, AllAt(more, now), e);
    ExceedsCarriesOver(parsers, request, rules, more, now, e);
    AnyCarriesOver(parsers, request, BlockPass, rules, more);
    AnyCarriesOver(parsers, request, ApprovalPass, rules, more);
    AnyCarriesOver(parsers, request, AllowPass, rules, more);
    AppliesInOneWay(parsers, request, rules);
    AppliesInOneWay(parsers, request, more);
    LimitNeedsAllow(parsers, request, rules, AllAt(rules, now), e);
    LimitNeedsAllow(parsers, request, more, AllAt(more, now), e);
  }

  /** The exception is real: in enforced deny mode a request no rule speaks of is denied, and an
      allow rule for every path lets it through. */
  lemma AllowRuleLiftsDefaultDeny(parsers: Parsers, request: Request, now: nat, e: Entries)
    requires EnforcedDeny(request)
    ensures DecideAt(parsers, request, [], now, e) == BlockedByDefaultPolicy
    ensures var allow := PolicyRule("allow all", "*", None, Allow, None, Project);
            DecideAt(parsers, request, [allow], now, e) == Allowed
  {
    var allow := PolicyRule("allow all", "*", None, Allow, None, Project);
    assert Applies(parsers, request, AllowPass, allow);
    assert [allow][0] == allow && [allow][1..] == [];
  }

  // ── Streaming ─────────────────────────────────────────────────────────

  /** When no rule asks for the body to be buffered, every body, present or not, gives the
      same decision and the same counters. */
  lemma {:induction false} StreamingIsSafe(
    parsers: Parsers, request: Request, body: Body, rules: seq<PolicyRule>, clock: seq<nat>, e: Entries)
    requires |clock| == |rules| && !NeedsBodyBuffer(rules)
    ensures EvaluateSpec(parsers, request, rules, clock, e)
         == EvaluateSpec(parsers, request.(body := body), rules, clock, e)
  {
    var other := request.(body := body);
    forall rule | rule in rules
      ensures MatchesRequest(parsers, rule, request) == MatchesRequest(parsers, rule, other)
    {
      BodyIrrelevant(parsers, rules, rule, request.body, body);
    }
    FirstAgrees(parsers, request, other, BlockPass, rules);
    FirstAgrees(parsers, request, other, ApprovalPass, rules);
    FirstAgrees(parsers, request, other, AllowPass, rules);
    RatePassAgrees(parsers, request, other, rules, clock, e);
  }

  lemma {:induction false} FirstAgrees(parsers: Parsers, a: Request, b: Request, pass: Pass, rules: seq<PolicyRule>)
    requires forall rule | rule in rules :: MatchesRequest(parsers, rule, a) == MatchesRequest(parsers, rule, b)
    ensures First(parsers, a, pass, rules) == First(parsers, b, pass, rules)
    decreases |rules|
  {
    if rules != [] && !Applies(parsers, a, pass, rules[0]) {
      FirstAgrees(parsers, a, b, pass, rules[1..]);
    }
  }

  lemma {:induction false} RatePassAgrees(
    parsers: Parsers, a: Request, b: Request, rules: seq<PolicyRule>, clock: seq<nat>, e: Entries)
    requires |clock| == |rules| && b == a.(body := b.body)
    requires forall rule | rule in rules :: MatchesRequest(parsers, rule, a) == MatchesRequest(parsers, rule, b)
    ensures RatePass(parsers, a, rules, clock, e) == RatePass(parsers, b, rules, clock, e)
    decreases |rules|
  {
    if rules != [] {
      assert MatchesRequest(parsers, rules[0], a) == MatchesRequest(parsers, rules[0], b);
      if !Counts(parsers, a, rules[0]) {
        RatePassAgrees(parsers, a, b, rules[1..], clock[1..], e);
      } else {
        var key := KeyAt(a, rules[0], clock[0]);
        RatePassAgrees(parsers, a, b, rules[1..], clock[1..],
                       e[key := Bumped(e, key, rules[0].action.windowSecs, clock[0])]);
      }
    }
  }
}
