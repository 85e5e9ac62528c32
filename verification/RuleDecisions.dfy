/** What a list of rules decides, in terms of the rules' own fields (policy.rs): which requests a rule
    covers, said without the matcher, and which decision follows, said without the passes. */
module RuleDecisions {
  import opened Wrappers
  import opened Text
  import opened PolicyRules
  import opened ConditionMatch
  import opened Cache
  import opened Policy
  import Globs

  // ── Which requests a rule covers ──────────────────────────────────────

  /** The same character, or one letter in its two cases. */
  predicate SameLetter(a: char, b: char) {
    || a == b
    || ('A' <= a <= 'Z' && b as int == a as int + 32)
    || ('A' <= b <= 'Z' && a as int == b as int + 32)
  }

  predicate SameWord(s: string, t: string) {
    |s| == |t| && forall i | 0 <= i < |s| :: SameLetter(s[i], t[i])
  }

  /** The path asks what a push may do: `info/refs` with the query piece `service=git-receive-pack`. */
  ghost predicate AsksForPush(path: string) {
    exists front: string, before: string, after: string :: PushAt(path, front, before, after)
  }

  predicate PushAt(path: string, front: string, before: string, after: string) {
    && '?' !in front && path == front + "/info/refs" + ['?'] + (before + "service=git-receive-pack" + after)
    && (before == "" || before[|before| - 1] == '&') && (after == "" || after[0] == '&')
  }

  /** A well-formed entry of a rule's raw conditions, and what it states; without an operator it is "eq". */
  predicate States(entry: Json, c: Condition) {
    && entry.Obj?
    && "target" in entry.fields && entry.fields["target"] == Str(c.target)
    && "value" in entry.fields && entry.fields["value"] == Str(c.value)
    && (if "operator" in entry.fields && entry.fields["operator"].Str?
        then entry.fields["operator"] == Str(c.operator) else c.operator == "eq")
  }

  ghost predicate Stated(raw: Option<Json>, c: Condition) {
    raw.Some? && raw.value.Arr? && exists entry :: entry in raw.value.items && States(entry, c)
  }

  ghost predicate ConditionsHold(parsers: Parsers, raw: Option<Json>, body: Body) {
    forall c | Stated(raw, c) :: ConditionMatches(parsers, c, body)
  }

  /** A rule with this pattern, method and conditions covers the request: by path and method, or as the
      first half of a push it is written against. */
  ghost predicate Covers(parsers: Parsers, pattern: string, httpMethod: Option<string>, raw: Option<Json>,
                         request: Request)
  {
    && ConditionsHold(parsers, raw, request.body)
    && (|| (&& Globs.Denotes(pattern, Before(request.path, '?'))
            && (httpMethod.None? || SameWord(httpMethod.value, request.httpMethod)))
        || PushDiscovery(pattern, request))
  }

  ghost predicate PushDiscovery(pattern: string, request: Request) {
    EndsWith(pattern, "/git-receive-pack") && SameWord(request.httpMethod, "GET") && AsksForPush(request.path)
  }

  ghost predicate RuleCovers(parsers: Parsers, rule: PolicyRule, request: Request) {
    Covers(parsers, rule.pathPattern, rule.httpMethod, rule.conditionsRaw, request)
  }

  // ── The matcher agrees ────────────────────────────────────────────────

  lemma SameWordIff(s: string, t: string)
    ensures EqIgnoreCase(s, t) <==> SameWord(s, t)
  {
    forall a: char, b: char ensures ToLower(a) == ToLower(b) <==> SameLetter(a, b) {
    }
  }

  lemma AsksForPushIff(path: string)
    ensures IsGitPushDiscovery(path) <==> AsksForPush(path)
  {
    if IsGitPushDiscovery(path) {
      PushSplits(path);
    }
    if AsksForPush(path) {
      var front: string, before: string, after: string :| PushAt(path, front, before, after);
      PushJoins(path, front, before, after);
    }
  }

  lemma NoPushWithoutQuery(path: string)
    requires '?' !in path
    ensures !IsGitPushDiscovery(path)
  {
    SplitHead("", '&', "");
    assert "service=git-receive-pack" != "";
  }

  lemma EndsAt(s: string, t: string)
    requires EndsWith(s, t)
    ensures s == s[..|s| - |t|] + t
  {
  }

  lemma Pushes(path: string, base: string, query: string, front: string, before: string, after: string)
    requires path == base + ['?'] + query && base == front + "/info/refs" && '?' !in base
    requires PieceAt(query, '&', before, "service=git-receive-pack", after)
    ensures PushAt(path, front, before, after)
  {
    assert front <= base;
  }

  lemma PushSplits(path: string)
    requires IsGitPushDiscovery(path)
    ensures AsksForPush(path)
  {
    if '?' !in path {
      NoPushWithoutQuery(path);
    }
    var base, query := Before(path, '?'), path[|Before(path, '?')| + 1..];
    CutAt(path, '?');
    EndsAt(base, "/info/refs");
    var before, after := SplitGives(query, '&', "service=git-receive-pack");
    Pushes(path, base, query, base[..|base| - |"/info/refs"|], before, after);
  }

  lemma PushJoins(path: string, front: string, before: string, after: string)
    requires PushAt(path, front, before, after)
    ensures IsGitPushDiscovery(path)
  {
    var base, query := front + "/info/refs", before + "service=git-receive-pack" + after;
    assert '?' !in base;
    BeforeIs(base, '?', query);
    assert path == base + ['?'] + query;
    assert path[|base| + 1..] == query;
    assert base[|base| - |"/info/refs"|..] == "/info/refs";
    SplitHas(query, '&', before, "service=git-receive-pack", after);
  }

  lemma DecodeIff(entry: Json, c: Condition)
    ensures DecodeCondition(entry) == Some(c) <==> States(entry, c)
  {
  }

  lemma {:induction false} DecodeAllIff(entries: seq<Json>, c: Condition)
    ensures c in DecodeAll(entries) <==> exists entry :: entry in entries && States(entry, c)
  {
    if entries != [] {
      DecodeIff(entries[0], c);
      DecodeAllIff(entries[1..], c);
      assert forall entry :: entry in entries <==> entry == entries[0] || entry in entries[1..];
    }
  }

  lemma ConditionsIff(parsers: Parsers, rule: PolicyRule, body: Body)
    ensures forall c :: c in Conditions(rule) <==> Stated(rule.conditionsRaw, c)
    ensures ConditionsMatch(parsers, rule, body) <==> ConditionsHold(parsers, rule.conditionsRaw, body)
  {
    forall c ensures c in Conditions(rule) <==> Stated(rule.conditionsRaw, c) {
      if rule.conditionsRaw.Some? && rule.conditionsRaw.value.Arr? {
        DecodeAllIff(rule.conditionsRaw.value.items, c);
      }
    }
    if ConditionsHold(parsers, rule.conditionsRaw, body) {
      forall i | 0 <= i < |Conditions(rule)| ensures ConditionMatches(parsers, Conditions(rule)[i], body) {
        assert Conditions(rule)[i] in Conditions(rule);
      }
    }
  }

  lemma MatchesIff(parsers: Parsers, rule: PolicyRule, request: Request)
    ensures MatchesRequest(parsers, rule, request) <==> RuleCovers(parsers, rule, request)
  {
    Globs.PathMatchesIsDenotation(request.path, rule.pathPattern);
    if rule.httpMethod.Some? {
      SameWordIff(rule.httpMethod.value, request.httpMethod);
    }
    SameWordIff(request.httpMethod, "GET");
    AsksForPushIff(request.path);
    ConditionsIff(parsers, rule, request.body);
  }

  /** The body is buffered exactly when some rule states a condition on it. */
  lemma BufferIff(rules: seq<PolicyRule>)
    ensures NeedsBodyBuffer(rules)
       <==> exists rule, c :: rule in rules && Stated(rule.conditionsRaw, c)
                              && (MCP_TOOL <= c.target || BODY_JSON <= c.target)
  {
    forall i | 0 <= i < |rules|
      ensures RuleNeedsBody(rules[i])
         <==> exists c :: Stated(rules[i].conditionsRaw, c) && (MCP_TOOL <= c.target || BODY_JSON <= c.target)
    {
      BufferRuleIff(rules[i]);
    }
  }

  lemma BufferRuleIff(rule: PolicyRule)
    ensures RuleNeedsBody(rule)
       <==> exists c :: Stated(rule.conditionsRaw, c) && (MCP_TOOL <= c.target || BODY_JSON <= c.target)
  {
    ConditionsIff(Parsers(_ => None, _ => None, (_, _) => false), rule, None);
    if c :| Stated(rule.conditionsRaw, c) && (MCP_TOOL <= c.target || BODY_JSON <= c.target) {
      assert c in Conditions(rule);
      var i :| 0 <= i < |Conditions(rule)| && Conditions(rule)[i] == c;
    }
    if i :| 0 <= i < |Conditions(rule)|
            && (MCP_TOOL <= Conditions(rule)[i].target || BODY_JSON <= Conditions(rule)[i].target) {
      assert Conditions(rule)[i] in Conditions(rule);
    }
  }

  // ── Which decision follows ────────────────────────────────────────────

  predicate IsBlock(action: PolicyAction) { action.Block? }
  predicate IsApproval(action: PolicyAction) { action.ManualApproval? }
  predicate Permits(action: PolicyAction) { action.Allow? || action.RateLimit? }

  /** Some rule of this kind covers the request. */
  ghost predicate Covered(parsers: Parsers, request: Request, rules: seq<PolicyRule>, kind: PolicyAction -> bool) {
    exists rule :: rule in rules && kind(rule.action) && RuleCovers(parsers, rule, request)
  }

  /** Rule `i` is the first of its kind that does. */
  ghost predicate FirstOf(parsers: Parsers, request: Request, rules: seq<PolicyRule>, kind: PolicyAction -> bool,
                          i: nat)
  {
    && i < |rules| && kind(rules[i].action) && RuleCovers(parsers, rules[i], request)
    && forall j | 0 <= j < i :: !(kind(rules[j].action) && RuleCovers(parsers, rules[j], request))
  }

  function KindOf(pass: Pass): PolicyAction -> bool {
    match pass
    case BlockPass => IsBlock
    case ApprovalPass => IsApproval
    case AllowPass => Permits
  }

  lemma AppliesIff(parsers: Parsers, request: Request, pass: Pass, rule: PolicyRule)
    ensures Applies(parsers, request, pass, rule) <==> KindOf(pass)(rule.action) && RuleCovers(parsers, rule, request)
  {
    MatchesIff(parsers, rule, request);
  }

  /** A pass ends at the first covering rule of its kind, if there is one. */
  lemma FirstIff(parsers: Parsers, request: Request, pass: Pass, rules: seq<PolicyRule>)
    ensures var k := First(parsers, request, pass, rules);
            && (k < |rules| <==> Covered(parsers, request, rules, KindOf(pass)))
            && (k < |rules| ==> FirstOf(parsers, request, rules, KindOf(pass), k))
  {
    forall rule ensures Applies(parsers, request, pass, rule)
                   <==> KindOf(pass)(rule.action) && RuleCovers(parsers, rule, request)
    {
      AppliesIff(parsers, request, pass, rule);
    }
    if rule :| rule in rules && KindOf(pass)(rule.action) && RuleCovers(parsers, rule, request) {
      var i :| 0 <= i < |rules| && rules[i] == rule;
    }
  }

  /** Rule `i` is a rate rule that covers the request, and the decision is its own limit. */
  ghost predicate LimitedBy(parsers: Parsers, request: Request, rules: seq<PolicyRule>, d: PolicyDecision, i: nat) {
    && i < |rules| && rules[i].action.RateLimit? && RuleCovers(parsers, rules[i], request) && d.RateLimited?
    && d.ruleName == rules[i].name && d.limit == rules[i].action.maxRequests
    && (rules[i].action.windowSecs == 60 ==> d.window == "minute")
    && (rules[i].action.windowSecs == 3600 ==> d.window == "hour")
    && (rules[i].action.windowSecs == 86400 ==> d.window == "day")
  }

  lemma {:induction false} LimitNamesRule(
    parsers: Parsers, request: Request, rules: seq<PolicyRule>, clock: seq<nat>, e: Entries) returns (i: nat)
    requires |clock| == |rules| && RatePass(parsers, request, rules, clock, e).0.RateLimited?
    ensures LimitedBy(parsers, request, rules, RatePass(parsers, request, rules, clock, e).0, i)
    decreases |rules|
  {
    var rule, now := rules[0], clock[0];
    MatchesIff(parsers, rule, request);
    if !Counts(parsers, request, rule) {
      i := LimitNamesRule(parsers, request, rules[1..], clock[1..], e);
      i := i + 1;
    } else {
      var key := KeyAt(request, rule, now);
      if Counter(e, key, now) + 1 > rule.action.maxRequests {
        i := 0;
      } else {
        i := LimitNamesRule(parsers, request, rules[1..], clock[1..],
                            e[key := Bumped(e, key, rule.action.windowSecs, now)]);
        i := i + 1;
      }
    }
  }

  lemma {:induction false} PassAllowsOrLimits(
    parsers: Parsers, request: Request, rules: seq<PolicyRule>, clock: seq<nat>, e: Entries)
    requires |clock| == |rules|
    ensures RatePass(parsers, request, rules, clock, e).0.RateLimited?
            || RatePass(parsers, request, rules, clock, e).0 == Allowed
    decreases |rules|
  {
    if rules != [] {
      var key := if Counts(parsers, request, rules[0]) then KeyAt(request, rules[0], clock[0]) else "";
      PassAllowsOrLimits(parsers, request, rules[1..], clock[1..], e);
      if Counts(parsers, request, rules[0]) {
        PassAllowsOrLimits(parsers, request, rules[1..], clock[1..],
                           e[key := Bumped(e, key, rules[0].action.windowSecs, clock[0])]);
      }
    }
  }

  /** What is decided, from the rules' own fields. A covering block rule decides first and a covering
      approval rule next, each by the first one's name or id; a limit is that of a covering rate rule;
      and without any of them a request is denied by default exactly in enforced deny mode when no
      allow or rate rule covers it. */
  lemma DecisionFromRules(
    parsers: Parsers, request: Request, rules: seq<PolicyRule>, clock: seq<nat>, e: Entries, d: PolicyDecision)
    requires |clock| == |rules| && d == EvaluateSpec(parsers, request, rules, clock, e).0
    ensures d.Blocked? <==> Covered(parsers, request, rules, IsBlock)
    ensures d.Blocked? ==> exists i: nat :: FirstOf(parsers, request, rules, IsBlock, i) && d.ruleName == rules[i].name
    ensures d.NeedsApproval? <==> !Covered(parsers, request, rules, IsBlock)
                                  && Covered(parsers, request, rules, IsApproval)
    ensures d.NeedsApproval? ==> exists i: nat :: FirstOf(parsers, request, rules, IsApproval, i)
                                             && rules[i].action == ManualApproval(d.ruleId)
    ensures d.RateLimited? ==> exists i: nat :: LimitedBy(parsers, request, rules, d, i)
    ensures d.BlockedByDefaultPolicy? <==>
              && !d.Blocked? && !d.NeedsApproval? && !d.RateLimited?
              && request.policyMode == "deny" && request.enforceDeny && !Covered(parsers, request, rules, Permits)
  {
    FirstIff(parsers, request, BlockPass, rules);
    FirstIff(parsers, request, ApprovalPass, rules);
    FirstIff(parsers, request, AllowPass, rules);
    PassAllowsOrLimits(parsers, request, rules, clock, e);
    if d.RateLimited? {
      var i := LimitNamesRule(parsers, request, rules, clock, e);
    }
  }

  /** The counter of a rate rule for this agent in the window of `t`. */
  function WindowCounter(request: Request, ruleId: string, windowSecs: nat, t: nat): string {
    "rate:" + request.orgId + ":" + request.projectId + ":" + ruleId + ":" + request.agentToken + ":"
    + ToDecimal(if windowSecs == 0 then t else t / windowSecs)
  }

  /** Rate rule `i` covers the request, which finds its counter at the limit. */
  ghost predicate Exhausted(parsers: Parsers, request: Request, rules: seq<PolicyRule>, clock: seq<nat>, e: Entries,
                            i: nat)
    requires |clock| == |rules|
  {
    && i < |rules| && rules[i].action.RateLimit? && RuleCovers(parsers, rules[i], request)
    && var action := rules[i].action;
       Counter(e, WindowCounter(request, action.ruleId, action.windowSecs, clock[i]), clock[i]) >= action.maxRequests
  }

  lemma ExceedsIff(parsers: Parsers, request: Request, rules: seq<PolicyRule>, clock: seq<nat>, e: Entries, i: nat)
    requires |clock| == |rules|
    ensures Exceeds(parsers, request, rules, clock, e, i) <==> Exhausted(parsers, request, rules, clock, e, i)
  {
    if i < |rules| {
      MatchesIff(parsers, rules[i], request);
    }
  }

  lemma {:induction false} LimitedByExhausted(
    parsers: Parsers, request: Request, rules: seq<PolicyRule>, clock: seq<nat>, e: Entries) returns (i: nat)
    requires |clock| == |rules| && DistinctRateIds(rules)
    requires RatePass(parsers, request, rules, clock, e).0.RateLimited?
    ensures Exceeds(parsers, request, rules, clock, e, i)
    ensures RatePass(parsers, request, rules, clock, e).0 == Limited(rules[i], clock[i])
    decreases |rules|
  {
    if !Counts(parsers, request, rules[0]) {
      i := LimitedByExhausted(parsers, request, rules[1..], clock[1..], e);
      i := i + 1;
    } else {
      var key := KeyAt(request, rules[0], clock[0]);
      if Counter(e, key, clock[0]) + 1 > rules[0].action.maxRequests {
        i := 0;
      } else {
        var f := e[key := Bumped(e, key, rules[0].action.windowSecs, clock[0])];
        i := LimitedByExhausted(parsers, request, rules[1..], clock[1..], f);
        i := i + 1;
        OtherKeys(request, rules, clock);
        CounterIsLocal(e, f, KeyAt(request, rules[i], clock[i]), clock[i], 0);
      }
    }
  }

  /** A request is limited exactly when no block or approval rule covers it and it finds the counter of
      a covering rate rule exhausted; the answer is the limit of such a rule. */
  lemma LimitedIff(parsers: Parsers, request: Request, rules: seq<PolicyRule>, clock: seq<nat>, e: Entries)
    requires |clock| == |rules| && DistinctRateIds(rules)
    ensures var d := EvaluateSpec(parsers, request, rules, clock, e).0;
            && (d.RateLimited? <==>
                  && !Covered(parsers, request, rules, IsBlock) && !Covered(parsers, request, rules, IsApproval)
                  && exists i: nat :: Exhausted(parsers, request, rules, clock, e, i))
            && (d.RateLimited? ==> exists i: nat :: Exhausted(parsers, request, rules, clock, e, i)
                                                    && LimitedBy(parsers, request, rules, d, i))
  {
    var d := EvaluateSpec(parsers, request, rules, clock, e).0;
    DecisionFromRules(parsers, request, rules, clock, e, d);
    RatePassEffect(parsers, request, rules, clock, e);
    forall i: nat ensures Exceeds(parsers, request, rules, clock, e, i)
                     <==> Exhausted(parsers, request, rules, clock, e, i)
    {
      ExceedsIff(parsers, request, rules, clock, e, i);
    }
    if d.RateLimited? {
      var i := LimitedByExhausted(parsers, request, rules, clock, e);
      assert LimitedBy(parsers, request, rules, d, i);
    }
  }

  /** A list with one block rule blocks exactly what the rule covers. */
  lemma OneBlockRule(parsers: Parsers, request: Request, rule: PolicyRule, now: nat, e: Entries)
    requires rule.action == Block
    ensures EvaluateSpec(parsers, request, [rule], [now], e).0.Blocked? <==> RuleCovers(parsers, rule, request)
  {
    DecisionFromRules(parsers, request, [rule], [now], e, EvaluateSpec(parsers, request, [rule], [now], e).0);
    assert forall r :: r in [rule] <==> r == rule;
  }

  // ── Rules that do not cover a request ─────────────────────────────────

  lemma Cons<T>(x: T, a: seq<T>, y: T, b: seq<T>)
    ensures ([x] + a + [y] + b)[0] == x && ([x] + a + [y] + b)[1..] == a + [y] + b
    ensures ([x] + a + b)[0] == x && ([x] + a + b)[1..] == a + b
  {
  }

  lemma {:induction false} FirstSkips(parsers: Parsers, request: Request, pass: Pass, a: seq<PolicyRule>,
                                      rule: PolicyRule, b: seq<PolicyRule>)
    requires !Applies(parsers, request, pass, rule)
    ensures var k, l := First(parsers, request, pass, a + b), First(parsers, request, pass, a + [rule] + b);
            l == if k < |a| then k else k + 1
    decreases |a|
  {
    if a == [] {
      assert a + b == b && (a + [rule] + b)[0] == rule && (a + [rule] + b)[1..] == b;
    } else {
      assert a == [a[0]] + a[1..];
      Cons(a[0], a[1..], rule, b);
      FirstSkips(parsers, request, pass, a[1..], rule, b);
    }
  }

  lemma {:induction false} RatePassSkips(
    parsers: Parsers, request: Request, a: seq<PolicyRule>, rule: PolicyRule, b: seq<PolicyRule>,
    ca: seq<nat>, now: nat, cb: seq<nat>, e: Entries)
    requires |ca| == |a| && |cb| == |b| && !Counts(parsers, request, rule)
    ensures RatePass(parsers, request, a + [rule] + b, ca + [now] + cb, e)
         == RatePass(parsers, request, a + b, ca + cb, e)
    decreases |a|
  {
    if a == [] {
      assert a + b == b && (a + [rule] + b)[0] == rule && (a + [rule] + b)[1..] == b;
      assert ca + cb == cb && (ca + [now] + cb)[1..] == cb;
    } else {
      assert a == [a[0]] + a[1..] && ca == [ca[0]] + ca[1..];
      Cons(a[0], a[1..], rule, b);
      Cons(ca[0], ca[1..], now, cb);
      RatePassSkips(parsers, request, a[1..], rule, b, ca[1..], now, cb, e);
      if Counts(parsers, request, a[0]) {
        var key := KeyAt(request, a[0], ca[0]);
        RatePassSkips(parsers, request, a[1..], rule, b, ca[1..], now, cb,
                      e[key := Bumped(e, key, a[0].action.windowSecs, ca[0])]);
      }
    }
  }

  /** One pass finds the same rule in both lists, or none in both. */
  predicate SameFound(parsers: Parsers, request: Request, pass: Pass, rules: seq<PolicyRule>, fewer: seq<PolicyRule>) {
    var k, l := First(parsers, request, pass, fewer), First(parsers, request, pass, rules);
    (k < |fewer| <==> l < |rules|) && (k < |fewer| ==> rules[l] == fewer[k])
  }

  lemma FoundSkips(parsers: Parsers, request: Request, pass: Pass, a: seq<PolicyRule>, rule: PolicyRule,
                   b: seq<PolicyRule>)
    requires !Applies(parsers, request, pass, rule)
    ensures SameFound(parsers, request, pass, a + [rule] + b, a + b)
  {
    FirstSkips(parsers, request, pass, a, rule, b);
  }

  lemma SameParts(parsers: Parsers, request: Request, rules: seq<PolicyRule>, fewer: seq<PolicyRule>,
                  clock: seq<nat>, times: seq<nat>, e: Entries)
    requires |clock| == |rules| && |times| == |fewer|
    requires SameFound(parsers, request, BlockPass, rules, fewer)
    requires SameFound(parsers, request, ApprovalPass, rules, fewer)
    requires SameFound(parsers, request, AllowPass, rules, fewer)
    requires RatePass(parsers, request, rules, clock, e) == RatePass(parsers, request, fewer, times, e)
    ensures EvaluateSpec(parsers, request, rules, clock, e) == EvaluateSpec(parsers, request, fewer, times, e)
  {
  }

  /** A rule that does not cover the request changes neither the decision nor a counter, wherever it
      stands in the list. */
  lemma UncoveringChangesNothing(
    parsers: Parsers, request: Request, a: seq<PolicyRule>, rule: PolicyRule, b: seq<PolicyRule>,
    ca: seq<nat>, now: nat, cb: seq<nat>, e: Entries)
    requires |ca| == |a| && |cb| == |b| && !RuleCovers(parsers, rule, request)
    ensures EvaluateSpec(parsers, request, a + [rule] + b, ca + [now] + cb, e)
         == EvaluateSpec(parsers, request, a + b, ca + cb, e)
  {
    MatchesIff(parsers, rule, request);
    FoundSkips(parsers, request, BlockPass, a, rule, b);
    FoundSkips(parsers, request, ApprovalPass, a, rule, b);
    FoundSkips(parsers, request, AllowPass, a, rule, b);
    RatePassSkips(parsers, request, a, rule, b, ca, now, cb, e);
    SameParts(parsers, request, a + [rule] + b, a + b, ca + [now] + cb, ca + cb, e);
  }

  /** So a rule for one method never decides a request of another, but for the first half of a push. */
  lemma OtherMethodNeverDecides(
    parsers: Parsers, request: Request, a: seq<PolicyRule>, rule: PolicyRule, b: seq<PolicyRule>,
    ca: seq<nat>, now: nat, cb: seq<nat>, e: Entries)
    requires |ca| == |a| && |cb| == |b| && rule.httpMethod.Some?
    requires !SameWord(rule.httpMethod.value, request.httpMethod) && !PushDiscovery(rule.pathPattern, request)
    ensures EvaluateSpec(parsers, request, a + [rule] + b, ca + [now] + cb, e)
         == EvaluateSpec(parsers, request, a + b, ca + cb, e)
  {
    UncoveringChangesNothing(parsers, request, a, rule, b, ca, now, cb, e);
  }
}
