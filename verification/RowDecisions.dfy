/** From policy rows in the database to decisions (connect.rs, policy.rs): what each row makes of the
    requests it covers, in terms of the row's own columns. */
module RowDecisions {
  import opened Wrappers
  import opened Text
  import opened PolicyRules
  import opened ConditionMatch
  import opened Cache
  import opened Policy
  import opened PolicyResolution
  import opened RuleDecisions

  // ── What a row says ───────────────────────────────────────────────────

  /** The row is for this host, by name or by a wildcard for what stands in front, and for this agent or
      for all agents. */
  ghost predicate Governs(row: PolicyRow, agentId: string, host: string) {
    && (|| row.hostPattern == host
        || exists front: string, suffix: string ::
             front != "" && host == front + suffix && row.hostPattern == "*" + suffix)
    && (row.agentId == None || row.agentId == Some(agentId))
  }

  /** A limit of `n` requests in a minute, an hour or a day. */
  predicate Limits(row: PolicyRow, n: nat, secs: nat) {
    && row.action == "rate_limit" && row.rateLimit == Some(n) && n > 0
    && (|| (row.rateLimitWindow == Some("minute") && secs == 60)
        || (row.rateLimitWindow == Some("hour") && secs == 3600)
        || (row.rateLimitWindow == Some("day") && secs == 86400))
  }

  /** The row is well formed, and this is what it does. */
  predicate Gives(row: PolicyRow, action: PolicyAction) {
    match action
    case Block => row.action == "block"
    case ManualApproval(id) => row.action == "manual_approval" && id == row.id
    case RateLimit(id, n, secs) => id == row.id && Limits(row, n, secs)
    case Allow => row.action == "allow"
  }

  function PatternOf(row: PolicyRow): string {
    if row.pathPattern.Some? then row.pathPattern.value else "*"
  }

  ghost predicate RowCovers(parsers: Parsers, row: PolicyRow, request: Request) {
    Covers(parsers, PatternOf(row), row.httpMethod, row.conditions, request)
  }

  /** Among the rows of organization and project, a row that governs the agent and the host and covers
      the request. */
  ghost predicate Standing(parsers: Parsers, request: Request, orgRows: seq<PolicyRow>, projectRows: seq<PolicyRow>,
                           agentId: string, host: string, row: PolicyRow)
  {
    (row in orgRows || row in projectRows) && Governs(row, agentId, host) && RowCovers(parsers, row, request)
  }

  // ── The resolver agrees ───────────────────────────────────────────────

  lemma GovernsIff(row: PolicyRow, agentId: string, host: string)
    ensures AppliesTo(row, agentId, host) <==> Governs(row, agentId, host)
  {
    if "*" <= row.hostPattern {
      var rest := row.hostPattern[1..];
      assert row.hostPattern == "*" + rest;
      WildcardHosts(host, rest);
    }
    if front: string, suffix: string :| front != "" && host == front + suffix && row.hostPattern == "*" + suffix {
      assert row.hostPattern[1..] == suffix;
      WildcardHosts(host, suffix);
    }
  }

  lemma ActionIff(row: PolicyRow, action: PolicyAction)
    ensures ActionOf(row) == Some(action) <==> Gives(row, action)
  {
  }

  lemma InertIff(row: PolicyRow)
    ensures ActionOf(row).None? <==> forall action :: !Gives(row, action)
  {
    forall action ensures ActionOf(row) == Some(action) <==> Gives(row, action) {
      ActionIff(row, action);
    }
  }

  lemma {:induction false} ResolveConcat(a: seq<TaggedRow>, b: seq<TaggedRow>, agentId: string, host: string)
    ensures Resolve(a + b, agentId, host) == Resolve(a, agentId, host) + Resolve(b, agentId, host)
  {
    if a == [] {
      assert a + b == b;
    } else {
      assert (a + b)[1..] == a[1..] + b;
      ResolveConcat(a[1..], b, agentId, host);
    }
  }

  lemma TaggedConcat(a: seq<PolicyRow>, b: seq<PolicyRow>)
    ensures Tagged(a + b, []) == Tagged(a, []) + Tagged(b, [])
    ensures Tagged([], a + b) == Tagged([], a) + Tagged([], b)
    ensures Tagged(a, b) == Tagged(a, []) + Tagged([], b)
  {
  }

  /** The organization's rows come first, and each row is resolved by itself. */
  lemma ResolvedInOrder(a: seq<PolicyRow>, b: seq<PolicyRow>, agentId: string, host: string)
    ensures ResolvePolicyRules(a, b, agentId, host)
         == ResolvePolicyRules(a, [], agentId, host) + ResolvePolicyRules([], b, agentId, host)
    ensures ResolvePolicyRules(a + b, [], agentId, host)
         == ResolvePolicyRules(a, [], agentId, host) + ResolvePolicyRules(b, [], agentId, host)
    ensures ResolvePolicyRules([], a + b, agentId, host)
         == ResolvePolicyRules([], a, agentId, host) + ResolvePolicyRules([], b, agentId, host)
  {
    TaggedConcat(a, b);
    ResolveConcat(Tagged(a, []), Tagged([], b), agentId, host);
    ResolveConcat(Tagged(a, []), Tagged(b, []), agentId, host);
    ResolveConcat(Tagged([], a), Tagged([], b), agentId, host);
  }

  lemma ResolveOne(t: TaggedRow, agentId: string, host: string)
    ensures Resolve([t], agentId, host)
         == if AppliesTo(t.row, agentId, host) && RuleOf(t).Some? then [RuleOf(t).value] else []
  {
    assert [t][1..] == [] && Resolve([], agentId, host) == [];
  }

  /** One row of the organization gives the rule its columns describe, in the organization's scope; a row
      of the project gives the same in the scope of the project, or of the agent it names. */
  lemma OneRow(row: PolicyRow, action: PolicyAction, agentId: string, host: string)
    requires Governs(row, agentId, host) && Gives(row, action)
    ensures ResolvePolicyRules([row], [], agentId, host)
         == [PolicyRule(row.name, PatternOf(row), row.httpMethod, action, row.conditions, Organization)]
    ensures ResolvePolicyRules([], [row], agentId, host)
         == [PolicyRule(row.name, PatternOf(row), row.httpMethod, action, row.conditions,
                        if row.agentId.Some? then Agent else Project)]
  {
    GovernsIff(row, agentId, host);
    ActionIff(row, action);
    var s, t := TaggedRow(row, Organization), TaggedRow(row, if row.agentId.Some? then Agent else Project);
    assert Tagged([row], []) == [s] && Tagged([], [row]) == [t];
    ResolveOne(s, agentId, host);
    ResolveOne(t, agentId, host);
  }

  lemma ResolveSkips(a: seq<TaggedRow>, t: TaggedRow, b: seq<TaggedRow>, agentId: string, host: string)
    requires Resolve([t], agentId, host) == []
    ensures Resolve(a + [t] + b, agentId, host) == Resolve(a + b, agentId, host)
  {
    ResolveConcat(a + [t], b, agentId, host);
    ResolveConcat(a, [t], agentId, host);
    ResolveConcat(a, b, agentId, host);
  }

  lemma TaggedAround(a: seq<PolicyRow>, row: PolicyRow, b: seq<PolicyRow>, others: seq<PolicyRow>)
    ensures Tagged(a + [row] + b, others)
         == Tagged(a, []) + [TaggedRow(row, Organization)] + Tagged(b, others)
    ensures Tagged(a + b, others) == Tagged(a, []) + Tagged(b, others)
    ensures Tagged(others, a + [row] + b)
         == Tagged(others, a) + [TaggedRow(row, if row.agentId.Some? then Agent else Project)] + Tagged([], b)
    ensures Tagged(others, a + b) == Tagged(others, a) + Tagged([], b)
  {
  }

  /** A row of another agent or host, or one that is not well formed, changes nothing. */
  lemma RowLeftOut(a: seq<PolicyRow>, row: PolicyRow, b: seq<PolicyRow>, others: seq<PolicyRow>,
                   agentId: string, host: string)
    requires !Governs(row, agentId, host) || forall action :: !Gives(row, action)
    ensures ResolvePolicyRules(a + [row] + b, others, agentId, host)
         == ResolvePolicyRules(a + b, others, agentId, host)
    ensures ResolvePolicyRules(others, a + [row] + b, agentId, host)
         == ResolvePolicyRules(others, a + b, agentId, host)
  {
    GovernsIff(row, agentId, host);
    InertIff(row);
    var s, t := TaggedRow(row, Organization), TaggedRow(row, if row.agentId.Some? then Agent else Project);
    ResolveOne(s, agentId, host);
    ResolveOne(t, agentId, host);
    TaggedAround(a, row, b, others);
    ResolveSkips(Tagged(a, []), s, Tagged(b, others), agentId, host);
    ResolveSkips(Tagged(others, a), t, Tagged([], b), agentId, host);
  }

  /** The rule with the columns of the row. */
  predicate RuleOfRow(row: PolicyRow, rule: PolicyRule) {
    && rule.name == row.name && rule.pathPattern == PatternOf(row) && rule.httpMethod == row.httpMethod
    && rule.conditionsRaw == row.conditions && Gives(row, rule.action)
  }

  lemma RowOfRule(orgRows: seq<PolicyRow>, projectRows: seq<PolicyRow>, agentId: string, host: string,
                  rule: PolicyRule) returns (row: PolicyRow)
    requires rule in ResolvePolicyRules(orgRows, projectRows, agentId, host)
    ensures (row in orgRows || row in projectRows) && Governs(row, agentId, host) && RuleOfRow(row, rule)
  {
    ResolvedFrom(Tagged(orgRows, projectRows), agentId, host, rule);
    var t :| t in Tagged(orgRows, projectRows) && AppliesTo(t.row, agentId, host) && RuleOf(t) == Some(rule);
    row := t.row;
    GovernsIff(row, agentId, host);
    ActionIff(row, rule.action);
  }

  lemma RuleFromRow(orgRows: seq<PolicyRow>, projectRows: seq<PolicyRow>, agentId: string, host: string,
                    row: PolicyRow, action: PolicyAction) returns (rule: PolicyRule)
    requires (row in orgRows || row in projectRows) && Governs(row, agentId, host) && Gives(row, action)
    ensures rule in ResolvePolicyRules(orgRows, projectRows, agentId, host)
    ensures RuleOfRow(row, rule) && rule.action == action
  {
    var tagged := Tagged(orgRows, projectRows);
    var k: nat;
    if row in orgRows {
      k :| k < |orgRows| && orgRows[k] == row;
    } else {
      var i: nat :| i < |projectRows| && projectRows[i] == row;
      k := |orgRows| + i;
    }
    assert tagged[k].row == row;
    GovernsIff(row, agentId, host);
    ActionIff(row, action);
    rule := RuleOf(tagged[k]).value;
    ResolvedFrom(tagged, agentId, host, rule);
  }

  /** Some standing row gives an action of this kind. */
  ghost predicate Demanded(parsers: Parsers, request: Request, orgRows: seq<PolicyRow>, projectRows: seq<PolicyRow>,
                           agentId: string, host: string, kind: PolicyAction -> bool)
  {
    exists row, action ::
      Standing(parsers, request, orgRows, projectRows, agentId, host, row) && Gives(row, action) && kind(action)
  }

  lemma DemandedIff(parsers: Parsers, request: Request, orgRows: seq<PolicyRow>, projectRows: seq<PolicyRow>,
                    agentId: string, host: string, kind: PolicyAction -> bool)
    ensures Covered(parsers, request, ResolvePolicyRules(orgRows, projectRows, agentId, host), kind)
       <==> Demanded(parsers, request, orgRows, projectRows, agentId, host, kind)
  {
    var rules := ResolvePolicyRules(orgRows, projectRows, agentId, host);
    if rule :| rule in rules && kind(rule.action) && RuleCovers(parsers, rule, request) {
      var row := RowOfRule(orgRows, projectRows, agentId, host, rule);
      assert Standing(parsers, request, orgRows, projectRows, agentId, host, row);
    }
    if row, action :| Standing(parsers, request, orgRows, projectRows, agentId, host, row)
                      && Gives(row, action) && kind(action) {
      var rule := RuleFromRow(orgRows, projectRows, agentId, host, row, action);
    }
  }

  // ── Decisions from rows ───────────────────────────────────────────────

  ghost predicate Stands(parsers: Parsers, request: Request, orgRows: seq<PolicyRow>, projectRows: seq<PolicyRow>,
                         agentId: string, host: string, action: string)
  {
    exists row :: Standing(parsers, request, orgRows, projectRows, agentId, host, row) && row.action == action
  }

  ghost predicate LimitStands(parsers: Parsers, request: Request, orgRows: seq<PolicyRow>,
                              projectRows: seq<PolicyRow>, agentId: string, host: string)
  {
    exists row, n: nat, secs: nat ::
      Standing(parsers, request, orgRows, projectRows, agentId, host, row) && Limits(row, n, secs)
  }

  lemma DemandsIff(parsers: Parsers, request: Request, orgRows: seq<PolicyRow>, projectRows: seq<PolicyRow>,
                   agentId: string, host: string)
    ensures Demanded(parsers, request, orgRows, projectRows, agentId, host, IsBlock)
       <==> Stands(parsers, request, orgRows, projectRows, agentId, host, "block")
    ensures Demanded(parsers, request, orgRows, projectRows, agentId, host, IsApproval)
       <==> Stands(parsers, request, orgRows, projectRows, agentId, host, "manual_approval")
    ensures Demanded(parsers, request, orgRows, projectRows, agentId, host, Permits)
       <==> Stands(parsers, request, orgRows, projectRows, agentId, host, "allow")
            || LimitStands(parsers, request, orgRows, projectRows, agentId, host)
  {
    forall row: PolicyRow
      ensures row.action == "block" <==> Gives(row, Block)
      ensures row.action == "allow" <==> Gives(row, Allow)
      ensures (row.action == "manual_approval" <==> Gives(row, ManualApproval(row.id)))
    {
    }
    forall row: PolicyRow, n: nat, secs: nat ensures Limits(row, n, secs) <==> Gives(row, RateLimit(row.id, n, secs)) {
    }
  }

  /** The rows' columns decide. A standing "block" row blocks the request whatever other rows exist, under
      the name of such a row; otherwise a standing "manual_approval" row holds it under its id; a limit is
      that of a standing "rate_limit" row, with its number and its window; and a default denial means
      enforced deny mode without a standing "allow" or well-formed "rate_limit" row. */
  lemma DecisionFromRows(
    parsers: Parsers, request: Request, orgRows: seq<PolicyRow>, projectRows: seq<PolicyRow>, agentId: string,
    host: string, clock: seq<nat>, e: Entries, d: PolicyDecision)
    requires |clock| == |ResolvePolicyRules(orgRows, projectRows, agentId, host)|
    requires d == EvaluateSpec(parsers, request, ResolvePolicyRules(orgRows, projectRows, agentId, host), clock, e).0
    ensures d.Blocked? <==> Stands(parsers, request, orgRows, projectRows, agentId, host, "block")
    ensures d.Blocked? ==>
              exists row :: Standing(parsers, request, orgRows, projectRows, agentId, host, row)
                            && row.action == "block" && row.name == d.ruleName
    ensures d.NeedsApproval? <==>
              && !Stands(parsers, request, orgRows, projectRows, agentId, host, "block")
              && Stands(parsers, request, orgRows, projectRows, agentId, host, "manual_approval")
    ensures d.NeedsApproval? ==>
              exists row :: Standing(parsers, request, orgRows, projectRows, agentId, host, row)
                            && row.action == "manual_approval" && row.id == d.ruleId
    ensures d.RateLimited? ==>
              exists row, secs: nat :: Standing(parsers, request, orgRows, projectRows, agentId, host, row)
                            && Limits(row, d.limit, secs) && row.name == d.ruleName
                            && row.rateLimitWindow == Some(d.window)
    ensures d.BlockedByDefaultPolicy? <==>
              && !d.Blocked? && !d.NeedsApproval? && !d.RateLimited?
              && request.policyMode == "deny" && request.enforceDeny
              && !Stands(parsers, request, orgRows, projectRows, agentId, host, "allow")
              && !LimitStands(parsers, request, orgRows, projectRows, agentId, host)
  {
    var rules := ResolvePolicyRules(orgRows, projectRows, agentId, host);
    DecisionFromRules(parsers, request, rules, clock, e, d);
    DemandedIff(parsers, request, orgRows, projectRows, agentId, host, IsBlock);
    DemandedIff(parsers, request, orgRows, projectRows, agentId, host, IsApproval);
    DemandedIff(parsers, request, orgRows, projectRows, agentId, host, Permits);
    DemandsIff(parsers, request, orgRows, projectRows, agentId, host);
    if d.Blocked? {
      var i: nat :| FirstOf(parsers, request, rules, IsBlock, i) && d.ruleName == rules[i].name;
      var row := RowOfRule(orgRows, projectRows, agentId, host, rules[i]);
    } else if d.NeedsApproval? {
      var i: nat :| FirstOf(parsers, request, rules, IsApproval, i) && rules[i].action == ManualApproval(d.ruleId);
      var row := RowOfRule(orgRows, projectRows, agentId, host, rules[i]);
    } else if d.RateLimited? {
      var i: nat :| LimitedBy(parsers, request, rules, d, i);
      var row := RowOfRule(orgRows, projectRows, agentId, host, rules[i]);
      assert Limits(row, d.limit, rules[i].action.windowSecs);
    }
  }

  /** A standing "rate_limit" row whose counter is exhausted in the window of now keeps the request from
      passing, whatever other rows exist. */
  lemma ExhaustedRowRefuses(
    parsers: Parsers, request: Request, orgRows: seq<PolicyRow>, projectRows: seq<PolicyRow>, agentId: string,
    host: string, clock: seq<nat>, now: nat, e: Entries, row: PolicyRow, n: nat, secs: nat)
    requires |clock| == |ResolvePolicyRules(orgRows, projectRows, agentId, host)|
    requires DistinctIds(Tagged(orgRows, projectRows)) && forall i | 0 <= i < |clock| :: clock[i] == now
    requires Standing(parsers, request, orgRows, projectRows, agentId, host, row) && Limits(row, n, secs)
    requires Counter(e, WindowCounter(request, row.id, secs, now), now) >= n
    ensures var rules := ResolvePolicyRules(orgRows, projectRows, agentId, host);
            var d := EvaluateSpec(parsers, request, rules, clock, e).0;
            d.Blocked? || d.NeedsApproval? || d.RateLimited?
  {
    var rules := ResolvePolicyRules(orgRows, projectRows, agentId, host);
    ResolvedRateIdsDistinct(Tagged(orgRows, projectRows), agentId, host);
    var rule := RuleFromRow(orgRows, projectRows, agentId, host, row, RateLimit(row.id, n, secs));
    var i: nat :| i < |rules| && rules[i] == rule;
    assert Exhausted(parsers, request, rules, clock, e, i);
    LimitedIff(parsers, request, rules, clock, e);
    DecisionFromRules(parsers, request, rules, clock, e, EvaluateSpec(parsers, request, rules, clock, e).0);
  }
}
