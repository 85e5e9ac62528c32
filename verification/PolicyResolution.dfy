/** Assembling the policy rules of an agent and a host from database rows
    (`resolve_policy_rules` and `host_matches` in connect.rs). */
module PolicyResolution {
  import opened Wrappers
  import opened Text
  import opened PolicyRules
  import opened ConditionMatch
  import opened Cache
  import opened Policy

  datatype PolicyRow = PolicyRow(
    id: string, name: string, hostPattern: string, pathPattern: Option<string>, httpMethod: Option<string>,
    agentId: Option<string>, action: string, rateLimit: Option<int>, rateLimitWindow: Option<string>,
    conditions: Option<Json>)

  datatype TaggedRow = TaggedRow(row: PolicyRow, scope: PolicyScope)

  predicate HostMatches(host: string, pattern: string) {
    host == pattern
    || ("*" <= pattern && EndsWith(host, pattern[1..]) && |host| > |pattern| - 1)
  }

  function WindowSecsOf(window: string): Option<nat> {
    if window == "minute" then Some(60)
    else if window == "hour" then Some(3600)
    else if window == "day" then Some(86400)
    else None
  }

  function ActionOf(row: PolicyRow): Option<PolicyAction> {
    if row.action == "block" then Some(Block)
    else if row.action == "rate_limit" then
      if row.rateLimit.None? || row.rateLimit.value <= 0 || row.rateLimitWindow.None? then None
      else
        match WindowSecsOf(row.rateLimitWindow.value)
        case Some(secs) => Some(RateLimit(row.id, row.rateLimit.value, secs))
        case None => None
    else if row.action == "manual_approval" then Some(ManualApproval(row.id))
    else if row.action == "allow" then Some(Allow)
    else None
  }

  function RuleOf(t: TaggedRow): Option<PolicyRule> {
    match ActionOf(t.row)
    case Some(action) =>
      Some(PolicyRule(t.row.name, match t.row.pathPattern case Some(p) => p case None => "*",
                      t.row.httpMethod, action, t.row.conditions, t.scope))
    case None => None
  }

  predicate AppliesTo(row: PolicyRow, agentId: string, host: string) {
    HostMatches(host, row.hostPattern) && (row.agentId.None? || row.agentId.value == agentId)
  }

  function Resolve(rows: seq<TaggedRow>, agentId: string, host: string): seq<PolicyRule> {
    if rows == [] then []
    else
      (if AppliesTo(rows[0].row, agentId, host)
       then match RuleOf(rows[0]) case Some(rule) => [rule] case None => []
       else [])
      + Resolve(rows[1..], agentId, host)
  }

  /** Organization rows first, then project rows, tagged with where they come from. */
  function Tagged(orgRows: seq<PolicyRow>, projectRows: seq<PolicyRow>): seq<TaggedRow> {
    seq(|orgRows|, i requires 0 <= i < |orgRows| => TaggedRow(orgRows[i], Organization))
    + seq(|projectRows|, i requires 0 <= i < |projectRows| =>
        TaggedRow(projectRows[i], if projectRows[i].agentId.Some? then Agent else Project))
  }

  function ResolvePolicyRules(
    orgRows: seq<PolicyRow>, projectRows: seq<PolicyRow>, agentId: string, host: string): seq<PolicyRule>
  {
    Resolve(Tagged(orgRows, projectRows), agentId, host)
  }

  /** The resolved rules are exactly those of the applicable rows. */
  lemma {:induction false} ResolvedFrom(rows: seq<TaggedRow>, agentId: string, host: string, rule: PolicyRule)
    ensures rule in Resolve(rows, agentId, host)
       <==> exists t :: t in rows && AppliesTo(t.row, agentId, host) && RuleOf(t) == Some(rule)
  {
    if rows != [] {
      ResolvedFrom(rows[1..], agentId, host, rule);
      assert forall t :: t in rows <==> t == rows[0] || t in rows[1..];
    }
  }

  /** Every resolved rate rule has a positive limit and a minute, an hour or a day as window. */
  lemma ResolvedRateRules(rows: seq<TaggedRow>, agentId: string, host: string, rule: PolicyRule)
    requires rule in Resolve(rows, agentId, host) && rule.action.RateLimit?
    ensures rule.action.maxRequests >= 1 && rule.action.windowSecs in {60, 3600, 86400}
    ensures exists t :: t in rows && t.row.id == rule.action.ruleId
  {
    ResolvedFrom(rows, agentId, host, rule);
  }

  predicate DistinctIds(rows: seq<TaggedRow>) {
    && (forall i | 0 <= i < |rows| :: ':' !in rows[i].row.id)
    && (forall i, j | 0 <= i < j < |rows| :: rows[i].row.id != rows[j].row.id)
  }

  /** Distinct colon-free row ids give what the evaluator's counters rely on. */
  lemma {:induction false} ResolvedRateIdsDistinct(rows: seq<TaggedRow>, agentId: string, host: string)
    requires DistinctIds(rows)
    ensures DistinctRateIds(Resolve(rows, agentId, host))
  {
    if rows != [] {
      var rest := Resolve(rows[1..], agentId, host);
      ResolvedRateIdsDistinct(rows[1..], agentId, host);
      forall i | 0 <= i < |rest| && rest[i].action.RateLimit?
        ensures rest[i].action.ruleId != rows[0].row.id
      {
        ResolvedRateRules(rows[1..], agentId, host, rest[i]);
      }
    }
  }

  /** The organization floor: an applicable organization block row forces a block on every
      request its rule matches, in every policy mode and whatever other rows exist. */
  lemma OrganizationFloor(
    parsers: Parsers, request: Request, orgRows: seq<PolicyRow>, projectRows: seq<PolicyRow>,
    agentId: string, host: string, row: PolicyRow, clock: seq<nat>, e: Entries)
    requires row in orgRows && row.action == "block" && AppliesTo(row, agentId, host)
    requires MatchesRequest(parsers, RuleOf(TaggedRow(row, Organization)).value, request)
    requires |clock| == |ResolvePolicyRules(orgRows, projectRows, agentId, host)|
    ensures var rules := ResolvePolicyRules(orgRows, projectRows, agentId, host);
            EvaluateSpec(parsers, request, rules, clock, e).0.Blocked?
            && EvaluateSpec(parsers, request, rules, clock, e).1 == e
  {
    var rules := ResolvePolicyRules(orgRows, projectRows, agentId, host);
    var rule := RuleOf(TaggedRow(row, Organization)).value;
    var i :| 0 <= i < |orgRows| && orgRows[i] == row;
    assert Tagged(orgRows, projectRows)[i] == TaggedRow(row, Organization);
    ResolvedFrom(Tagged(orgRows, projectRows), agentId, host, rule);
    FirstFinds(parsers, request, BlockPass, rules);
    assert rule in rules && Applies(parsers, request, BlockPass, rule);
  }

  /** A wildcard host pattern covers exactly the strictly longer hosts with its suffix. */
  lemma WildcardHosts(host: string, suffix: string)
    ensures HostMatches(host, "*" + suffix) <==> exists front: string :: front != "" && host == front + suffix
  {
    assert ("*" + suffix)[1..] == suffix;
    if EndsWith(host, suffix) && |host| > |suffix| {
      var front := host[..|host| - |suffix|];
      assert host == front + suffix && front != "";
    }
  }
}
