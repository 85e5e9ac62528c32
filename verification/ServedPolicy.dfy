/** From the database to the decision: what an organization's block row does to requests judged by
    responses that come out of the cache (connect.rs, policy.rs, gateway.rs). */
module ServedPolicy {
  import opened Wrappers
  import opened PolicyRules
  import opened ConditionMatch
  import opened Cache
  import opened Policy
  import opened PolicyResolution
  import opened ConnectCache
  import opened RuleDecisions
  import opened RowDecisions
  import CF = ConnectFlights

  /** In this database the token's agent is of organization `org` and under its block row `row`: the
      row applies to the agent on the host, and the policy rules of the organization's agents are
      resolved from rows with it. */
  ghost predicate UnderBlock(db: Db, org: string, agentToken: string, host: string, row: PolicyRow) {
    && (forall agent | db.findAgent(agentToken) == Ok(agent) ::
          agent.organizationId == org && AppliesTo(row, agent.id, host))
    && (forall agent: AgentRow, r | agent.organizationId == org && db.resolveUncached(agent, host) == Ok(r) ::
          ResolvedWith(agent, host, row, r))
  }

  ghost predicate ResolvedWith(agent: AgentRow, host: string, row: PolicyRow, r: ConnectResponse) {
    exists orgRows, projectRows ::
      row in orgRows && r.policyRules == ResolvePolicyRules(orgRows, projectRows, agent.id, host)
  }

  /** Every resolution of this database takes the policy rules from the rows of the agent's own
      organization and project. */
  ghost predicate ResolvesFromRows(db: Db, orgRows: string -> seq<PolicyRow>, projectRows: string -> seq<PolicyRow>) {
    forall agent: AgentRow, host, r | db.resolveUncached(agent, host) == Ok(r) ::
      r.policyRules
      == ResolvePolicyRules(orgRows(agent.organizationId), projectRows(agent.projectId), agent.id, host)
  }

  /** In such a database a row among an organization's rows puts every agent of that organization it
      applies to under it, whatever rows and agents other organizations have. */
  lemma RowInOrganization(
    db: Db, orgRows: string -> seq<PolicyRow>, projectRows: string -> seq<PolicyRow>, agent: AgentRow,
    agentToken: string, host: string, row: PolicyRow)
    requires ResolvesFromRows(db, orgRows, projectRows) && row in orgRows(agent.organizationId)
    requires db.findAgent(agentToken) == Ok(agent) && AppliesTo(row, agent.id, host)
    ensures UnderBlock(db, agent.organizationId, agentToken, host, row)
  {
    var org := agent.organizationId;
    forall other: AgentRow, r | other.organizationId == org && db.resolveUncached(other, host) == Ok(r)
      ensures ResolvedWith(other, host, row, r)
    {
      assert row in orgRows(org);
      assert r.policyRules == ResolvePolicyRules(orgRows(org), projectRows(other.projectId), other.id, host);
    }
  }

  /** The row blocks the request under these rules, whatever the counters, which stay as they are. */
  ghost predicate Blocks(parsers: Parsers, request: Request, rules: seq<PolicyRule>, clock: seq<nat>, e: Entries)
    requires |clock| == |rules|
  {
    EvaluateSpec(parsers, request, rules, clock, e).0.Blocked? && EvaluateSpec(parsers, request, rules, clock, e).1 == e
  }

  ghost predicate BlockRowMatches(parsers: Parsers, request: Request, row: PolicyRow) {
    row.action == "block" && RowCovers(parsers, row, request)
  }

  /** A resolution made while the row stood blocks what the row matches. */
  lemma ResolvedBlocks(
    parsers: Parsers, request: Request, row: PolicyRow, history: seq<Snapshot>, from: nat, since: nat, org: string,
    t: string, host: string, found: CF.Found, at: nat, r: ConnectResponse, clock: seq<nat>, e: Entries)
    requires BlockRowMatches(parsers, request, row) && |clock| == |r.policyRules|
    requires forall i | from <= i < |history| :: UnderBlock(history[i].db, org, t, host, row)
    requires from <= since && CF.Resolved(history, since, t, host, found, at, r)
    ensures Blocks(parsers, request, r.policyRules, clock, e)
  {
    assert UnderBlock(history[found.at].db, org, t, host, row) && UnderBlock(history[at].db, org, t, host, row);
    assert ResolvedWith(found.agent, host, row, r);
    var orgRows, projectRows :|
      row in orgRows && r.policyRules == ResolvePolicyRules(orgRows, projectRows, found.agent.id, host);
    MatchesIff(parsers, RuleOf(TaggedRow(row, Organization)).value, request);
    OrganizationFloor(parsers, request, orgRows, projectRows, found.agent.id, host, row, clock, e);
  }

  /** Once an organization block row stands in the database and the project's responses have been
      dropped, every response the cache serves to the project's agents from then on blocks the
      requests the row matches, unless its resolution was already under way at the drop. */
  lemma BlockRowHoldsWhenServed(
    c: Codecs, w: CF.Air, o: string, p: string, steps: seq<CF.Step>, v: CF.Air, t: string, host: string,
    parsers: Parsers, request: Request, row: PolicyRow, clock: seq<nat>, e: Entries)
    requires CF.Reachable(c, w) && Faithful(c.connect) && ':' !in o && ':' !in p && ':' !in t
    requires w.history != [] && CF.Permitted(c, CF.Do(c, w, CF.DropResponses(o, p)), steps)
    requires v == CF.Run(c, CF.Do(c, w, CF.DropResponses(o, p)), steps)
    requires BlockRowMatches(parsers, request, row)
    requires forall i | |w.history| - 1 <= i < |v.history| :: UnderBlock(v.history[i].db, o, t, host, row)
    requires Cached(c.connect, v.entries, ConnectKey(o, p, t, host), v.now).Some?
    requires |clock| == |Cached(c.connect, v.entries, ConnectKey(o, p, t, host), v.now).value.policyRules|
    ensures var key := ConnectKey(o, p, t, host);
            || Blocks(parsers, request, Cached(c.connect, v.entries, key, v.now).value.policyRules, clock, e)
            || (key in v.origins && v.origins[key].id in w.flights)
  {
    CF.StaleOnlyIfUnderWay(c, w, o, p, steps, v, t, host);
    var g := v.origins[ConnectKey(o, p, t, host)];
    if g.since >= |w.history| - 1 {
      ResolvedBlocks(parsers, request, row, v.history, |w.history| - 1, g.since, o, t, host, g.found,
                     g.queriedAt, g.response, clock, e);
    }
  }

  /** The same for a response a resolution has just queried and not stored yet. */
  lemma BlockRowHoldsWhenQueried(
    c: Codecs, v: CF.Air, id: nat, from: nat, org: string, parsers: Parsers, request: Request, row: PolicyRow,
    clock: seq<nat>, e: Entries)
    requires CF.Reachable(c, v) && id in v.flights && v.flights[id].stage.Queried? && from <= v.flights[id].since
    requires BlockRowMatches(parsers, request, row)
    requires forall i | from <= i < |v.history| ::
               UnderBlock(v.history[i].db, org, v.flights[id].agentToken, v.flights[id].host, row)
    requires |clock| == |v.flights[id].stage.response.policyRules|
    ensures Blocks(parsers, request, v.flights[id].stage.response.policyRules, clock, e)
  {
    CF.ReachableSound(c, v);
    var f := v.flights[id];
    assert CF.FlightOk(v.history, f);
    ResolvedBlocks(parsers, request, row, v.history, from, f.since, org, f.agentToken, f.host, f.found.value,
                   f.stage.at, f.stage.response, clock, e);
  }
}
