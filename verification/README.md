# The gateway's decisions, modelled and proved

The gateway (`apps/gateway/src`) stands between agents and the services they call. For each
request it decides whether the request may pass (policy rules, rate limits, a human's approval),
which credentials are injected into it, and what is logged about it. This project models that
deciding core in Dafny and proves what it keeps over every input, every run and every
interleaving.

Texts are ASCII; a `char` stands for one byte. Time is one clock in whole seconds that callers
pass in. Code that changes things step by step is a class or a loop proved against a function;
the concurrent part is a step relation in which every access to a shared map is one step.

## The parts

- **The approval hold** (`Approval`, `ApprovalStatus`, `ApprovalPoll`, `ApprovalProtocol`,
  `ApprovalDelivery`, `ApprovalEvidence`, `ApprovalProgress`). A held
  request, the decision handler, the status poll, the drop guard and the sweeper share two maps
  and one watch channel per hold. `Approval` has the store's operations run alone;
  `ApprovalProtocol` takes them apart into atomic steps and proves an invariant over every
  interleaving: one winner per hold, decisions are final, a release always rests on evidence,
  nothing leaks. `ApprovalDelivery` proves the other half: every winner's decision reaches the
  channel, and a hold that still waits can observe it; it also shows that each whole operation is
  its steps run without interference. `ApprovalEvidence` traces every end of a hold back to
  the steps of its run, the call and its decision among them, and shows what a call leads to.
  `ApprovalProgress` shows that no hold gets stuck. A task in `Submitting` is between its checks and its access to `decisions`; the poll's submission is a task
  of its own that its hold waits for.
- **Policy** (`PolicyRules`, `ConditionMatch` with `ConditionMeaning`, `Policy`, `Cache`, `RateRuns`,
  `RuleDecisions`, `PolicyResolution`, `RowDecisions`). The evaluator's passes, against "the
  strictest applicable outcome wins"; its counters over a cache with expiries; whole runs of many
  requests; and where the rules come from. `RuleDecisions` says which requests a rule covers and what
  a list of rules decides in terms of the rules' own fields, and `RowDecisions` does so for the rows
  in the database.
- **Paths and injection** (`Text`, `Globs`, `QueryParam`, `Inject`, `Apps`). Path patterns as sets
  of strings, editing of raw query pieces, rules matched against a path they are changing, and the
  rules built for an app provider.
- **Caches of resolutions** (`ConnectCache`, `ConnectFreshness`, `ConnectFlights`, `ConnectAlone`,
  `ConnectionRows`, `ServedPolicy`). Cached answers against the uncached resolution, over runs that
  mix resolutions, invalidations, counters and changes of the database, and what can be answered
  after an invalidation. `ConnectCache` and `ConnectFreshness` take a query and its store as one step;
  `ConnectFlights` takes the agent lookup, the cache read, the query and the store apart, with
  anything in between, and `ConnectAlone` shows that without interference they are the whole
  operations again. `ConnectionRows` adds the requests: each builds its app injections from the
  connection rows in the response it was served, and the injections built are traced back to the
  database that gave their rows. `ServedPolicy` carries an organization's block row from the
  database through the cache to the decision.
- **Three smaller algorithms** (`Telemetry` with `TelemetryTable`, `Dlp` with `DlpOrder` and `DlpOverlap`,
  `BodyPreview`). The request log's batches and what they leave in its table, masking from the last span to the first, and peeking at
  a stream that is put together again.

## Where the code and its words differ

- The comment in `gateway.rs:393-394` speaks of a broad prefix when the organization lookup fails.
  The prefixes are then `app_injection::<project>:` and `connect::<project>:`, which cover no entry
  filed under a real organization: `ConnectCache.FailedLookupRemovesNothing` proves that such an
  invalidation leaves the cache as it is.
- `approval.rs:189` speaks of hanging for 5 minutes; the constant is 180 seconds.
- The comment in `gateway/dlp.rs:153-154` speaks of converting byte offsets to character offsets.
  The code uses the offsets as character positions, and so does the model.
- Matching while editing agrees with matching once for every rule list exactly when no '#' stands
  before the query (`Inject.RematchingAgreesIff`): the query editor puts parameters in front of a
  fragment that the matcher counts as path. `forward.rs:140-144` passes the path and query of the
  request URI, which the HTTP library (not part of this model) keeps free of fragments, so on that
  route the agreement holds; `apply_injections` itself takes any text, and its tests hand it
  fragments (`inject.rs:942-965`).
- `inject.rs:134` speaks of replacing a query parameter. Raw pieces are compared, so a piece with the
  same name in another encoding ("%61" for "a") is not replaced, and if it stands in front the service
  reads it and not the new value: `QueryParam.SetParamReadIff` says exactly when.
- `condition_match.rs:106-108` says that a body that is not MCP fails an "eq" condition on a tool. The
  code lets it pass like any other body that is no tool call; `ConditionMeaning.ToolMeaning` says so.
- A prefix `P/` becomes the pattern `P/*`, which also matches `P` itself, while routing asks for
  the prefix (`Apps.RoutingAgreesIff`, `Apps.BarePrefixIsInjectedNotServed`).
- In enforced deny mode a new rule can turn a default denial into something milder;
  `Policy.MoreRulesNeverWeakerIff` says exactly when, and `Policy.AllowRuleLiftsDefaultDeny` is a
  case of it.
- The step-up confirmation compares optional fields, so two absent ones agree
  (`gateway/approval_poll.rs:124-126`); `ApprovalStatus.Binds` keeps that.
- The masking splices the listed spans from the last to the first and relies on the order of the
  list. `DlpOrder.ListingIsRightIff` says exactly which listings of disjoint spans it masks as if
  they were in order: those in which, for each span, the masks of the spans listed after it and
  standing before it are together as long as what they cover. A list in text order is one
  (`DlpOrder.OrderedIsBalanced`); `Dlp.OrderMatters` shows one that is not and leaves a covered
  character in the text. The condition is about where each character comes from:
  `DlpOrder.SwapIsInvisible` shows, for every entity type, two spans that take each other's place
  although no text tells.
- The analyzer's list is used as it comes (`gateway/dlp.rs:59-61`), so spans may overlap, and then
  even a list in text order can leave covered characters in the text (`DlpOverlap.OverlapShows`).
  `DlpOverlap.TellsNothingIff` says for any list exactly when the masked text tells nothing of what
  the spans cover, and `DlpOverlap.SortedTellsNothingIff` says it for lists sorted by where the spans
  begin: each covered character must still be reached by some span when the masks of the spans
  listed after that one have moved it.
- `gateway.rs:373-375` says that with an invalidation agents pick up changes immediately. App
  injections are dropped first and responses second (`gateway.rs:400-407`), and a request between the
  two can take the old response, build an injection from its connection row and store it for another
  60 seconds: `ConnectionRows.OldRowCanSurvive` shows that it can happen whenever such a response is
  in the cache and nothing else is under way. `ConnectionRows.RowAfterAppsThenResponses` shows that
  this and what is under way at the second drop are the only ways; with the drops in the other order
  only the latter is left (`ConnectionRows.RowAfterResponsesThenApps`).

## Model

| member | source | states |
|---|---|---|
| Approval.InMemoryApprovalStore.PrepareWait | apps/gateway/src/approval.rs:246-250 | a new undecided channel whose sender alone is filed under the id; a replaced sender closes its channel |
| Approval.InMemoryApprovalStore.Store | apps/gateway/src/approval.rs:252-262 | the approval is filed under its id, nothing else changes |
| Approval.InMemoryApprovalStore.GetPending | apps/gateway/src/approval.rs:264-278 | found exactly while unexpired; an expired one is removed |
| Approval.InMemoryApprovalStore.ListPending | apps/gateway/src/approval.rs:280-287 | exactly the project's unexpired approvals |
| Approval.InMemoryApprovalStore.Remove | apps/gateway/src/approval.rs:289-292 | the id leaves both maps, its undecided channel closes |
| Approval.InMemoryApprovalStore.SubmitDecision | apps/gateway/src/approval.rs:309-323 | true exactly when a sender waited, which then sent the decision; the id leaves both maps |
| Approval.InMemoryApprovalStore.Sweep | apps/gateway/src/approval.rs:340-355 | exactly the expired approvals are denied and gone, whatever the order of the loop |
| Approval.ApprovalGuard.Drop | apps/gateway/src/approval.rs:145-174 | an armed guard removes its id from both maps, a defused one changes nothing |
| ApprovalStatus.MapStatusIff | apps/gateway/src/gateway/approval_poll.rs:185-230 | a status reply releases if and only if it carries a verified decision and a valid confirmation where it has one; it keeps waiting if and only if the status is not terminal |
| ApprovalStatus.ConfirmationIff | apps/gateway/src/gateway/approval_poll.rs:93-175 | a step-up confirmation is accepted if and only if its document binds subject, session, challenge, recipient, issuer and signer |
| ApprovalPoll.AwaitTerminal | apps/gateway/src/gateway/approval_poll.rs:283-367 | for every sequence of replies the loop ends; requests are two full seconds apart and strictly before the deadline, so twice their number is below the timeout; the answer is that of the first terminal reply |
| ApprovalPoll.PollForDecision | apps/gateway/src/gateway/approval_poll.rs:269-367 | the terminal decision is returned and submitted, whatever the store answers; without one the store is untouched |
| ApprovalProtocol.NextKeepsInv | apps/gateway/src/approval.rs:246-355 | every atomic step of every participant keeps the protocol invariant |
| ApprovalProtocol.RunKeepsInv | apps/gateway/src/approval.rs:246-355 | every run keeps the invariant, and no step withdraws a decision, a win or an id's absence |
| ApprovalProtocol.DecisionsAreFinal | apps/gateway/src/approval.rs:72-92 | once a channel carries a decision it carries that decision in every later state |
| ApprovalProtocol.AtMostOneWinner | apps/gateway/src/approval.rs:309-323 | at most one submission takes an id's sender and at most one returns true; a decision on the channel is one that won |
| ApprovalDelivery.ChannelShowsWinnerIff | apps/gateway/src/approval.rs:309-323 | in every interleaving a hold's channel shows a decision if and only if a submission or a sweep won with it and is past its sending |
| ApprovalDelivery.DeliveredIsHeard | apps/gateway/src/approval.rs:316-319 | a submission that returned true has its decision on its hold's channel |
| ApprovalDelivery.SweptIsHeard | apps/gateway/src/approval.rs:350-355 | a sweep past its sending has its denial on the channel of each hold whose sender it took |
| ApprovalDelivery.WinnerIsObserved | apps/gateway/src/approval.rs:72-92 | in every later state a hold that still waits can observe the decision of the submission that returned true, and then ends with exactly it |
| ApprovalDelivery.RunKeepsDelivery | apps/gateway/src/approval.rs:246-355 | in every run each winner's decision is on its channel or about to be sent by the task that took the sender |
| ApprovalDelivery.SubmitAlone | apps/gateway/src/approval.rs:309-323 | the three steps of a submission, run without interference, are the whole operation |
| ApprovalDelivery.SubmitInVain | apps/gateway/src/approval.rs:309-323 | without a sender the submission is one step that returns false and leaves the store alone |
| ApprovalDelivery.RemoveAlone | apps/gateway/src/approval.rs:289-292 | so are the two steps of a removal |
| ApprovalDelivery.DenyAlone | apps/gateway/src/approval.rs:350-355 | and the steps a sweep takes for one id |
| ApprovalProtocol.ObservedIsWinner | apps/gateway/src/approval.rs:72-92 | a hold answered by its channel ends with the decision of the one winner |
| ApprovalProtocol.NeverClosedUnanswered | apps/gateway/src/approval.rs:80-90 | a waiting hold never finds its channel closed without a decision |
| ApprovalProtocol.TimeoutsAreReal | apps/gateway/src/approval.rs:78-92 | a hold that got no answer waited its full 180 seconds, counted from the start of the wait |
| ApprovalProtocol.ReleaseProvenance | apps/gateway/src/gateway/forward.rs:645-710 | a released hold rests on a winning submission of Approve by a handler that saw an approval of the hold's project unexpired, or on a reply that proves the approval; `ApprovalEvidence.ReleaseRestsOnApprove` ties it to the call |
| ApprovalEvidence.RunTraced | apps/gateway/src/gateway.rs:500-545 | in every run, every submission that won goes back to its steps: a call of the handler with this very decision and then its lookup, which found the approval pending and unexpired; the hold's own poll and its reply; or a sweep that began at its cut and saw the approval expired by then |
| ApprovalEvidence.HandlerWinIsItsCall | apps/gateway/src/gateway.rs:537-541 | a handler's win carries the project, id and decision of a call among the steps |
| ApprovalEvidence.EndRestsOnSteps | apps/gateway/src/gateway/forward.rs:645-710 | every answered hold, released or rejected, rests on a call with that decision, on a reply that stands for it, or, if rejected, on a sweep |
| ApprovalEvidence.ReleaseRestsOnApprove | apps/gateway/src/gateway/forward.rs:645-710 | a released hold has among the steps for its id a call with Approve of its own project for a pending approval, or an answer to its poll that proves the approval |
| ApprovalEvidence.CallDecides | apps/gateway/src/gateway.rs:516-541 | a call for a waiting hold of its project, run through, ends the hold with exactly the decision it was called with: released on Approve, rejected on Deny |
| ApprovalEvidence.CallRefused | apps/gateway/src/gateway.rs:516-535 | a call without a pending, unexpired approval of its project submits nothing and changes no hold |
| ApprovalEvidence.SubmittedIsGone | apps/gateway/src/approval.rs:309-323 | once a submission has returned true its id is in neither map, then and in every later state |
| ApprovalProtocol.SweepDeniesOnlyExpired | apps/gateway/src/approval.rs:336-355 | the sweeper denies only, and only after the approval's full life |
| ApprovalProtocol.NoLeaks | apps/gateway/src/gateway/forward.rs:582-602 | however a hold ended, after its cleanup neither map holds its id, then and in every later state |
| ApprovalProtocol.CleanupNeverBlocks | apps/gateway/src/gateway/forward.rs:664-710 | in every state the rest of an ended hold's cleanup can run to its end |
| ApprovalProgress.EveryHoldCanEnd | apps/gateway/src/gateway/forward.rs:582-710 | from every reachable state every hold can come to its end and be cleaned up by its own steps and time alone, and then neither map holds its id |
| ApprovalProgress.OwnStepAdvances | apps/gateway/src/gateway/approval_poll.rs:325-338 | a hold that has not ended always has a step of its own or of its poll's submission, which brings it closer to its end |
| ApprovalProtocol.SweptIdsStayGone | apps/gateway/src/approval.rs:343-355 | no id a sweep has dealt with is in either map, then and in every later state |
| ApprovalProtocol.TakeKeepsInv | apps/gateway/src/approval.rs:316-317 | taking a sender while others look, submit or sweep keeps the invariant and makes the taker the only winner |
| ApprovalProtocol.LookupKeepsInv | apps/gateway/src/gateway.rs:516-541 | the lookup step keeps the invariant, and submits exactly when the approval is pending, unexpired and of the caller's project, and then with the id and the decision of its own call |
| Cache.InMemoryCacheStore.GetRaw | apps/gateway/src/cache.rs:101-110 | serves exactly the unexpired value, evicts an expired one |
| Cache.InMemoryCacheStore.SetRaw | apps/gateway/src/cache.rs:112-125 | the value is filed with expiry now plus the TTL |
| Cache.InMemoryCacheStore.Del | apps/gateway/src/cache.rs:127-129 | exactly the key is gone |
| Cache.InMemoryCacheStore.DelByPrefix | apps/gateway/src/cache.rs:131-133 | removes exactly the keys with the prefix |
| Cache.InMemoryCacheStore.Incr | apps/gateway/src/cache.rs:135-153 | returns the live count plus one and stores it; only a fresh count gets a new expiry; no other key changes |
| Cache.CounterAfterBump | apps/gateway/src/cache.rs:135-153 | one count more at the key until its entry expires, at the time it was to if it was live and a TTL from now otherwise; no change at any other key |
| ConditionMatch.ExtractField | apps/gateway/src/condition_match.rs:165-186 | the loop reads the field a dotted path names, null when a member is missing |
| ConditionMatch.FieldPathComposes | apps/gateway/src/condition_match.rs:165-186 | the path `p.q` reads field `q` of field `p`, and a leading `$.` changes nothing |
| ConditionMeaning.FieldOfKey | apps/gateway/src/condition_match.rs:165-186 | a plain key reads the member of an object, and null of anything else |
| ConditionMeaning.EqualityMeaning | apps/gateway/src/condition_match.rs:144-218 | for every body "eq" holds exactly when it is JSON with that very text at the path, "neq" is the negation, and "exists" asks for anything but null |
| ConditionMeaning.ContainsMeaning | apps/gateway/src/condition_match.rs:188-202 | "contains" holds exactly for a text with the value somewhere in it or an array with the value as an item |
| ConditionMeaning.RegexMeaning | apps/gateway/src/condition_match.rs:188-208 | "regex" holds exactly for a text the expression matches, an unknown operator for every JSON body |
| ConditionMeaning.ToolMeaning | apps/gateway/src/condition_match.rs:99-127 | on a tool "ne" holds exactly unless the body calls it, every other operator exactly when the body calls it or is no tool call |
| ConditionMatch.BodyIrrelevant | apps/gateway/src/condition_match.rs:5-98 | rules that ask for no buffering cannot tell two bodies apart |
| Policy.RateLimitPass | apps/gateway/src/policy.rs:147-185 | the counting loop is the recursive rate pass, in its answer and in the cache it leaves |
| Policy.Evaluate | apps/gateway/src/policy.rs:109-208 | the four passes give the specified decision and cache |
| RuleDecisions.MatchesIff | apps/gateway/src/policy.rs:211-238 | a rule matches if and only if the conditions stated in its raw entries hold and either its pattern stands for the query-free path and its method is absent or the same but for letter case, or it is written against a push and the request asks for one |
| RuleDecisions.BufferIff | apps/gateway/src/condition_match.rs:6-15 | the body is buffered if and only if some rule states a condition on it |
| RuleDecisions.DecisionFromRules | apps/gateway/src/policy.rs:109-208 | block, approval and default denial each if and only if the covering rules say so; the name or id is that of the first covering block or approval rule, a limit that of a covering rate rule |
| RuleDecisions.LimitedIff | apps/gateway/src/policy.rs:147-185 | a request is limited if and only if no block or approval rule covers it and it finds the window counter of a covering rate rule at its limit, and then by such a rule |
| RuleDecisions.UncoveringChangesNothing | apps/gateway/src/policy.rs:121-208 | a rule that does not cover the request changes neither decision nor counters, wherever it stands |
| RuleDecisions.OtherMethodNeverDecides | apps/gateway/src/policy.rs:211-230 | a rule for one method never decides a request of another, but for the first half of a push |
| Policy.KeysDiffer | apps/gateway/src/policy.rs:158-163 | rate rules with different ids never share a counter key |
| Policy.RatePassEffect | apps/gateway/src/policy.rs:147-185 | the pass limits if and only if some applicable rule is over its limit in the counters found; otherwise it adds one at each applicable counter; no other entry changes |
| Policy.StrictestWins | apps/gateway/src/policy.rs:109-208 | blocked, else approval, else limited, else default denial, else allowed: each exactly when a rule of that kind applies |
| Policy.CounterEffects | apps/gateway/src/policy.rs:121-208 | blocked and approval outcomes leave the cache alone; past the rate pass each applicable counter grew by exactly one |
| Policy.ClassIgnoresOrder | apps/gateway/src/policy.rs:121-208 | the kind of outcome does not depend on the order or repetition of rules |
| Policy.MoreRulesNeverWeakerIff | apps/gateway/src/policy.rs:121-208 | more rules never lower the severity, with one exact exception in enforced deny mode |
| Policy.AllowRuleLiftsDefaultDeny | apps/gateway/src/policy.rs:187-206 | that exception: a request denied for want of rules is let through by an allow rule for every path |
| Policy.StreamingIsSafe | apps/gateway/src/policy.rs:211-231 | without a body condition every body gives the same decision and the same counters |
| RateRuns.RatePassRunsSteps | apps/gateway/src/policy.rs:147-185 | one evaluation is a run of atomic counter steps, all passing up to the first that limits |
| RateRuns.SubjectKeyInjective | apps/gateway/src/policy.rs:158-163 | different agents, rules, projects, organizations or windows never share a counter |
| RateRuns.StepKeepsCount | apps/gateway/src/cache.rs:131-153 | across any step of the gateway a window's counter holds the number of its attempts and cannot expire before the window ends |
| RateRuns.AdmittedInWindow | apps/gateway/src/policy.rs:147-185 | in any run, one window admits exactly the lesser of its attempts and `max_requests` |
| RateRuns.SlidingBound | apps/gateway/src/policy.rs:147-185 | any `window_secs` consecutive seconds admit at most twice `max_requests` |
| RateRuns.RetryAfterIsNextWindow | apps/gateway/src/policy.rs:162-181 | a limited request is told 1 to `window_secs` seconds, which end at the first moment of the next window |
| PolicyResolution.ResolvedFrom | apps/gateway/src/connect.rs:888-956 | the resolved rules are exactly those of the applicable, well-formed rows |
| PolicyResolution.ResolvedRateRules | apps/gateway/src/connect.rs:920-937 | a resolved rate rule has a positive limit, a known window and its row's id |
| PolicyResolution.ResolvedRateIdsDistinct | apps/gateway/src/connect.rs:888-956 | distinct row ids give the distinct rule ids the counters rely on |
| PolicyResolution.OrganizationFloor | apps/gateway/src/connect.rs:888-956 | an applicable organization block row blocks every request it matches, in every mode, whatever other rows exist |
| RowDecisions.OneRow | apps/gateway/src/connect.rs:905-954 | a well-formed row that governs agent and host gives the one rule its columns describe: action, limit, 60, 3600 or 86400 seconds for minute, hour or day, pattern, method, conditions and scope |
| RowDecisions.RowLeftOut | apps/gateway/src/connect.rs:912-943 | a row of another agent or host, with another action text or without a positive limit and a known window changes no resolution |
| RowDecisions.DecisionFromRows | apps/gateway/src/connect.rs:888-956 | from the rows' columns: blocked if and only if a "block" row stands, held if and only if only a "manual_approval" row does, each under such a row's name or id; a limit is a standing "rate_limit" row's number and window; a default denial means that no "allow" or well-formed "rate_limit" row stands |
| RowDecisions.ExhaustedRowRefuses | apps/gateway/src/policy.rs:147-185 | a standing "rate_limit" row whose counter is at its number keeps the request from passing |
| PolicyResolution.WildcardHosts | apps/gateway/src/connect.rs:1249-1260 | a wildcard host pattern covers exactly the strictly longer hosts with its suffix |
| Globs.SegmentInstance | apps/gateway/src/inject.rs:269-280 | a segment matches if and only if it is the pattern with its first star filled by some text |
| Globs.WildcardInstance | apps/gateway/src/inject.rs:242-280 | segment by segment matching is the same as filling the first star of each segment of the whole pattern with slash-free text |
| Globs.TrailingWildcard | apps/gateway/src/inject.rs:242-266 | a final lone star after an earlier star stands for one or more whole segments |
| Globs.PathMatchesIsDenotation | apps/gateway/src/inject.rs:213-280 | the matcher accepts a path if and only if the pattern's declared set of strings holds its query-free part |
| Globs.PatternMatchesItself | apps/gateway/src/inject.rs:213-280 | every pattern without a '?' matches its own text |
| Globs.LiteralIsNeeded | apps/gateway/src/inject.rs:213-280 | a character of the pattern other than star and slash is in every path it matches |
| QueryParam.FormEncodeInjective | apps/gateway/src/inject.rs:141-146 | different names are encoded differently |
| QueryParam.FormRoundTrip | apps/gateway/src/inject.rs:141-144 | every byte text is read back from its encoding by form decoding |
| QueryParam.SetPieceReads | apps/gateway/src/inject.rs:141-199 | for every path the piece found under the set name is read as that name and the new value |
| QueryParam.SetParamReadIff | apps/gateway/src/inject.rs:141-199 | the receiving side reads the new value under the name unless the same name in another encoding stands in front, and every other name as before |
| QueryParam.PartsRejoin | apps/gateway/src/inject.rs:148-174 | base, raw pieces and fragment put together are the path again |
| QueryParam.SetParamParts | apps/gateway/src/inject.rs:141-199 | the path in front of the query and the fragment at the end stay; one raw piece is set |
| QueryParam.SetParamOverwrites | apps/gateway/src/inject.rs:141-199 | a second value for a name overwrites the first; the same pair twice is the pair once |
| QueryParam.SetParamLookup | apps/gateway/src/inject.rs:141-199 | the set name is found with its new value, every other name as before |
| QueryParam.UntouchedSegments | apps/gateway/src/inject.rs:176-193 | every piece but the first one with the name keeps its bytes and its place; a missing name is appended |
| Inject.EditQuery | apps/gateway/src/inject.rs:168-193 | the copying loop writes the pieces with the first match replaced, or the pair appended |
| Inject.ForwardedRequest.ApplySetParam | apps/gateway/src/inject.rs:141-199 | the path is edited in place to the specified one, in all three shapes of a query and with a fragment |
| Inject.ForwardedRequest.ApplyInjections | apps/gateway/src/inject.rs:78-132 | the loops change headers and path in place as the rules say, each rule matched against the path left by those before it, and count the actions |
| Inject.SetParamKeepsPathOnly | apps/gateway/src/inject.rs:141-214 | setting a parameter leaves the matched text alone when no '#' precedes the query |
| Inject.SelectOnce | apps/gateway/src/inject.rs:78-132 | then re-matching gives the same headers, path and count as selecting once by the original path |
| Inject.RematchingAgreesIff | apps/gateway/src/inject.rs:78-132 | that agreement, for all rule lists, holds if and only if no '#' stands before the query |
| Inject.LastHeaderWins | apps/gateway/src/inject.rs:78-132 | of all matching rules' injections the last one that touches a header decides it |
| Inject.ActionsCount | apps/gateway/src/inject.rs:88-130 | an injection counts exactly when it is well formed and, to replace or remove a header, finds it; otherwise nothing changes; a query parameter is read back from the path and leaves the headers alone |
| Inject.HeaderDecided | apps/gateway/src/inject.rs:88-124 | for every kind of header injection: the last one that can change a header decides it, gone if removed, the new value if set, and if replaced the new value exactly where the header was there |
| Inject.QueryDecided | apps/gateway/src/inject.rs:125-128 | the last injection that sets a query parameter decides the piece found under its name |
| Apps.PatternAgreesIff | apps/gateway/src/apps.rs:1289-1322 | a built pattern matches exactly the paths its rule serves and the rule's prefix without the final slash |
| Apps.RoutingAgreesIff | apps/gateway/src/apps.rs:1289-1336 | one of a provider's built rules matches the path if and only if the provider is judged to serve host and path or the path is a prefix on that host without its final slash |
| Apps.HostRuleIff | apps/gateway/src/apps.rs:45-85 | a host rule matches its host, or every strictly longer host with its suffix |
| Apps.ProviderAuthorizes | apps/gateway/src/apps.rs:1289-1323 | a request to a provider goes out with the bearer or basic `authorization` text of the last of its host rules that has one for host and path, and otherwise unchanged |
| Apps.BarePrefixIsInjectedNotServed | apps/gateway/src/apps.rs:1327-1336 | in that second case the rule's pattern matches although the rule itself does not serve the path; whether the provider is judged to serve it depends on its other rules |
| ConnectCache.Resolve | apps/gateway/src/connect.rs:1159-1192 | the agent lookup, the cached answer, and storing of a fresh one, as specified |
| ConnectCache.ResolveFromCache | apps/gateway/src/connect.rs:1196-1217 | the same with the key known beforehand: the agent is looked up only on a miss |
| ConnectCache.ResolveConnectionInjections | apps/gateway/src/connect.rs:615-807 | under the key made of organization, project, connection, host and session policy: a cached injection, or a built one stored for at most the token's remaining life |
| ConnectCache.InjectionAnswers | apps/gateway/src/connect.rs:628-806 | in every reachable state the answer is there if and only if a live readable entry or a build is; without an entry it is what was built just now, with one a build for that key less than 60 seconds old whose token is alive |
| ConnectCache.BuiltIsServedAgain | apps/gateway/src/connect.rs:775-795 | what was built is answered again until 60 seconds have passed or the token's known expiry comes, and not a second longer |
| ConnectCache.ResponseIsServedAgain | apps/gateway/src/connect.rs:1159-1192 | a stored response is answered for exactly 60 seconds, whatever the database says by then |
| ConnectCache.InvalidateCache | apps/gateway/src/gateway.rs:376-416 | exactly the entries under the two prefixes are gone |
| ConnectCache.InvalidationIff | apps/gateway/src/gateway.rs:386-407 | a filed response goes if and only if the project is asked for and the lookup gave its organization; kept ones are unchanged |
| ConnectCache.AppInvalidationIff | apps/gateway/src/gateway.rs:386-407 | the same for filed app injections, other projects' entries surviving |
| ConnectCache.FailedLookupRemovesNothing | apps/gateway/src/gateway.rs:386-407 | with a failed organization lookup the cache stays as it is |
| ConnectCache.AppKeysCoincideIff | apps/gateway/src/connect.rs:623-631 | two app keys are one if and only if organization, project and connection agree and so do host and policy written one behind the other; colon-free hosts then agree, and policies too |
| ConnectCache.FreshAfterInvalidation | apps/gateway/src/gateway.rs:400-407 | the very next resolution for the project is the uncached one |
| ConnectFreshness.AnswersAfterInvalidation | apps/gateway/src/gateway.rs:400-407 | in any run after an invalidation every answer for the project is the uncached one of a database no older than the invalidation and of the last 60 seconds |
| ConnectFreshness.ResolveAfterInvalidation | apps/gateway/src/connect.rs:1159-1192 | the same through `resolve` for the project's agents |
| ConnectFreshness.InjectionsAfterInvalidation | apps/gateway/src/gateway.rs:400-403 | in any run after an invalidation a cached app injection of the project was built after it |
| ConnectFreshness.StepKeepsFresh | apps/gateway/src/connect.rs:615-807 | no use of the cache brings back anything older for the project |
| ConnectFlights.StepKeepsSound | apps/gateway/src/connect.rs:615-807 | with lookup, read, query and store as steps of their own, every entry stays explained by the resolution that stored it |
| ConnectAlone.ResolveAlone | apps/gateway/src/connect.rs:1159-1192 | the stages of `resolve` without interference leave the cache as the whole operation does |
| ConnectAlone.ResolveFromCacheAlone | apps/gateway/src/connect.rs:1196-1217 | so do those of `resolve_from_cache` |
| ConnectAlone.AppAlone | apps/gateway/src/connect.rs:615-807 | and those of an app injection |
| ConnectFlights.CachedAnswerExplained | apps/gateway/src/connect.rs:1159-1217 | in every such run an answer from the cache was stored in the last 60 seconds by a resolution that found the agent and queried after it began |
| ConnectFlights.StaleOnlyIfUnderWay | apps/gateway/src/gateway.rs:400-407 | after a project's responses are dropped an answer rests on anything older only if its resolution was already under way then |
| ConnectFlights.AppStaleOnlyIfUnderWay | apps/gateway/src/gateway.rs:400-403 | after a project's app injections are dropped one is served only if its build began after the drop or was under way then, and never beyond its token's life; which row the build used is the subject of `ConnectionRows` |
| ConnectionRows.RunKeepsSourced | apps/gateway/src/gateway/mitm.rs:285-323 | every run keeps each request's response, each build and each stored injection tied to the resolution and the connection row they come from |
| ConnectionRows.ServedRowExplained | apps/gateway/src/connect.rs:448-494 | in every run an app injection from the cache was built from a row of its connection which some database gave for its host, in a response stored at most 60 seconds before its request took it; the injection itself was stored at most 60 seconds ago |
| ConnectionRows.BuildAfterResponses | apps/gateway/src/connect.rs:615-807 | after the responses are dropped a request builds from an older row only if it or the resolution of its response was under way at the drop |
| ConnectionRows.RowAfterAppsThenResponses | apps/gateway/src/gateway.rs:400-407 | after both drops, in the code's order, an injection from the cache rests on an older row only if its resolution, request or build was under way at the second drop, or it was stored between the two; with nothing between them that last case is gone |
| ConnectionRows.OldRowCanSurvive | apps/gateway/src/gateway.rs:400-407 | that last case is real: from every state with such a response in the cache and nothing under way, however the database changes, a request between the drops leads to an injection built from the old row that is served after both, with nothing under way at either |
| ConnectionRows.RowAfterResponsesThenApps | apps/gateway/src/gateway.rs:400-407 | with the two drops in the other order there is no such case, whatever happens between them |
| ServedPolicy.RowInOrganization | apps/gateway/src/connect.rs:888-956 | in a database that resolves from the rows of the agent's own organization and project, a row of an organization puts each of its agents it applies to under it, whatever other organizations have |
| ServedPolicy.BlockRowHoldsWhenServed | apps/gateway/src/connect.rs:888-956 | while an organization's block row stands over the token's agent, every response the cache serves after the drop blocks the requests the row matches, unless its resolution was already under way at the drop |
| ServedPolicy.BlockRowHoldsWhenQueried | apps/gateway/src/connect.rs:1159-1217 | the same for a response just queried and not stored yet |
| ConnectCache.StepKeepsConsistent | apps/gateway/src/connect.rs:1159-1217 | every use of the cache keeps each entry explained by a past database or a past build |
| ConnectCache.AnswersAreRecent | apps/gateway/src/connect.rs:1196-1217 | in every reachable state an answer was the uncached answer at some moment of the last 60 seconds |
| ConnectCache.ResolveIsRecent | apps/gateway/src/connect.rs:1159-1192 | the same for `resolve`, which answers only for a token that is valid now |
| ConnectCache.CachedInjectionsAreAlive | apps/gateway/src/connect.rs:628-795 | a cached app injection was built less than 60 seconds ago with a token that has not reached its known expiry |
| Telemetry.Channel.OnRequest | apps/gateway/src/telemetry_core.rs:90-95 | the event goes in with its path cut to 2048, or is dropped when the channel is full |
| Telemetry.FlushWorker.CollectBatch | apps/gateway/src/telemetry_core.rs:100-124 | the buffer grows by the oldest events, to at most 500; it stays short only because the channel was empty; false means closed and empty |
| Telemetry.FlushWorker.FlushBatch | apps/gateway/src/telemetry.rs:124-143 | the buffer becomes one batch: its rows inserted first, then its updates in order |
| Telemetry.FlushWorker.FlushLoop | apps/gateway/src/telemetry.rs:113-145 | at all times accepted events are the written batches followed by the queue; after the channel is found closed everything accepted is written |
| Telemetry.ExactlyOnceInOrder | apps/gateway/src/telemetry.rs:33-145 | for every way of cutting the stream into batches, rows and updates are those of the stream, each once and in order |
| Telemetry.UpdateComesAfterRows | apps/gateway/src/telemetry.rs:122-141 | before each update statement the rows of all earlier events are inserted |
| Telemetry.UpdateFindsItsRow | apps/gateway/src/telemetry.rs:63-145 | an approval's update is attempted only after the insert of its pending row |
| TelemetryTable.AnswerIsRecorded | apps/gateway/src/telemetry.rs:33-112 | however the stream is cut, the row of an approval ends with status and latency of the answering event, and its decision, approval, reason and times in the extra data |
| TelemetryTable.RowsIff | apps/gateway/src/telemetry.rs:33-41 | rows are made of exactly the events that name no row and were injected into or not simply allowed |
| Dlp.FallbackMask | apps/gateway/src/gateway/dlp.rs:151-164 | splicing from the last span to the first; for spans in order, the text with each non-empty span replaced by its mask |
| Dlp.SplicedIsMasked | apps/gateway/src/gateway/dlp.rs:151-164 | the back-to-front edit is one pass from the front, for spans in order and of any extent |
| Dlp.FallbackMaskMeaning | apps/gateway/src/gateway/dlp.rs:151-164 | the exact length, the place of every kept character and the place of every mask |
| Dlp.OrderMatters | apps/gateway/src/gateway/dlp.rs:155-162 | a witness: two disjoint spans listed out of order leave a covered character in the text |
| DlpOrder.ListingIsRightIff | apps/gateway/src/gateway/dlp.rs:151-164 | for any listing of disjoint spans inside the text, every character comes from where the ordered masking takes it if and only if for each span the length changes of the spans listed after it and standing before it sum to zero |
| DlpOrder.BalancedIsMasked | apps/gateway/src/gateway/dlp.rs:151-164 | such a listing masks every text as the ordered one does |
| DlpOrder.WellPlacedIsBalanced | apps/gateway/src/gateway/dlp.rs:155-162 | in any other listing some mask is missing or stands elsewhere |
| DlpOrder.OrderedIsBalanced | apps/gateway/src/gateway/dlp.rs:155-162 | a listing in text order meets the condition |
| DlpOrder.SplicedIsRead | apps/gateway/src/gateway/dlp.rs:151-164 | the cells of a run say where each character of the masked text comes from |
| DlpOrder.TwoSpansIff | apps/gateway/src/gateway/dlp.rs:155-162 | two spans listed back to front are masked rightly in every text if and only if the first mask is as long as what it covers |
| DlpOrder.SwapIsInvisible | apps/gateway/src/gateway/dlp.rs:155-162 | for every entity type, two spans can take each other's place with no text telling, so the condition is about where characters come from |
| DlpOverlap.TrackIsExact | apps/gateway/src/gateway/dlp.rs:151-164 | for any list of spans, overlapping, empty or beyond the text: a character of the text stands in the result exactly at the place traced through the splices, or nowhere |
| DlpOverlap.TellsNothingIff | apps/gateway/src/gateway/dlp.rs:151-164 | for any list of spans, all texts of a length that differ only where spans cover them are masked alike if and only if no covered character survives |
| DlpOverlap.SortedTellsNothingIff | apps/gateway/src/gateway/dlp.rs:151-164 | for spans sorted by where they begin, that holds if and only if each covered character is reached by some span after the masks listed behind that span have moved it |
| DlpOverlap.ShortMasksHide | apps/gateway/src/gateway/dlp.rs:155-162 | so it holds for every sorted list whose masks are no longer than their spans |
| DlpOverlap.TwoTellNothingIff | apps/gateway/src/gateway/dlp.rs:155-162 | two spans in the order of their beginnings show something covered if and only if the second ends before the first and has a mask longer than it |
| DlpOverlap.OverlapShows | apps/gateway/src/gateway/dlp.rs:155-162 | a witness: a sorted list of two spans that leaves six covered characters in every text of ten |
| Dlp.RiskLevel | apps/gateway/src/gateway/dlp.rs:218-231 | the highest severity found, whatever the order, each with its own types |
| Dlp.FindingsSummary | apps/gateway/src/gateway/dlp.rs:233-253 | one tally for each type found, with its count and highest positive score; the counts add up to the number of findings |
| BodyPreview.PeekAndReassemble | apps/gateway/src/gateway/forward.rs:509-553 | for every chunking the preview is the first min(4096, length) bytes and the stream put together again is the original one; it fails exactly when the stream fails before that; no chunk more than needed is read |
| BodyPreview.PreviewOf | apps/gateway/src/gateway/forward.rs:535-547 | the copying loop keeps exactly the prefix of the peeked bytes |
| BodyPreview.BranchesAgreeIff | apps/gateway/src/gateway/forward.rs:500-547 | the buffered and the peeking branch show the same preview except for an empty body that came in chunks |

## Left out

- Sockets, TLS, HTTP serving, WebSocket pipes, certificates, metrics and logging: plumbing around the decisions.
- SQL, OAuth refresh, the vault clients and decryption: the database is a function of the moment, and what a build would give is an argument.
- Signatures, credential formats and keys: verification is a function argument of `ApprovalStatus.Verifier`.
- JSON, JSON-RPC and regular expression parsing, JSON numbers beyond integers, and the HTTP library's header syntax: function arguments over an abstract value tree.
- Integer widths: counts, clocks and TTLs are unbounded here, so overflow of 64-bit numbers and the one-year fallback of `set_raw` are not modelled.
- Sub-second time, drift between the two system clocks, and the delay between reading the clock and `incr`: one step, one clock.
- A Redis cache and its `None` answer from `incr`: only the in-memory store is modelled.
- Two accesses in one step: reading and evicting an expired cache entry, the queries of one uncached resolution, a token's lifetime check and the store that uses it, and sending on and dropping a watch sender. `ConnectCache` and `ConnectFreshness` also take a query and its store, an app build and its store, and the two drops of an invalidation as one step; `ConnectFlights` does not.
- Long-poll wake-ups (`new_notify`, `wait_for_new`): hints only, with no effect on decisions.
- Agreement of a hold's outcome with its channel when both branches of `select!` are ready: the code does not promise it, and `ReleaseProvenance` does not use it.
- The direct `UPDATE` a cancelled hold's guard sends to the log table: it does not pass through the telemetry channel.
- Display fields of approvals, log rows and connect responses (names, labels, headers, budgets, plans, choices, claim tokens): no decision modelled here looks at them. The connection rows of a connect response are modelled (`ConnectionRows`).
- Which of a response's connection rows a request uses (the requested id, one per provider, or an ambiguity reported to the caller): `ConnectionRows` lets a request use any of them, one or more.
- The organization and project in the key of an app injection on the plain HTTP route: `gateway.rs:824-825` takes those in the response, `ConnectionRows` those the response is filed under, as `gateway/mitm.rs:285-322` does; they differ only for a token that changed its project.
- Sending on a watch channel whose receiver is gone: `Approval` sets the value all the same, the library leaves it unset; it concerns holds that have already ended, and nothing can observe the difference.
- The order in which a map is iterated: `ListPending` and `Sweep` give sets.
- Failing database statements in the telemetry worker: a statement counts as sent, and the loop goes on as the code does.
- Two rows under one id: `TelemetryTable` leaves the first in place, the database refuses the second.
- Row ids made up for events without one, and the per-column layout of the insert.
- The alphabetical order of the summary list in `findings_json`, and scores that are not numbers: scores are reals.
- UTF-8 decoding of the preview and paths that are not ASCII: previews are bytes.
- The provider table's entries, credential headers, host rewrites, finalizers and body transforms: any table is allowed.
- A rate window of zero seconds: the resolver never produces one (`PolicyResolution.ResolvedRateRules`), so `RateRuns` takes windows of at least one second.
- RateRuns.AdmittedInWindow: stated for colon-free ids and tokens and one fixed configuration per rule, because the counter key is their concatenation and a configuration change starts other windows.
- DlpOrder.ListingIsRightIff: spans that overlap, cover nothing or end beyond the text are not part of it, since "masked in order" means nothing for overlapping spans; `DlpOverlap` says for any listing which covered characters survive.
- ConnectCache.AnswersAreRecent: stated for colon-free ids and tokens, because the cache key is their concatenation; so are the results of `ConnectFreshness`, `ConnectFlights`, `ConnectionRows` and `ServedPolicy`.
- The web application, the other packages and the fixed response bodies.
