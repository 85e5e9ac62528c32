/** Polling the API for a decision (`poll_for_decision_with_url` in approval_poll.rs). */
module ApprovalPoll {
  import opened Wrappers
  import opened ApprovalStatus
  import opened Approval

  const POLL_INTERVAL := 2

  /** What the outside does in one round: how long the sleep overruns, the decoded reply (none
      for a failed, refused or undecodable request), and how long the request takes. */
  datatype Round = Round(oversleep: nat, reply: Option<StatusReply>, requestTime: nat)

  function DecisionIn(v: Verifier, round: Round): Option<Decision> {
    match round.reply
    case Some(reply) => MapStatus(v, reply)
    case None => None
  }

  /** The times of the status requests: each a full interval after the one before, all
      strictly before the deadline. */
  predicate Spaced(requests: seq<nat>, start: nat, deadline: nat) {
    && (forall i | 0 <= i < |requests| :: start + POLL_INTERVAL * (i + 1) <= requests[i] < deadline)
    && (forall i | 0 < i < |requests| :: requests[i - 1] + POLL_INTERVAL <= requests[i])
  }

  predicate NothingTerminal(v: Verifier, rounds: nat -> Round, n: nat) {
    forall i: nat | i < n :: DecisionIn(v, rounds(i)).None?
  }

  lemma OneMoreRequest(requests: seq<nat>, now: nat, start: nat, deadline: nat)
    requires Spaced(requests, start, deadline) && start + POLL_INTERVAL * (|requests| + 1) <= now < deadline
    requires requests != [] ==> requests[|requests| - 1] + POLL_INTERVAL <= now
    ensures Spaced(requests + [now], start, deadline)
  {
  }

  /** The loop, up to its first terminal reply. For every sequence of rounds it ends. */
  method AwaitTerminal(v: Verifier, start: nat, timeout: nat, rounds: nat -> Round)
    returns (decision: Option<Decision>, requests: seq<nat>, end: nat)
    ensures Spaced(requests, start, start + timeout)
    ensures requests != [] ==> POLL_INTERVAL * |requests| < timeout
    ensures decision.Some? ==>
              requests != [] && DecisionIn(v, rounds(|requests| - 1)) == decision
              && NothingTerminal(v, rounds, |requests| - 1)
    ensures decision.None? ==> NothingTerminal(v, rounds, |requests|) && end >= start + timeout
  {
    var deadline := start + timeout;
    var now := start;
    requests := [];
    while true
      invariant start + POLL_INTERVAL * |requests| <= now
      invariant Spaced(requests, start, deadline)
      invariant requests != [] ==> requests[|requests| - 1] <= now
      invariant NothingTerminal(v, rounds, |requests|)
      decreases deadline - now
    {
      if now >= deadline {
        return None, requests, now;
      }
      var remaining := deadline - now;
      var round := rounds(|requests|);
      now := now + (if POLL_INTERVAL <= remaining then POLL_INTERVAL else remaining) + round.oversleep;
      if now >= deadline {
        return None, requests, now;
      }
      OneMoreRequest(requests, now, start, deadline);
      requests := requests + [now];
      now := now + round.requestTime;
      match round.reply {
        case Some(reply) =>
          decision := MapStatus(v, reply);
          if decision.Some? {
            return decision, requests, now;
          }
        case None =>
      }
    }
  }

  /** The first terminal reply is also submitted to the store, whose answer is ignored. */
  method PollForDecision(
    v: Verifier, store: InMemoryApprovalStore, id: string, start: nat, timeout: nat, rounds: nat -> Round)
    returns (decision: Option<Decision>, requests: seq<nat>)
    requires store.Valid()
    modifies store
    ensures store.Valid()
    ensures Spaced(requests, start, start + timeout)
    ensures decision.Some? ==>
              requests != [] && DecisionIn(v, rounds(|requests| - 1)) == decision
              && NothingTerminal(v, rounds, |requests| - 1)
    ensures decision.None? ==> NothingTerminal(v, rounds, |requests|)
    ensures store.State() == match decision case Some(d) => Submitted(old(store.State()), id, d)
                                            case None => old(store.State())
  {
    var end;
    decision, requests, end := AwaitTerminal(v, start, timeout, rounds);
    match decision {
      case Some(d) => var _ := store.SubmitDecision(id, d);
      case None =>
    }
  }
}
