/** No hold gets stuck: from every reachable state each hold can come to its end and be cleaned up,
    with nobody deciding and nobody hanging up (approval.rs, forward.rs, approval_poll.rs). */
module ApprovalProgress {
  import opened Wrappers
  import opened ApprovalStatus
  import opened Approval
  import opened ApprovalProtocol

  /** A submission somewhere between its start and its return. */
  predicate Submits(task: Task) {
    task.Submitting? || task.Delivering? || task.Forgetting? || task.Returned?
  }

  /** A hold whose poll has an answer still has the poll's submission. */
  predicate PollsLive(s: Sys) {
    forall id | id in s.holds && s.holds[id].phase.Polled? ::
      s.holds[id].phase.tid in s.tasks && Submits(s.tasks[s.holds[id].phase.tid])
  }

  /** What a step can do to submissions and to the phases of holds. */
  predicate PollFrame(s: Sys, t: Sys) {
    && (forall tid | tid in s.tasks && Submits(s.tasks[tid]) :: tid in t.tasks && Submits(t.tasks[tid]))
    && (forall id | id in t.holds && t.holds[id].phase.Polled? ::
          || (id in s.holds && s.holds[id].phase == t.holds[id].phase)
          || (t.holds[id].phase.tid in t.tasks && Submits(t.tasks[t.holds[id].phase.tid])))
  }

  lemma HoldStepFrame(s: Sys, step: Step)
    requires HoldNext(s, step).Some?
    ensures PollFrame(s, HoldNext(s, step).value)
  {
    if MovesPhaseOnly(step) {
      PhaseMoveIs(s, step);
      NoPollAnswer(s, step);
    }
  }

  lemma NoPollAnswer(s: Sys, step: Step)
    requires MovesPhaseOnly(step) && HoldNext(s, step).Some?
    ensures step.id in HoldNext(s, step).value.holds && !HoldNext(s, step).value.holds[step.id].phase.Polled?
  {
  }

  lemma SubmitStepFrame(s: Sys, step: Step)
    requires SubmitNext(s, step).Some?
    ensures PollFrame(s, SubmitNext(s, step).value)
  {
  }

  lemma SweepStepFrame(s: Sys, step: Step)
    requires SweepNext(s, step).Some?
    ensures PollFrame(s, SweepNext(s, step).value)
  {
  }

  lemma NextKeepsPolls(s: Sys, step: Step)
    requires PollsLive(s) && Next(s, step).Some?
    ensures PollsLive(Next(s, step).value)
  {
    if step.Tick? {
    } else if HoldNext(s, step).Some? {
      HoldStepFrame(s, step);
    } else if SubmitNext(s, step).Some? {
      SubmitStepFrame(s, step);
    } else {
      SweepStepFrame(s, step);
    }
  }

  lemma {:induction false} RunKeepsPolls(s: Sys, steps: seq<Step>)
    requires PollsLive(s) && Run(s, steps).Some?
    ensures PollsLive(Run(s, steps).value)
    decreases |steps|
  {
    if steps != [] {
      NextKeepsPolls(s, steps[0]);
      RunKeepsPolls(Next(s, steps[0]).value, steps[1..]);
    }
  }

  /** Steps that need no handler, no reply of the API and no agent hanging up: the hold's own
      course, its poll's submission, and time. */
  predicate OnItsOwn(step: Step) {
    step.Tick? || step.StorePending? || step.StartWaiting? || step.Timeout? || step.PollReturns?
    || step.TakeStep? || step.DeliverStep? || step.ForgetStep? || step.CleanPending? || step.CleanSender?
  }

  /** How far a hold is from its end. */
  function Distance(s: Sys, id: string): nat
    requires PollsLive(s) && id in s.holds
  {
    match s.holds[id].phase
    case Prepared => 7
    case Notifying => 6
    case Waiting(_) => 5
    case Polled(_, tid, _, _) =>
      (match s.tasks[tid]
       case Submitting(_) => 4
       case Delivering(_, _) => 3
       case Forgetting(_) => 2
       case _ => 1)
    case Ended(_, _) => 0
  }

  function TimeLeft(s: Sys, id: string): nat
    requires id in s.holds
  {
    match s.holds[id].phase
    case Waiting(since) => if s.now >= since + APPROVAL_TIMEOUT_SECS then 0 else since + APPROVAL_TIMEOUT_SECS - s.now
    case _ => 0
  }

  /** The next step of a hold that has not ended. */
  function NextOwnStep(s: Sys, id: string): Step
    requires PollsLive(s) && id in s.holds && !s.holds[id].phase.Ended?
  {
    match s.holds[id].phase
    case Prepared => StorePending(id, "")
    case Notifying => StartWaiting(id)
    case Waiting(_) => if TimeLeft(s, id) == 0 then Timeout(id) else Tick
    case Polled(_, tid, _, _) =>
      (match s.tasks[tid]
       case Submitting(_) => TakeStep(tid)
       case Delivering(_, _) => DeliverStep(tid)
       case Forgetting(_) => ForgetStep(tid)
       case _ => PollReturns(id))
  }

  /** That step can be taken, and brings the hold closer to its end. */
  lemma OwnStepAdvances(s: Sys, id: string)
    requires PollsLive(s) && id in s.holds && !s.holds[id].phase.Ended?
    ensures var t := Next(s, NextOwnStep(s, id));
            && OnItsOwn(NextOwnStep(s, id)) && t.Some? && PollsLive(t.value) && id in t.value.holds
            && (Distance(t.value, id) < Distance(s, id)
                || (Distance(t.value, id) == Distance(s, id) && TimeLeft(t.value, id) < TimeLeft(s, id)))
  {
    var step := NextOwnStep(s, id);
    assert Next(s, step).Some?;
    NextKeepsPolls(s, step);
  }

  lemma {:induction false} CanEnd(s: Sys, id: string) returns (steps: seq<Step>)
    requires PollsLive(s) && id in s.holds
    ensures forall i | 0 <= i < |steps| :: OnItsOwn(steps[i])
    ensures Run(s, steps).Some? && id in Run(s, steps).value.holds && IsClean(Run(s, steps).value.holds[id].phase)
    decreases Distance(s, id), TimeLeft(s, id)
  {
    if s.holds[id].phase.Ended? {
      steps := CleanupOf(id, s.holds[id].phase.cleanup);
      CleanupNeverBlocks(s, id);
    } else {
      var step := NextOwnStep(s, id);
      OwnStepAdvances(s, id);
      var rest := CanEnd(Next(s, step).value, id);
      steps := [step] + rest;
      assert steps[1..] == rest;
    }
  }

  /** From every reachable state every hold, whatever it is doing, can reach its end and be cleaned
      up without any outside help; then neither map holds its id. */
  lemma EveryHoldCanEnd(s: Sys, id: string) returns (steps: seq<Step>)
    requires Reachable(s) && id in s.holds
    ensures forall i | 0 <= i < |steps| :: OnItsOwn(steps[i])
    ensures Run(s, steps).Some? && id in Run(s, steps).value.holds && IsClean(Run(s, steps).value.holds[id].phase)
    ensures id !in Run(s, steps).value.store.pending && id !in Run(s, steps).value.store.decisions
  {
    var verifier, now: nat, before :| Run(Initial(verifier, now), before) == Some(s);
    RunKeepsPolls(Initial(verifier, now), before);
    ReachableInv(s);
    steps := CanEnd(s, id);
    RunKeepsInv(s, steps);
    var t := Run(s, steps).value;
    assert HoldOk(t.verifier, t.now, t.store, t.wins, id, t.holds[id]);
  }
}
