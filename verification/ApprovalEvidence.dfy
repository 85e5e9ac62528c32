/** What the steps of a run say about a hold's end (forward.rs, gateway.rs, approval_poll.rs): whose
    call with which decision, or which reply, it goes back to, and what a call leads to. */
module ApprovalEvidence {
  import opened Wrappers
  import opened ApprovalStatus
  import opened Approval
  import opened ApprovalProtocol

  // ── Steps behind a submission ─────────────────────────────────────────

  /** Step `k` of the run is `step`, taken in state `u`. */
  ghost predicate TakenIn(v: Verifier, now: nat, steps: seq<Step>, k: nat, step: Step, u: Sys) {
    k < |steps| && steps[k] == step && Run(Initial(v, now), steps[..k]) == Some(u)
  }

  /** The decision handler was called with this project, id and decision, as task `tid`. */
  ghost predicate Called(steps: seq<Step>, k: nat, tid: nat, projectId: string, id: string, d: Decision) {
    k < |steps| && steps[k] == Call(tid, projectId, id, d)
  }

  /** The handler's lookup found exactly this approval, pending and unexpired, at that time. */
  ghost predicate FoundPending(v: Verifier, now: nat, steps: seq<Step>, k: nat, tid: nat, id: string,
                               seen: PendingApproval, at: nat)
  {
    exists u :: TakenIn(v, now, steps, k, Lookup(tid), u) && u.now == at && id in u.store.pending
                && u.store.pending[id] == seen && at < seen.expiresAt
  }

  /** A call with this very decision, and then its lookup. */
  ghost predicate ByCall(v: Verifier, now: nat, steps: seq<Step>, projectId: string, id: string, d: Decision,
                         seen: PendingApproval, at: nat)
  {
    exists tid, j, k :: CallThenLookup(v, now, steps, tid, j, k, projectId, id, d, seen, at)
  }

  ghost predicate CallThenLookup(v: Verifier, now: nat, steps: seq<Step>, tid: nat, j: nat, k: nat, projectId: string,
                                 id: string, d: Decision, seen: PendingApproval, at: nat)
  {
    j < k && Called(steps, j, tid, projectId, id, d) && FoundPending(v, now, steps, k, tid, id, seen, at)
  }

  /** The hold's own poll was answered with this reply, which stands for this decision. */
  ghost predicate ByReply(v: Verifier, steps: seq<Step>, id: string, reply: StatusReply, d: Decision) {
    MapStatus(v, reply) == Some(d) && exists k: nat, tid: nat :: k < |steps| && steps[k] == PollAnswers(id, tid, reply)
  }

  /** A sweep begun at `cut` saw the id expired by then. */
  ghost predicate SeenExpired(v: Verifier, now: nat, steps: seq<Step>, id: string, tid: nat, cut: nat) {
    && (exists j, u :: TakenIn(v, now, steps, j, StartSweep(tid), u) && u.now == cut)
    && (exists k, u :: TakenIn(v, now, steps, k, SweepSees(tid, id), u) && id in u.store.pending
                       && u.store.pending[id].expiresAt <= cut)
  }

  ghost predicate Traced(v: Verifier, now: nat, steps: seq<Step>, w: Win) {
    match w.source
    case ByHandler(projectId, seen, at) => ByCall(v, now, steps, projectId, w.id, w.decision, seen, at)
    case ByPoll(reply) => ByReply(v, steps, w.id, reply, w.decision)
    case BySweep(tid, cut) => w.decision == Deny && SeenExpired(v, now, steps, w.id, tid, cut)
  }

  ghost predicate TaskTraced(v: Verifier, now: nat, steps: seq<Step>, tid: nat, t: Task) {
    match t
    case HandlerCall(projectId, id, d) => exists k :: Called(steps, k, tid, projectId, id, d)
    case Submitting(w) => Traced(v, now, steps, w)
    case Delivering(w, _) => Traced(v, now, steps, w)
    case Forgetting(w) => Traced(v, now, steps, w)
    case Sweeping(cut, ids, _, _) =>
      && (exists j, u :: TakenIn(v, now, steps, j, StartSweep(tid), u) && u.now == cut)
      && (forall id | id in ids :: SeenExpired(v, now, steps, id, tid, cut))
    case _ => true
  }

  ghost predicate HoldTraced(v: Verifier, steps: seq<Step>, id: string, h: Hold) {
    match h.phase
    case Polled(_, _, d, reply) => ByReply(v, steps, id, reply, d)
    case Ended(Released(FromPoll(reply)), _) => ByReply(v, steps, id, reply, Approve)
    case Ended(Rejected(FromPoll(reply)), _) => ByReply(v, steps, id, reply, Deny)
    case _ => true
  }

  ghost predicate AllTraced(v: Verifier, now: nat, steps: seq<Step>, s: Sys) {
    && s.verifier == v
    && (forall i | 0 <= i < |s.wins| :: Traced(v, now, steps, s.wins[i]))
    && (forall tid | tid in s.tasks :: TaskTraced(v, now, steps, tid, s.tasks[tid]))
    && (forall id | id in s.holds :: HoldTraced(v, steps, id, s.holds[id]))
  }

  // ── One more step ─────────────────────────────────────────────────────

  lemma {:induction false} RunSnoc(s: Sys, steps: seq<Step>, step: Step)
    ensures Run(s, steps + [step])
         == match Run(s, steps) case Some(t) => Next(t, step) case None => None
    decreases |steps|
  {
    var all := steps + [step];
    if steps == [] {
      assert all[1..] == [] && all[0] == step;
    } else {
      assert all[0] == steps[0] && all[1..] == steps[1..] + [step];
      if Next(s, steps[0]).Some? {
        RunSnoc(Next(s, steps[0]).value, steps[1..], step);
      }
    }
  }

  lemma TakenLater(v: Verifier, now: nat, steps: seq<Step>, more: seq<Step>, k: nat, step: Step, u: Sys)
    requires steps <= more && TakenIn(v, now, steps, k, step, u)
    ensures TakenIn(v, now, more, k, step, u)
  {
    assert more[..k] == steps[..k];
  }

  lemma FoundLater(v: Verifier, now: nat, steps: seq<Step>, more: seq<Step>, k: nat, tid: nat, id: string,
                   seen: PendingApproval, at: nat)
    requires steps <= more && FoundPending(v, now, steps, k, tid, id, seen, at)
    ensures FoundPending(v, now, more, k, tid, id, seen, at)
  {
    var u :| TakenIn(v, now, steps, k, Lookup(tid), u) && u.now == at && id in u.store.pending
             && u.store.pending[id] == seen && at < seen.expiresAt;
    TakenLater(v, now, steps, more, k, Lookup(tid), u);
  }

  lemma CallLater(v: Verifier, now: nat, steps: seq<Step>, more: seq<Step>, projectId: string, id: string,
                  d: Decision, seen: PendingApproval, at: nat)
    requires steps <= more && ByCall(v, now, steps, projectId, id, d, seen, at)
    ensures ByCall(v, now, more, projectId, id, d, seen, at)
  {
    var tid, j, k :| CallThenLookup(v, now, steps, tid, j, k, projectId, id, d, seen, at);
    FoundLater(v, now, steps, more, k, tid, id, seen, at);
    assert CallThenLookup(v, now, more, tid, j, k, projectId, id, d, seen, at);
  }

  lemma ReplyLater(v: Verifier, steps: seq<Step>, more: seq<Step>, id: string, reply: StatusReply, d: Decision)
    requires steps <= more && ByReply(v, steps, id, reply, d)
    ensures ByReply(v, more, id, reply, d)
  {
    var k: nat, tid: nat :| k < |steps| && steps[k] == PollAnswers(id, tid, reply);
    assert more[k] == PollAnswers(id, tid, reply);
  }

  lemma StartLater(v: Verifier, now: nat, steps: seq<Step>, more: seq<Step>, tid: nat, cut: nat)
    requires steps <= more
    requires exists j, u :: TakenIn(v, now, steps, j, StartSweep(tid), u) && u.now == cut
    ensures exists j, u :: TakenIn(v, now, more, j, StartSweep(tid), u) && u.now == cut
  {
    var j, u :| TakenIn(v, now, steps, j, StartSweep(tid), u) && u.now == cut;
    TakenLater(v, now, steps, more, j, StartSweep(tid), u);
  }

  lemma ExpiredLater(v: Verifier, now: nat, steps: seq<Step>, more: seq<Step>, id: string, tid: nat, cut: nat)
    requires steps <= more && SeenExpired(v, now, steps, id, tid, cut)
    ensures SeenExpired(v, now, more, id, tid, cut)
  {
    StartLater(v, now, steps, more, tid, cut);
    var k, u :| TakenIn(v, now, steps, k, SweepSees(tid, id), u) && id in u.store.pending
                && u.store.pending[id].expiresAt <= cut;
    TakenLater(v, now, steps, more, k, SweepSees(tid, id), u);
  }

  lemma WinLater(v: Verifier, now: nat, steps: seq<Step>, more: seq<Step>, w: Win)
    requires steps <= more && Traced(v, now, steps, w)
    ensures Traced(v, now, more, w)
  {
    match w.source
    case ByHandler(projectId, seen, at) =>
      CallLater(v, now, steps, more, projectId, w.id, w.decision, seen, at);
    case ByPoll(reply) => ReplyLater(v, steps, more, w.id, reply, w.decision);
    case BySweep(tid, cut) => ExpiredLater(v, now, steps, more, w.id, tid, cut);
  }

  lemma TaskLater(v: Verifier, now: nat, steps: seq<Step>, more: seq<Step>, tid: nat, t: Task)
    requires steps <= more && TaskTraced(v, now, steps, tid, t)
    ensures TaskTraced(v, now, more, tid, t)
  {
    match t
    case HandlerCall(projectId, id, d) =>
      var k :| Called(steps, k, tid, projectId, id, d);
      assert Called(more, k, tid, projectId, id, d);
    case Submitting(w) => WinLater(v, now, steps, more, w);
    case Delivering(w, _) => WinLater(v, now, steps, more, w);
    case Forgetting(w) => WinLater(v, now, steps, more, w);
    case Sweeping(cut, ids, _, _) =>
      StartLater(v, now, steps, more, tid, cut);
      forall id | id in ids ensures SeenExpired(v, now, more, id, tid, cut) {
        ExpiredLater(v, now, steps, more, id, tid, cut);
      }
    case _ =>
  }

  lemma HoldLater(v: Verifier, steps: seq<Step>, more: seq<Step>, id: string, h: Hold)
    requires steps <= more && HoldTraced(v, steps, id, h)
    ensures HoldTraced(v, more, id, h)
  {
    match h.phase
    case Polled(_, _, d, reply) => ReplyLater(v, steps, more, id, reply, d);
    case Ended(Released(FromPoll(reply)), _) => ReplyLater(v, steps, more, id, reply, Approve);
    case Ended(Rejected(FromPoll(reply)), _) => ReplyLater(v, steps, more, id, reply, Deny);
    case _ =>
  }

  lemma AllLater(v: Verifier, now: nat, steps: seq<Step>, more: seq<Step>, s: Sys)
    requires steps <= more && AllTraced(v, now, steps, s)
    ensures AllTraced(v, now, more, s)
  {
    forall i | 0 <= i < |s.wins| ensures Traced(v, now, more, s.wins[i]) {
      WinLater(v, now, steps, more, s.wins[i]);
    }
    forall tid | tid in s.tasks ensures TaskTraced(v, now, more, tid, s.tasks[tid]) {
      TaskLater(v, now, steps, more, tid, s.tasks[tid]);
    }
    forall id | id in s.holds ensures HoldTraced(v, more, id, s.holds[id]) {
      HoldLater(v, steps, more, id, s.holds[id]);
    }
  }

  /** One task changed, and what it came to is traced; at most one win more, which is traced too. */
  lemma TaskStepTraced(v: Verifier, now: nat, steps: seq<Step>, s: Sys, t: Sys, tid: nat)
    requires AllTraced(v, now, steps, s) && t.verifier == s.verifier && t.holds == s.holds
    requires forall o | o in t.tasks && o != tid :: o in s.tasks && t.tasks[o] == s.tasks[o]
    requires tid in t.tasks ==> TaskTraced(v, now, steps, tid, t.tasks[tid])
    requires t.wins == s.wins || exists w :: t.wins == s.wins + [w] && Traced(v, now, steps, w)
    ensures AllTraced(v, now, steps, t)
  {
  }

  /** One hold moved on. */
  lemma HoldStepTraced(v: Verifier, now: nat, steps: seq<Step>, s: Sys, t: Sys, id: string)
    requires AllTraced(v, now, steps, s) && t.verifier == s.verifier && t.tasks == s.tasks && t.wins == s.wins
    requires forall o | o in t.holds && o != id :: o in s.holds && t.holds[o] == s.holds[o]
    requires id in t.holds && HoldTraced(v, steps, id, t.holds[id])
    ensures AllTraced(v, now, steps, t)
  {
  }

  /** The step just taken, at the end of the run. */
  ghost predicate JustTaken(v: Verifier, now: nat, steps: seq<Step>, step: Step, s: Sys) {
    steps != [] && TakenIn(v, now, steps, |steps| - 1, step, s)
  }

  lemma LastTaken(v: Verifier, now: nat, steps: seq<Step>, step: Step, s: Sys)
    requires Run(Initial(v, now), steps) == Some(s)
    ensures JustTaken(v, now, steps + [step], step, s)
  {
    assert (steps + [step])[..|steps|] == steps;
  }

  predicate IsSubmit(step: Step) {
    step.Call? || step.Lookup? || step.Evict? || step.TakeStep? || step.DeliverStep? || step.ForgetStep?
  }

  lemma SubmitLeaves(s: Sys, step: Step)
    requires SubmitNext(s, step).Some?
    ensures var t := SubmitNext(s, step).value;
            && IsSubmit(step) && t.verifier == s.verifier && t.holds == s.holds && step.tid in t.tasks
            && (forall o | o in t.tasks && o != step.tid :: o in s.tasks && t.tasks[o] == s.tasks[o])
            && (t.wins == s.wins
                || (step.TakeStep? && step.tid in s.tasks && s.tasks[step.tid].Submitting?
                    && t.wins == s.wins + [s.tasks[step.tid].win]))
            && (step.Call? ==> t.tasks[step.tid] == HandlerCall(step.projectId, step.id, step.decision))
            && (!step.Call? ==> step.tid in s.tasks)
  {
  }

  /** The win of a task, while it has one to take or to send. */
  function WinOf(t: Task): Option<Win> {
    match t
    case Submitting(w) => Some(w)
    case Delivering(w, _) => Some(w)
    case Forgetting(w) => Some(w)
    case _ => None
  }

  /** Past its lookup a task keeps its win to the end. */
  lemma SubmitKeepsWin(s: Sys, step: Step)
    requires SubmitNext(s, step).Some? && !step.Call? && !step.Lookup?
    ensures var t := SubmitNext(s, step).value;
            && step.tid in s.tasks && step.tid in t.tasks
            && (t.tasks[step.tid].Returned? || (WinOf(t.tasks[step.tid]).Some?
                && WinOf(t.tasks[step.tid]) == WinOf(s.tasks[step.tid])))
  {
  }

  lemma LookupGives(s: Sys, tid: nat)
    requires SubmitNext(s, Lookup(tid)).Some?
    ensures var t := SubmitNext(s, Lookup(tid)).value;
            && tid in s.tasks && s.tasks[tid].HandlerCall? && tid in t.tasks
            && var c := s.tasks[tid];
               (|| t.tasks[tid].Returned? || t.tasks[tid].Evicting?
                || (LivePending(s.store, c.id, s.now).Some?
                    && t.tasks[tid] == Submitting(Win(c.id, c.decision, ByHandler(c.projectId,
                         LivePending(s.store, c.id, s.now).value, s.now)))))
  {
  }

  lemma WinTraced(v: Verifier, now: nat, steps: seq<Step>, tid: nat, t: Task)
    requires TaskTraced(v, now, steps, tid, t)
    ensures WinOf(t).Some? ==> Traced(v, now, steps, WinOf(t).value)
  {
  }

  /** What a submission step turns a task into. */
  lemma SubmitTraced(v: Verifier, now: nat, steps: seq<Step>, step: Step, s: Sys)
    requires AllTraced(v, now, steps, s) && JustTaken(v, now, steps, step, s) && SubmitNext(s, step).Some?
    ensures IsSubmit(step) && step.tid in SubmitNext(s, step).value.tasks
    ensures TaskTraced(v, now, steps, step.tid, SubmitNext(s, step).value.tasks[step.tid])
  {
    SubmitLeaves(s, step);
    if step.Call? {
      assert Called(steps, |steps| - 1, step.tid, step.projectId, step.id, step.decision);
    } else if step.Lookup? {
      LookupGives(s, step.tid);
      assert TaskTraced(v, now, steps, step.tid, s.tasks[step.tid]);
      if LivePending(s.store, s.tasks[step.tid].id, s.now).Some? {
        LookupTraced(v, now, steps, s, step.tid);
      }
    } else {
      SubmitKeepsWin(s, step);
      WinTraced(v, now, steps, step.tid, s.tasks[step.tid]);
    }
  }

  /** A lookup submits the decision of the call of its own task. */
  lemma LookupTraced(v: Verifier, now: nat, steps: seq<Step>, s: Sys, tid: nat)
    requires JustTaken(v, now, steps, Lookup(tid), s)
    requires tid in s.tasks && s.tasks[tid].HandlerCall? && TaskTraced(v, now, steps, tid, s.tasks[tid])
    requires LivePending(s.store, s.tasks[tid].id, s.now).Some?
    ensures var c := s.tasks[tid];
            ByCall(v, now, steps, c.projectId, c.id, c.decision, LivePending(s.store, c.id, s.now).value, s.now)
  {
    var c := s.tasks[tid];
    var seen := LivePending(s.store, c.id, s.now).value;
    var j :| Called(steps, j, tid, c.projectId, c.id, c.decision);
    assert j != |steps| - 1;
    assert FoundPending(v, now, steps, |steps| - 1, tid, c.id, seen, s.now);
    assert CallThenLookup(v, now, steps, tid, j, |steps| - 1, c.projectId, c.id, c.decision, seen, s.now);
  }

  /** A sweep's list grows only by ids it sees expired. */
  lemma SweepTraced(v: Verifier, now: nat, steps: seq<Step>, step: Step, s: Sys)
    requires AllTraced(v, now, steps, s) && JustTaken(v, now, steps, step, s)
    requires SweepNext(s, step).Some? && step.StartSweep?
    ensures TaskTraced(v, now, steps, step.tid, SweepNext(s, step).value.tasks[step.tid])
  {
    assert TakenIn(v, now, steps, |steps| - 1, StartSweep(step.tid), s);
  }

  lemma SeesTraced(v: Verifier, now: nat, steps: seq<Step>, s: Sys, tid: nat, id: string)
    requires AllTraced(v, now, steps, s) && JustTaken(v, now, steps, SweepSees(tid, id), s)
    requires SweepNext(s, SweepSees(tid, id)).Some?
    ensures TaskTraced(v, now, steps, tid, SweepNext(s, SweepSees(tid, id)).value.tasks[tid])
  {
    var t := s.tasks[tid];
    assert TaskTraced(v, now, steps, tid, t);
    assert TakenIn(v, now, steps, |steps| - 1, SweepSees(tid, id), s);
    assert SeenExpired(v, now, steps, id, tid, t.cut);
    forall o | o in t.ids + [id] ensures SeenExpired(v, now, steps, o, tid, t.cut) {
    }
  }

  lemma TakesGives(s: Sys, tid: nat)
    requires SweepNext(s, SweepTakes(tid)).Some?
    ensures var t := SweepNext(s, SweepTakes(tid)).value;
            && SweepAt(s, tid) && tid in t.tasks && t.tasks[tid].Sweeping?
            && t.tasks[tid].cut == s.tasks[tid].cut && t.tasks[tid].ids == s.tasks[tid].ids
            && (t.wins == s.wins
                || t.wins == s.wins + [Win(s.tasks[tid].ids[s.tasks[tid].i], Deny, BySweep(tid, s.tasks[tid].cut))])
  {
  }

  lemma TakesTraced(v: Verifier, now: nat, steps: seq<Step>, s: Sys, tid: nat)
    requires AllTraced(v, now, steps, s) && SweepNext(s, SweepTakes(tid)).Some?
    ensures var t := SweepNext(s, SweepTakes(tid)).value;
            && TaskTraced(v, now, steps, tid, t.tasks[tid])
            && (t.wins == s.wins || exists w :: t.wins == s.wins + [w] && Traced(v, now, steps, w))
  {
    TakesGives(s, tid);
    var task := s.tasks[tid];
    assert TaskTraced(v, now, steps, tid, task);
    assert task.ids[task.i] in task.ids;
    assert Traced(v, now, steps, Win(task.ids[task.i], Deny, BySweep(tid, task.cut)));
  }

  lemma OnTraced(v: Verifier, now: nat, steps: seq<Step>, step: Step, s: Sys)
    requires AllTraced(v, now, steps, s) && SweepNext(s, step).Some?
    requires step.SweepGoes? || step.SweepDelivers? || step.SweepForgets?
    ensures TaskTraced(v, now, steps, step.tid, SweepNext(s, step).value.tasks[step.tid])
  {
    assert TaskTraced(v, now, steps, step.tid, s.tasks[step.tid]);
  }

  predicate IsSweep(step: Step) {
    step.StartSweep? || step.SweepSees? || step.SweepGoes? || step.SweepTakes? || step.SweepDelivers?
    || step.SweepForgets?
  }

  lemma SweepLeaves(s: Sys, step: Step)
    requires SweepNext(s, step).Some?
    ensures var t := SweepNext(s, step).value;
            && IsSweep(step) && t.verifier == s.verifier && t.holds == s.holds && step.tid in t.tasks
            && (forall o | o in t.tasks && o != step.tid :: o in s.tasks && t.tasks[o] == s.tasks[o])
            && (!step.SweepTakes? ==> t.wins == s.wins)
  {
  }

  lemma SweepStepTraced(v: Verifier, now: nat, steps: seq<Step>, step: Step, s: Sys)
    requires AllTraced(v, now, steps, s) && JustTaken(v, now, steps, step, s) && SweepNext(s, step).Some?
    ensures AllTraced(v, now, steps, SweepNext(s, step).value)
  {
    SweepLeaves(s, step);
    if step.StartSweep? {
      SweepTraced(v, now, steps, step, s);
    } else if step.SweepSees? {
      SeesTraced(v, now, steps, s, step.tid, step.id);
    } else if step.SweepTakes? {
      TakesTraced(v, now, steps, s, step.tid);
    } else {
      OnTraced(v, now, steps, step, s);
    }
    TaskStepTraced(v, now, steps, s, SweepNext(s, step).value, step.tid);
  }

  lemma SubmitStepTraced(v: Verifier, now: nat, steps: seq<Step>, step: Step, s: Sys)
    requires AllTraced(v, now, steps, s) && JustTaken(v, now, steps, step, s) && SubmitNext(s, step).Some?
    ensures AllTraced(v, now, steps, SubmitNext(s, step).value)
  {
    SubmitTraced(v, now, steps, step, s);
    SubmitLeaves(s, step);
    if step.TakeStep? {
      assert TaskTraced(v, now, steps, step.tid, s.tasks[step.tid]);
    }
    TaskStepTraced(v, now, steps, s, SubmitNext(s, step).value, step.tid);
  }

  /** The hold a step of a held request is about. */
  lemma HoldLeaves(s: Sys, step: Step)
    requires HoldNext(s, step).Some? && !step.PollAnswers?
    ensures step.Begin? || step.StorePending? || step.FailToStore? || step.StartWaiting? || step.Observe?
            || step.ObserveClosed? || step.Timeout? || step.PollReturns? || step.Cancel? || step.CleanPending?
            || step.CleanSender?
    ensures var t := HoldNext(s, step).value;
            && t.verifier == s.verifier && t.tasks == s.tasks && t.wins == s.wins && step.id in t.holds
            && (forall o | o in t.holds && o != step.id :: o in s.holds && t.holds[o] == s.holds[o])
  {
  }

  lemma HoldMoves(v: Verifier, now: nat, steps: seq<Step>, step: Step, s: Sys)
    requires AllTraced(v, now, steps, s) && HoldNext(s, step).Some? && !step.PollAnswers?
    ensures AllTraced(v, now, steps, HoldNext(s, step).value)
  {
    HoldLeaves(s, step);
    var t := HoldNext(s, step).value;
    if step.id in s.holds {
      assert HoldTraced(v, steps, step.id, s.holds[step.id]);
    }
    HoldStepTraced(v, now, steps, s, t, step.id);
  }

  lemma AnswerTraced(v: Verifier, now: nat, steps: seq<Step>, s: Sys, id: string, tid: nat, reply: StatusReply)
    requires AllTraced(v, now, steps, s) && JustTaken(v, now, steps, PollAnswers(id, tid, reply), s)
    requires HoldNext(s, PollAnswers(id, tid, reply)).Some?
    ensures AllTraced(v, now, steps, HoldNext(s, PollAnswers(id, tid, reply)).value)
  {
    var t, d := HoldNext(s, PollAnswers(id, tid, reply)).value, MapStatus(v, reply).value;
    var m := SetPhase(s, id, Polled(s.holds[id].phase.since, tid, d, reply));
    assert steps[|steps| - 1] == PollAnswers(id, tid, reply);
    assert ByReply(v, steps, id, reply, d);
    HoldStepTraced(v, now, steps, s, m, id);
    assert t == SetTask(m, tid, Submitting(Win(id, d, ByPoll(reply))));
    TaskStepTraced(v, now, steps, m, t, tid);
  }

  lemma StepTraced(v: Verifier, now: nat, steps: seq<Step>, step: Step, s: Sys, t: Sys)
    requires AllTraced(v, now, steps, s) && JustTaken(v, now, steps, step, s) && Next(s, step) == Some(t)
    ensures AllTraced(v, now, steps, t)
  {
    NextCases(s, step, t);
    if HoldNext(s, step) == Some(t) {
      if step.PollAnswers? {
        AnswerTraced(v, now, steps, s, step.id, step.tid, step.reply);
      } else {
        HoldMoves(v, now, steps, step, s);
      }
    } else if SubmitNext(s, step) == Some(t) {
      SubmitStepTraced(v, now, steps, step, s);
    } else if SweepNext(s, step) == Some(t) {
      SweepStepTraced(v, now, steps, step, s);
    }
  }

  // ── Whole runs ────────────────────────────────────────────────────────

  /** In every run every submission that won goes back to its steps: a call with this very decision,
      whose lookup found the approval pending and unexpired; the hold's own poll and its reply; or a
      sweep that saw the approval expired. */
  lemma {:induction false} RunTraced(v: Verifier, now: nat, steps: seq<Step>, s: Sys)
    requires Run(Initial(v, now), steps) == Some(s)
    ensures AllTraced(v, now, steps, s)
    decreases |steps|
  {
    if steps != [] {
      var before, last := steps[..|steps| - 1], steps[|steps| - 1];
      assert steps == before + [last];
      RunSnoc(Initial(v, now), before, last);
      var u := Run(Initial(v, now), before).value;
      RunTraced(v, now, before, u);
      AllLater(v, now, before, steps, u);
      LastTaken(v, now, before, last, u);
      StepTraced(v, now, steps, last, u, s);
    }
  }

  /** A decision a handler won with is the one it was called with. */
  lemma HandlerWinIsItsCall(v: Verifier, now: nat, steps: seq<Step>, s: Sys, i: nat)
    requires Run(Initial(v, now), steps) == Some(s) && i < |s.wins| && s.wins[i].source.ByHandler?
    ensures var w := s.wins[i];
            exists k, tid :: Called(steps, k, tid, w.source.projectId, w.id, w.decision)
  {
    RunTraced(v, now, steps, s);
    assert Traced(v, now, steps, s.wins[i]);
  }

  /** What a hold's end with decision `d` goes back to. */
  ghost predicate DecidedBy(v: Verifier, now: nat, steps: seq<Step>, projectId: string, id: string, d: Decision) {
    || (exists seen: PendingApproval, at :: seen.id == id && seen.projectId == projectId
                                            && ByCall(v, now, steps, projectId, id, d, seen, at))
    || (exists reply :: ByReply(v, steps, id, reply, d))
    || (d == Deny && exists tid, cut :: SeenExpired(v, now, steps, id, tid, cut))
  }

  lemma WinDecides(v: Verifier, now: nat, steps: seq<Step>, s: Sys, w: Win)
    requires Traced(v, now, steps, w) && Justified(s, w)
    ensures w.id in s.holds && DecidedBy(v, now, steps, s.holds[w.id].projectId, w.id, w.decision)
  {
  }

  /** Every answered hold, released or rejected, goes back to steps for its own id: a call of the
      decision handler with this decision, of the hold's project, for an approval found pending; a
      reply to its own poll that stands for this decision; or, for a rejection only, a sweep. */
  lemma EndRestsOnSteps(v: Verifier, now: nat, steps: seq<Step>, s: Sys, id: string, d: Decision, why: Evidence)
    requires Run(Initial(v, now), steps) == Some(s) && id in s.holds && s.holds[id].phase.Ended?
    requires s.holds[id].phase.outcome == OutcomeOf(d, why)
    ensures DecidedBy(v, now, steps, s.holds[id].projectId, id, d)
  {
    RunTraced(v, now, steps, s);
    if why == FromChannel {
      var i := WinBehind(v, now, steps, s, id, d);
      assert Traced(v, now, steps, s.wins[i]);
      WinDecides(v, now, steps, s, s.wins[i]);
    } else {
      assert HoldTraced(v, steps, id, s.holds[id]);
    }
  }

  lemma WinBehind(v: Verifier, now: nat, steps: seq<Step>, s: Sys, id: string, d: Decision) returns (i: nat)
    requires Run(Initial(v, now), steps) == Some(s) && id in s.holds && s.holds[id].phase.Ended?
    requires s.holds[id].phase.outcome == OutcomeOf(d, FromChannel)
    ensures i < |s.wins| && s.wins[i].id == id && s.wins[i].decision == d && Justified(s, s.wins[i])
  {
    assert Reachable(s);
    ReachableInv(s);
    assert HoldOk(s.verifier, s.now, s.store, s.wins, id, s.holds[id]);
    i :| 0 <= i < |s.wins| && s.wins[i].id == id && s.wins[i].decision == d;
  }

  /** So a request is released only after an Approve: in a call of the handler for a pending approval
      of its project, or in a reply to its own poll that proves the approval. */
  lemma ReleaseRestsOnApprove(v: Verifier, now: nat, steps: seq<Step>, s: Sys, id: string)
    requires Run(Initial(v, now), steps) == Some(s) && id in s.holds && s.holds[id].phase.Ended?
    requires s.holds[id].phase.outcome.Released?
    ensures || (exists seen: PendingApproval, at :: seen.id == id && seen.projectId == s.holds[id].projectId
                  && ByCall(v, now, steps, s.holds[id].projectId, id, Approve, seen, at))
            || (exists reply, k: nat, tid: nat :: k < |steps| && steps[k] == PollAnswers(id, tid, reply)
                  && ProvesApproval(v, reply))
  {
    EndRestsOnSteps(v, now, steps, s, id, Approve, s.holds[id].phase.outcome.why);
    if reply :| ByReply(v, steps, id, reply, Approve) {
      MapStatusIff(v, reply);
      var k: nat, tid: nat :| k < |steps| && steps[k] == PollAnswers(id, tid, reply);
      assert ProvesApproval(v, reply);
    }
  }

  // ── What a call leads to ──────────────────────────────────────────────

  /** A hold that waits for a decision of its project, in the hands of nobody else. */
  ghost predicate Awaits(s: Sys, id: string, projectId: string) {
    && id in s.holds && s.holds[id].phase.Waiting? && s.holds[id].projectId == projectId
    && id in s.store.pending && s.now < s.store.pending[id].expiresAt && id in s.store.decisions
  }

  /** The first two steps of the handler: called, and past its lookup. */
  lemma CallIsLookedUp(s: Sys, tid: nat, projectId: string, id: string, d: Decision)
    requires tid !in s.tasks && id in s.store.pending && s.now < s.store.pending[id].expiresAt
    ensures Run(s, [Call(tid, projectId, id, d), Lookup(tid)])
         == Some(SetTask(s, tid, if s.store.pending[id].projectId == projectId
                                 then Submitting(Win(id, d, ByHandler(projectId, s.store.pending[id], s.now)))
                                 else Returned(None)))
  {
    var t := SetTask(s, tid, HandlerCall(projectId, id, d));
    assert [Call(tid, projectId, id, d), Lookup(tid)][1..] == [Lookup(tid)] && [Lookup(tid)][1..] == [];
    assert Next(s, Call(tid, projectId, id, d)) == Some(t);
    assert Run(t, [Lookup(tid)]) == Next(t, Lookup(tid));
    var u := Next(t, Lookup(tid)).value;
    assert t.tasks[tid := u.tasks[tid]] == s.tasks[tid := u.tasks[tid]];
  }

  /** Without a pending, unexpired approval of the caller's project the call submits nothing. */
  lemma CallRefused(s: Sys, tid: nat, projectId: string, id: string, d: Decision)
    requires tid !in s.tasks
    requires id in s.store.pending && s.now < s.store.pending[id].expiresAt ==>
               s.store.pending[id].projectId != projectId
    ensures var t := Run(s, [Call(tid, projectId, id, d), Lookup(tid)]);
            && t.Some? && t.value.store == s.store && t.value.holds == s.holds && t.value.wins == s.wins
            && tid in t.value.tasks && t.value.tasks[tid] in {Returned(None), Evicting(id)}
  {
    var t := SetTask(s, tid, HandlerCall(projectId, id, d));
    assert [Call(tid, projectId, id, d), Lookup(tid)][1..] == [Lookup(tid)] && [Lookup(tid)][1..] == [];
    assert Next(s, Call(tid, projectId, id, d)) == Some(t);
    assert Run(t, [Lookup(tid)]) == Next(t, Lookup(tid));
  }

  lemma RunOnce(s: Sys, step: Step, t: Sys, rest: seq<Step>)
    requires Next(s, step) == Some(t)
    ensures Run(s, [step] + rest) == Run(t, rest)
  {
    assert ([step] + rest)[1..] == rest;
  }

  /** The state after a submission took the sender of channel `ch`. */
  function AfterTake(s: Sys, tid: nat, w: Win, ch: nat): Sys {
    SetTask(s.(store := TakeSender(s.store, w.id), wins := s.wins + [w]), tid, Delivering(w, ch))
  }

  lemma TakeLeads(s: Sys, tid: nat, w: Win, rest: seq<Step>)
    requires tid in s.tasks && s.tasks[tid] == Submitting(w) && w.id in s.store.decisions
    ensures Run(s, [TakeStep(tid)] + rest) == Run(AfterTake(s, tid, w, s.store.decisions[w.id]), rest)
  {
    RunOnce(s, TakeStep(tid), AfterTake(s, tid, w, s.store.decisions[w.id]), rest);
  }

  /** Sending, and then the hold's observation of what was sent. */
  lemma SendIsObserved(s: Sys, tid: nat, w: Win, ch: nat)
    requires tid in s.tasks && s.tasks[tid] == Delivering(w, ch) && ch < |s.store.channels|
    requires w.id in s.holds && s.holds[w.id].phase.Waiting? && s.holds[w.id].ch == ch
    ensures var t := Run(s, [DeliverStep(tid)] + [Observe(w.id)]);
            && t.Some? && w.id in t.value.holds
            && t.value.holds[w.id].phase == Ended(OutcomeOf(w.decision, FromChannel), PendingLeft)
  {
    var t := SetTask(s.(store := Send(s.store, ch, w.decision)), tid, Forgetting(w));
    RunOnce(s, DeliverStep(tid), t, [Observe(w.id)]);
    assert t.store.channels[ch].value == Some(w.decision);
    assert [Observe(w.id)][1..] == [];
    assert Run(t, [Observe(w.id)]) == Next(t, Observe(w.id));
  }

  /** What the handler is called with is what the waiting request gets: a call for its pending approval,
      in the name of its project, is looked up, takes the sender, sends its decision, and the request
      observes exactly that decision. */
  lemma CallDecides(s: Sys, tid: nat, projectId: string, id: string, d: Decision)
    requires Reachable(s) && tid !in s.tasks && Awaits(s, id, projectId)
    ensures var t := Run(s, [Call(tid, projectId, id, d), Lookup(tid)]
                            + ([TakeStep(tid)] + ([DeliverStep(tid)] + [Observe(id)])));
            && t.Some? && id in t.value.holds && t.value.holds[id].phase.Ended?
            && t.value.holds[id].phase.outcome
               == match d case Approve => Released(FromChannel) case Deny => Rejected(FromChannel)
  {
    ReachableInv(s);
    assert HoldOk(s.verifier, s.now, s.store, s.wins, id, s.holds[id]);
    CallIsLookedUp(s, tid, projectId, id, d);
    var w, ch := Win(id, d, ByHandler(projectId, s.store.pending[id], s.now)), s.holds[id].ch;
    var u := SetTask(s, tid, Submitting(w));
    var rest := [TakeStep(tid)] + ([DeliverStep(tid)] + [Observe(id)]);
    RunInTwo(s, [Call(tid, projectId, id, d), Lookup(tid)], u, rest);
    TakeLeads(u, tid, w, [DeliverStep(tid)] + [Observe(id)]);
    SendIsObserved(AfterTake(u, tid, w, ch), tid, w, ch);
  }

  lemma {:induction false} RunInTwo(s: Sys, steps: seq<Step>, t: Sys, rest: seq<Step>)
    requires Run(s, steps) == Some(t)
    ensures Run(s, steps + rest) == Run(t, rest)
    decreases |steps|
  {
    if steps == [] {
      assert steps + rest == rest;
    } else {
      assert (steps + rest)[0] == steps[0] && (steps + rest)[1..] == steps[1..] + rest;
      RunInTwo(Next(s, steps[0]).value, steps[1..], t, rest);
    }
  }

  // ── A decided approval is gone ────────────────────────────────────────

  /** The task's win, if it has one: to take, to send, or returned. */
  function WinGot(t: Task): Option<Win> {
    if t.Returned? then t.delivered else WinOf(t)
  }

  /** A hold that can be won has been announced, and once its winner has returned it is pending no more. */
  predicate Settled(s: Sys, t: Task) {
    WinGot(t).Some? ==>
      var id := WinGot(t).value.id;
      && id in s.holds && s.holds[id].phase != Prepared
      && (t.Returned? ==> id !in s.store.pending)
  }

  predicate AllSettled(s: Sys) {
    forall tid | tid in s.tasks :: Settled(s, s.tasks[tid])
  }

  lemma SettledStays(s: Sys, t: Sys, task: Task)
    requires Settled(s, task) && Grows(s, t)
    ensures Settled(t, task)
  {
  }

  lemma PendingIsAnnounced(s: Sys, id: string)
    requires Inv(s) && id in s.store.pending
    ensures id in s.holds && s.holds[id].phase != Prepared
  {
    assert HoldOk(s.verifier, s.now, s.store, s.wins, id, s.holds[id]);
  }

  lemma ForgetGives(s: Sys, tid: nat)
    requires SubmitNext(s, ForgetStep(tid)).Some?
    ensures var t := SubmitNext(s, ForgetStep(tid)).value;
            && tid in s.tasks && s.tasks[tid].Forgetting? && t.tasks[tid] == Returned(Some(s.tasks[tid].win))
            && s.tasks[tid].win.id !in t.store.pending
  {
  }

  lemma OtherReturnsEmpty(s: Sys, step: Step)
    requires SubmitNext(s, step).Some? && !step.ForgetStep? && !step.Call?
    ensures step.tid in SubmitNext(s, step).value.tasks
    ensures SubmitNext(s, step).value.tasks[step.tid].Returned? ==>
              SubmitNext(s, step).value.tasks[step.tid].delivered.None?
  {
  }

  lemma SubmitSettled(s: Sys, step: Step)
    requires Inv(s) && AllSettled(s) && SubmitNext(s, step).Some? && Grows(s, SubmitNext(s, step).value)
    ensures IsSubmit(step) && step.tid in SubmitNext(s, step).value.tasks
    ensures Settled(SubmitNext(s, step).value, SubmitNext(s, step).value.tasks[step.tid])
  {
    SubmitLeaves(s, step);
    var t := SubmitNext(s, step).value;
    if step.Lookup? {
      LookupGives(s, step.tid);
      OtherReturnsEmpty(s, step);
      if LivePending(s.store, s.tasks[step.tid].id, s.now).Some? {
        PendingIsAnnounced(s, s.tasks[step.tid].id);
      }
    } else if !step.Call? {
      SubmitKeepsWin(s, step);
      assert Settled(s, s.tasks[step.tid]);
      if step.ForgetStep? {
        ForgetGives(s, step.tid);
      } else {
        OtherReturnsEmpty(s, step);
      }
    }
  }

  lemma SweepsOn(s: Sys, step: Step)
    requires SweepNext(s, step).Some?
    ensures IsSweep(step) && step.tid in SweepNext(s, step).value.tasks
    ensures SweepNext(s, step).value.tasks[step.tid].Sweeping?
  {
  }

  /** All tasks but one are as they were. */
  lemma OneTaskSettled(s: Sys, t: Sys, tid: nat)
    requires AllSettled(s) && Grows(s, t)
    requires forall o | o in t.tasks && o != tid :: o in s.tasks && t.tasks[o] == s.tasks[o]
    requires tid in t.tasks ==> Settled(t, t.tasks[tid])
    ensures AllSettled(t)
  {
    forall o | o in t.tasks ensures Settled(t, t.tasks[o]) {
      if o != tid {
        SettledStays(s, t, s.tasks[o]);
      }
    }
  }

  lemma SameTasksSettled(s: Sys, t: Sys)
    requires AllSettled(s) && Grows(s, t) && t.tasks == s.tasks
    ensures AllSettled(t)
  {
    forall o | o in t.tasks ensures Settled(t, t.tasks[o]) {
      SettledStays(s, t, s.tasks[o]);
    }
  }

  lemma AnswerLeaves(s: Sys, step: Step)
    requires HoldNext(s, step).Some? && step.PollAnswers?
    ensures var t := HoldNext(s, step).value;
            && step.tid in t.tasks && Settled(t, t.tasks[step.tid])
            && forall o | o in t.tasks && o != step.tid :: o in s.tasks && t.tasks[o] == s.tasks[o]
  {
  }

  lemma StepSettled(s: Sys, step: Step, t: Sys)
    requires Inv(s) && AllSettled(s) && Next(s, step) == Some(t)
    ensures AllSettled(t)
  {
    NextGrows(s, step);
    NextCases(s, step, t);
    if HoldNext(s, step) == Some(t) {
      if step.PollAnswers? {
        AnswerLeaves(s, step);
        OneTaskSettled(s, t, step.tid);
      } else {
        HoldLeaves(s, step);
        SameTasksSettled(s, t);
      }
    } else if SubmitNext(s, step) == Some(t) {
      SubmitLeaves(s, step);
      SubmitSettled(s, step);
      OneTaskSettled(s, t, step.tid);
    } else if SweepNext(s, step) == Some(t) {
      SweepLeaves(s, step);
      SweepsOn(s, step);
      OneTaskSettled(s, t, step.tid);
    } else {
      SameTasksSettled(s, t);
    }
  }

  lemma {:induction false} RunSettled(s: Sys, steps: seq<Step>)
    requires Inv(s) && AllSettled(s) && Run(s, steps).Some?
    ensures AllSettled(Run(s, steps).value)
    decreases |steps|
  {
    if steps != [] {
      var t := Next(s, steps[0]).value;
      StepSettled(s, steps[0], t);
      NextKeepsInv(s, steps[0]);
      RunSettled(t, steps[1..]);
    }
  }

  /** Once a submission has returned true its approval is in neither map, then and in every later state. */
  lemma SubmittedIsGone(s: Sys, tid: nat, w: Win, steps: seq<Step>)
    requires Reachable(s) && tid in s.tasks && s.tasks[tid] == Returned(Some(w)) && Run(s, steps).Some?
    ensures w.id !in Run(s, steps).value.store.pending && w.id !in Run(s, steps).value.store.decisions
  {
    var verifier, now: nat, before :| Run(Initial(verifier, now), before) == Some(s);
    InitialInv(verifier, now);
    RunSettled(Initial(verifier, now), before);
    RunKeepsInv(Initial(verifier, now), before);
    RunKeepsInv(s, steps);
    assert Settled(s, s.tasks[tid]);
    TakenIsWon(s, tid, w);
  }

  lemma TakenIsWon(s: Sys, tid: nat, w: Win)
    requires Inv(s) && tid in s.tasks && s.tasks[tid] == Returned(Some(w))
    ensures w.id in s.holds ==> w.id !in s.store.decisions
  {
    assert TaskOk(s, s.tasks[tid]) && Claims(s.tasks[tid], w.id);
    if w.id in s.holds {
      assert HoldOk(s.verifier, s.now, s.store, s.wins, w.id, s.holds[w.id]);
    }
  }
}
