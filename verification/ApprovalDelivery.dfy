/** Every decision that wins is delivered: the other half of the hold protocol's central
    property, over the same steps (approval.rs). */
module ApprovalDelivery {
  import opened Wrappers
  import opened ApprovalStatus
  import opened Approval
  import opened ApprovalProtocol

  /** The channel of the winner's hold carries the winner's decision. */
  predicate Heard(s: Sys, w: Win) {
    ChannelOf(s, w.id).Some? && ChannelOf(s, w.id).value.value == Some(w.decision)
  }

  /** The task has taken the sender for `w` and is about to send. */
  predicate InFlight(tid: nat, task: Task, w: Win) {
    match task
    case Delivering(x, _) => x == w && !w.source.BySweep?
    case Sweeping(cut, ids, i, Deliver(_)) => i < |ids| && w == Win(ids[i], Deny, BySweep(tid, cut))
    case _ => false
  }

  ghost predicate Sending(s: Sys, w: Win) {
    exists tid :: tid in s.tasks && InFlight(tid, s.tasks[tid], w)
  }

  ghost predicate Answered(s: Sys, w: Win) {
    Heard(s, w) || Sending(s, w)
  }

  /** The winner a submission speaks for is on record, and is no sweep's. */
  ghost predicate OnRecord(wins: seq<Win>, task: Task) {
    match task
    case Submitting(w) => !w.source.BySweep?
    case Delivering(w, _) => !w.source.BySweep? && w in wins
    case Forgetting(w) => !w.source.BySweep? && w in wins
    case Returned(Some(w)) => !w.source.BySweep? && w in wins
    case _ => true
  }

  ghost predicate Delivery(s: Sys) {
    && (forall i | 0 <= i < |s.wins| :: Answered(s, s.wins[i]))
    && (forall tid | tid in s.tasks :: OnRecord(s.wins, s.tasks[tid]))
  }

  // ── Every step keeps it ───────────────────────────────────────────────

  /** A step that moves at most the task `tid`. */
  predicate MovesOnly(s: Sys, t: Sys, tid: nat) {
    && (forall o | o in s.tasks && o != tid :: o in t.tasks && t.tasks[o] == s.tasks[o])
    && (forall o | o in t.tasks && o != tid :: o in s.tasks)
    && s.wins <= t.wins
  }

  lemma AnsweredStays(s: Sys, t: Sys, tid: nat, w: Win)
    requires Inv(s) && Inv(t) && Grows(s, t) && MovesOnly(s, t, tid) && Answered(s, w)
    requires tid in s.tasks && InFlight(tid, s.tasks[tid], w) ==> Heard(t, w)
    ensures Answered(t, w)
  {
    if Heard(s, w) {
      DecisionStays(s, t, w.id, w.decision);
    } else {
      var o :| o in s.tasks && InFlight(o, s.tasks[o], w);
      if o != tid {
        assert o in t.tasks && InFlight(o, t.tasks[o], w);
      }
    }
  }

  lemma TaskMoveKeepsDelivery(s: Sys, t: Sys, tid: nat)
    requires Inv(s) && Inv(t) && Grows(s, t) && MovesOnly(s, t, tid) && Delivery(s)
    requires forall w | tid in s.tasks && InFlight(tid, s.tasks[tid], w) :: Heard(t, w)
    requires forall i | |s.wins| <= i < |t.wins| :: Answered(t, t.wins[i])
    requires tid in t.tasks ==> OnRecord(t.wins, t.tasks[tid])
    ensures Delivery(t)
  {
    forall i | 0 <= i < |t.wins| ensures Answered(t, t.wins[i]) {
      if i < |s.wins| {
        assert t.wins[i] == s.wins[i];
        AnsweredStays(s, t, tid, s.wins[i]);
      }
    }
    forall o | o in t.tasks ensures OnRecord(t.wins, t.tasks[o]) {
      if o != tid {
        assert OnRecord(s.wins, s.tasks[o]);
      }
    }
  }

  lemma NoTaskMoves(s: Sys, t: Sys)
    requires Inv(s) && Inv(t) && Grows(s, t) && Delivery(s) && t.tasks == s.tasks && t.wins == s.wins
    ensures Delivery(t)
  {
    forall i | 0 <= i < |t.wins| ensures Answered(t, t.wins[i]) {
      if Heard(s, s.wins[i]) {
        DecisionStays(s, t, s.wins[i].id, s.wins[i].decision);
      }
    }
  }

  lemma HoldStepTasks(s: Sys, step: Step)
    requires HoldNext(s, step).Some?
    ensures var t := HoldNext(s, step).value;
            && t.wins == s.wins
            && (!step.PollAnswers? ==> t.tasks == s.tasks)
            && (step.PollAnswers? ==>
                  step.tid !in s.tasks && MovesOnly(s, t, step.tid) && step.tid in t.tasks
                  && t.tasks[step.tid].Submitting? && t.tasks[step.tid].win.source.ByPoll?)
  {
  }

  lemma HoldStepKeepsDelivery(s: Sys, step: Step)
    requires Inv(s) && Delivery(s) && HoldNext(s, step).Some? && Inv(HoldNext(s, step).value)
    ensures Delivery(HoldNext(s, step).value)
  {
    var t := HoldNext(s, step).value;
    HoldStepGrows(s, step);
    HoldStepTasks(s, step);
    if step.PollAnswers? {
      TaskMoveKeepsDelivery(s, t, step.tid);
    } else {
      NoTaskMoves(s, t);
    }
  }

  /** Sending on a carried sender makes its winner heard. */
  lemma SendIsHeard(s: Sys, tid: nat, w: Win, ch: nat, task: Task)
    requires Inv(s) && tid in s.tasks && Carries(s.tasks[tid], w.id, ch, w.decision)
    ensures Heard(SetTask(s.(store := Send(s.store, ch, w.decision)), tid, task), w)
  {
    assert TaskOk(s, s.tasks[tid]);
  }

  lemma TakeKeepsDelivery(s: Sys, tid: nat)
    requires Inv(s) && Delivery(s) && SubmitNext(s, TakeStep(tid)).Some? && Inv(SubmitNext(s, TakeStep(tid)).value)
    ensures Delivery(SubmitNext(s, TakeStep(tid)).value)
  {
    var t, w := SubmitNext(s, TakeStep(tid)).value, s.tasks[tid].win;
    SubmitStepGrows(s, TakeStep(tid));
    assert OnRecord(s.wins, s.tasks[tid]);
    if w.id in s.store.decisions {
      assert InFlight(tid, t.tasks[tid], w);
      assert t.wins[|s.wins|] == w;
    }
    TaskMoveKeepsDelivery(s, t, tid);
  }

  lemma DeliverKeepsDelivery(s: Sys, tid: nat)
    requires Inv(s) && Delivery(s)
    requires SubmitNext(s, DeliverStep(tid)).Some? && Inv(SubmitNext(s, DeliverStep(tid)).value)
    ensures Delivery(SubmitNext(s, DeliverStep(tid)).value)
  {
    var t, task := SubmitNext(s, DeliverStep(tid)).value, s.tasks[tid];
    SubmitStepGrows(s, DeliverStep(tid));
    assert OnRecord(s.wins, task);
    SendIsHeard(s, tid, task.win, task.ch, t.tasks[tid]);
    TaskMoveKeepsDelivery(s, t, tid);
  }

  lemma QuietSubmitTasks(s: Sys, step: Step)
    requires SubmitNext(s, step).Some? && !step.TakeStep? && !step.DeliverStep?
    requires step.tid in s.tasks ==> OnRecord(s.wins, s.tasks[step.tid])
    ensures var t := SubmitNext(s, step).value;
            && MovesOnly(s, t, step.tid) && t.wins == s.wins
            && step.tid in t.tasks && OnRecord(t.wins, t.tasks[step.tid])
            && (step.tid in s.tasks ==> !s.tasks[step.tid].Delivering? && !s.tasks[step.tid].Sweeping?)
  {
  }

  lemma SubmitStepKeepsDelivery(s: Sys, step: Step)
    requires Inv(s) && Delivery(s) && SubmitNext(s, step).Some? && Inv(SubmitNext(s, step).value)
    ensures Delivery(SubmitNext(s, step).value)
  {
    var t, tid := SubmitNext(s, step).value, step.tid;
    if step.TakeStep? {
      TakeKeepsDelivery(s, tid);
    } else if step.DeliverStep? {
      DeliverKeepsDelivery(s, tid);
    } else {
      SubmitStepGrows(s, step);
      QuietSubmitTasks(s, step);
      TaskMoveKeepsDelivery(s, t, tid);
    }
  }

  lemma SweepTakesKeepsDelivery(s: Sys, tid: nat)
    requires Inv(s) && Delivery(s) && SweepNext(s, SweepTakes(tid)).Some? && Inv(SweepNext(s, SweepTakes(tid)).value)
    ensures Delivery(SweepNext(s, SweepTakes(tid)).value)
  {
    var t := SweepNext(s, SweepTakes(tid)).value;
    SweepStepGrows(s, SweepTakes(tid));
    if s.tasks[tid].ids[s.tasks[tid].i] in s.store.decisions {
      assert InFlight(tid, t.tasks[tid], t.wins[|s.wins|]);
    }
    TaskMoveKeepsDelivery(s, t, tid);
  }

  lemma SweepDeliversKeepsDelivery(s: Sys, tid: nat)
    requires Inv(s) && Delivery(s)
    requires SweepNext(s, SweepDelivers(tid)).Some? && Inv(SweepNext(s, SweepDelivers(tid)).value)
    ensures Delivery(SweepNext(s, SweepDelivers(tid)).value)
  {
    var t, task := SweepNext(s, SweepDelivers(tid)).value, s.tasks[tid];
    SweepStepGrows(s, SweepDelivers(tid));
    SendIsHeard(s, tid, Win(task.ids[task.i], Deny, BySweep(tid, task.cut)), task.stage.ch, t.tasks[tid]);
    TaskMoveKeepsDelivery(s, t, tid);
  }

  lemma QuietSweepTasks(s: Sys, step: Step)
    requires SweepNext(s, step).Some? && !step.SweepTakes? && !step.SweepDelivers?
    ensures var t := SweepNext(s, step).value;
            && MovesOnly(s, t, step.tid) && t.wins == s.wins
            && step.tid in t.tasks && t.tasks[step.tid].Sweeping?
            && (step.tid in s.tasks ==> s.tasks[step.tid].Sweeping? && !s.tasks[step.tid].stage.Deliver?)
  {
  }

  lemma SweepStepKeepsDelivery(s: Sys, step: Step)
    requires Inv(s) && Delivery(s) && SweepNext(s, step).Some? && Inv(SweepNext(s, step).value)
    ensures Delivery(SweepNext(s, step).value)
  {
    if step.SweepTakes? {
      SweepTakesKeepsDelivery(s, step.tid);
    } else if step.SweepDelivers? {
      SweepDeliversKeepsDelivery(s, step.tid);
    } else {
      SweepStepGrows(s, step);
      QuietSweepTasks(s, step);
      TaskMoveKeepsDelivery(s, SweepNext(s, step).value, step.tid);
    }
  }

  lemma NextKeepsDelivery(s: Sys, step: Step)
    requires Inv(s) && Delivery(s) && Next(s, step).Some?
    ensures Delivery(Next(s, step).value)
  {
    NextKeepsInv(s, step);
    if step.Tick? {
      NextGrows(s, step);
      NoTaskMoves(s, Next(s, step).value);
    } else if HoldNext(s, step).Some? {
      HoldStepKeepsDelivery(s, step);
    } else if SubmitNext(s, step).Some? {
      SubmitStepKeepsDelivery(s, step);
    } else {
      SweepStepKeepsDelivery(s, step);
    }
  }

  lemma {:induction false} RunKeepsDelivery(s: Sys, steps: seq<Step>)
    requires Inv(s) && Delivery(s) && Run(s, steps).Some?
    ensures Delivery(Run(s, steps).value)
    decreases |steps|
  {
    if steps != [] {
      NextKeepsInv(s, steps[0]);
      NextKeepsDelivery(s, steps[0]);
      RunKeepsDelivery(Next(s, steps[0]).value, steps[1..]);
    }
  }

  lemma ReachableDelivery(s: Sys)
    requires Reachable(s)
    ensures Inv(s) && Delivery(s)
  {
    var verifier, now: nat, steps :| Run(Initial(verifier, now), steps) == Some(s);
    InitialInv(verifier, now);
    RunKeepsInv(Initial(verifier, now), steps);
    RunKeepsDelivery(Initial(verifier, now), steps);
  }

  // ── Results ───────────────────────────────────────────────────────────

  /** In every interleaving the channel of a hold shows a decision exactly when a submission or a
      sweep won with that decision and is no longer about to send it. */
  lemma ChannelShowsWinnerIff(s: Sys, id: string, d: Decision)
    requires Reachable(s) && id in s.holds
    ensures ChannelOf(s, id).Some?
    ensures ChannelOf(s, id).value.value == Some(d)
       <==> exists i :: 0 <= i < |s.wins| && s.wins[i].id == id && s.wins[i].decision == d && !Sending(s, s.wins[i])
  {
    ReachableDelivery(s);
    assert HoldOk(s.verifier, s.now, s.store, s.wins, id, s.holds[id]);
    if ChannelOf(s, id).value.value == Some(d) {
      var i :| 0 <= i < |s.wins| && s.wins[i].id == id && s.wins[i].decision == d;
      if Sending(s, s.wins[i]) {
        SendingIsSilent(s, s.wins[i]);
      }
    }
    if i :| 0 <= i < |s.wins| && s.wins[i].id == id && s.wins[i].decision == d && !Sending(s, s.wins[i]) {
      assert Answered(s, s.wins[i]);
    }
  }

  lemma SendingIsSilent(s: Sys, w: Win)
    requires Inv(s) && Sending(s, w)
    ensures ChannelOf(s, w.id).Some? && ChannelOf(s, w.id).value.value == None
  {
    var tid :| tid in s.tasks && InFlight(tid, s.tasks[tid], w);
    var ch := if s.tasks[tid].Delivering? then s.tasks[tid].ch else s.tasks[tid].stage.ch;
    assert Carries(s.tasks[tid], w.id, ch, w.decision) && TaskOk(s, s.tasks[tid]);
  }

  /** In every interleaving a submission that returned true has its decision on the channel of
      its hold, and so has one that has sent and not yet returned. */
  lemma DeliveredIsHeard(s: Sys, tid: nat, w: Win)
    requires Reachable(s) && tid in s.tasks && s.tasks[tid] in {Returned(Some(w)), Forgetting(w)}
    ensures Heard(s, w)
  {
    ReachableDelivery(s);
    assert OnRecord(s.wins, s.tasks[tid]) && Claims(s.tasks[tid], w.id);
    var i :| 0 <= i < |s.wins| && s.wins[i] == w;
    assert Answered(s, w);
    if !Heard(s, w) {
      var o :| o in s.tasks && InFlight(o, s.tasks[o], w);
      assert Claims(s.tasks[o], w.id);
    }
  }

  /** A denial by a sweep is on the channel of its hold, unless that very sweep is just about to
      send it. */
  lemma SweptIsHeard(s: Sys, i: nat)
    requires Reachable(s) && i < |s.wins| && s.wins[i].source.BySweep?
    requires var tid := s.wins[i].source.tid;
             tid in s.tasks && s.tasks[tid].Sweeping? && s.tasks[tid].stage.Deliver? ==>
               s.tasks[tid].i < |s.tasks[tid].ids| && s.tasks[tid].ids[s.tasks[tid].i] != s.wins[i].id
    ensures Heard(s, s.wins[i]) && s.wins[i].decision == Deny
  {
    ReachableDelivery(s);
    assert Justified(s, s.wins[i]);
    assert Answered(s, s.wins[i]);
  }

  /** What is heard once is what a hold that still waits observes, in every later state: it can
      take that step, and ends with exactly that decision. */
  lemma HeardIsObserved(s: Sys, w: Win, steps: seq<Step>)
    requires Reachable(s) && Heard(s, w) && Run(s, steps).Some?
    requires var t := Run(s, steps).value; w.id in t.holds && t.holds[w.id].phase.Waiting?
    ensures var t := Run(s, steps).value;
            Next(t, Observe(w.id)) == Some(SetPhase(t, w.id, Ended(OutcomeOf(w.decision, FromChannel), PendingLeft)))
  {
    DecisionsAreFinal(s, steps, w.id, w.decision);
  }

  /** A hold whose submission returned true observes that decision, unless it has ended before. */
  lemma WinnerIsObserved(s: Sys, tid: nat, w: Win, steps: seq<Step>)
    requires Reachable(s) && tid in s.tasks && s.tasks[tid] == Returned(Some(w)) && Run(s, steps).Some?
    requires var t := Run(s, steps).value; w.id in t.holds && t.holds[w.id].phase.Waiting?
    ensures var t := Run(s, steps).value;
            Next(t, Observe(w.id)) == Some(SetPhase(t, w.id, Ended(OutcomeOf(w.decision, FromChannel), PendingLeft)))
  {
    DeliveredIsHeard(s, tid, w);
    HeardIsObserved(s, w, steps);
  }

  // ── Whole operations are their steps without interference ─────────────

  lemma RunThree(s: Sys, a: Step, b: Step, c: Step, t: Sys, u: Sys)
    requires Next(s, a) == Some(t) && Next(t, b) == Some(u)
    ensures Run(s, [a, b, c]) == Next(u, c)
  {
    assert [a, b, c][1..] == [b, c] && [b, c][1..] == [c] && [c][1..] == [];
    assert Run(u, [c]) == Next(u, c);
    assert Run(t, [b, c]) == Run(u, [c]);
  }

  /** A submission run alone does to the store what `submit_decision` does, and returns true. */
  lemma SubmitAlone(s: Sys, tid: nat)
    requires tid in s.tasks && s.tasks[tid].Submitting? && s.tasks[tid].win.id in s.store.decisions
    ensures var w := s.tasks[tid].win;
            var t := Run(s, [TakeStep(tid), DeliverStep(tid), ForgetStep(tid)]);
            && t.Some? && t.value.store == Submitted(s.store, w.id, w.decision)
            && t.value.tasks == s.tasks[tid := Returned(Some(w))] && t.value.wins == s.wins + [w]
  {
    var w, ch := s.tasks[tid].win, s.store.decisions[s.tasks[tid].win.id];
    var t := SetTask(s.(store := TakeSender(s.store, w.id), wins := s.wins + [w]), tid, Delivering(w, ch));
    var u := SetTask(t.(store := Send(t.store, ch, w.decision)), tid, Forgetting(w));
    assert Next(s, TakeStep(tid)) == Some(t);
    assert Next(t, DeliverStep(tid)) == Some(u);
    RunThree(s, TakeStep(tid), DeliverStep(tid), ForgetStep(tid), t, u);
    assert Next(u, ForgetStep(tid)) == Some(SetTask(u.(store := DropPending(u.store, w.id)), tid, Returned(Some(w))));
  }

  /** Without a sender it is one step, which returns false and leaves the store alone. */
  lemma SubmitInVain(s: Sys, tid: nat)
    requires tid in s.tasks && s.tasks[tid].Submitting? && s.tasks[tid].win.id !in s.store.decisions
    ensures Next(s, TakeStep(tid)) == Some(SetTask(s, tid, Returned(None)))
    ensures Submitted(s.store, s.tasks[tid].win.id, s.tasks[tid].win.decision) == s.store
  {
  }

  /** A cleanup run alone does to the store what `remove` does. */
  lemma RemoveAlone(s: Sys, id: string)
    requires id in s.holds && s.holds[id].phase.Ended? && s.holds[id].phase.cleanup == PendingLeft
    ensures var t := Run(s, CleanupOf(id, PendingLeft));
            t.Some? && t.value.store == Removed(s.store, id)
  {
    var t := HoldNext(s, CleanPending(id)).value;
    assert Next(s, CleanPending(id)) == Some(t);
    CleanSenderRuns(t, id);
    assert [CleanPending(id), CleanSender(id)][1..] == [CleanSender(id)];
  }

  /** One id of a sweep run alone is denied as the store's sweep denies it. */
  lemma DenyAlone(s: Sys, tid: nat)
    requires SweepAt(s, tid) && s.tasks[tid].stage == Take
    ensures var id := s.tasks[tid].ids[s.tasks[tid].i];
            var steps := if id in s.store.decisions then [SweepTakes(tid), SweepDelivers(tid), SweepForgets(tid)]
                         else [SweepTakes(tid), SweepForgets(tid)];
            Run(s, steps).Some? && Run(s, steps).value.store == DeniedOne(s.store, id)
  {
    var task := s.tasks[tid];
    var id := task.ids[task.i];
    if id in s.store.decisions {
      DenyWaiting(s, tid, task, id);
    } else {
      var t := SetTask(s, tid, task.(stage := Forget));
      assert Next(s, SweepTakes(tid)) == Some(t);
      ForgetRuns(t, tid);
      assert [SweepTakes(tid), SweepForgets(tid)][1..] == [SweepForgets(tid)];
    }
  }

  lemma ForgetRuns(s: Sys, tid: nat)
    requires SweepAt(s, tid) && s.tasks[tid].stage == Forget
    ensures Run(s, [SweepForgets(tid)]).Some?
    ensures Run(s, [SweepForgets(tid)]).value.store == DropPending(s.store, s.tasks[tid].ids[s.tasks[tid].i])
  {
    assert [SweepForgets(tid)][1..] == [];
  }

  lemma DenyWaiting(s: Sys, tid: nat, task: Task, id: string)
    requires SweepAt(s, tid) && task == s.tasks[tid] && task.stage == Take && id == task.ids[task.i]
    requires id in s.store.decisions
    ensures var t := Run(s, [SweepTakes(tid), SweepDelivers(tid), SweepForgets(tid)]);
            t.Some? && t.value.store == DeniedOne(s.store, id)
  {
    var ch := s.store.decisions[id];
    var win := Win(id, Deny, BySweep(tid, task.cut));
    var t := SetTask(s.(store := TakeSender(s.store, id), wins := s.wins + [win]), tid, task.(stage := Deliver(ch)));
    var u := SetTask(t.(store := Send(t.store, ch, Deny)), tid, task.(stage := Forget));
    assert Next(s, SweepTakes(tid)) == Some(t);
    assert Next(t, SweepDelivers(tid)) == Some(u);
    RunThree(s, SweepTakes(tid), SweepDelivers(tid), SweepForgets(tid), t, u);
    ForgetRuns(u, tid);
    assert [SweepForgets(tid)][1..] == [];
  }
}
