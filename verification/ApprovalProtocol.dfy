/** The approval hold as a concurrent protocol: held requests (forward.rs), the decision
    handler (gateway.rs), the status poll (approval_poll.rs), the drop guard and the sweeper
    (approval.rs) share the store, and every single map access or channel send is one step. */
module ApprovalProtocol {
  import opened Wrappers
  import opened ApprovalStatus
  import opened Approval

  // ── State ─────────────────────────────────────────────────────────────

  /** Where a decision submission comes from. */
  datatype Source =
    | ByHandler(projectId: string, seen: PendingApproval, seenAt: nat)
    | ByPoll(reply: StatusReply)
    | BySweep(tid: nat, cut: nat)

  /** Taking the sender of `id` out of the map, in order to send `decision`. */
  datatype Win = Win(id: string, decision: Decision, source: Source)

  datatype SweepStage = Collect | Take | Deliver(ch: nat) | Forget

  /** An operation in progress, with its own local variables. */
  datatype Task =
    | HandlerCall(projectId: string, id: string, decision: Decision)
    | Evicting(id: string)
    | Submitting(win: Win)
    | Delivering(win: Win, ch: nat)
    | Forgetting(win: Win)
    | Returned(delivered: Option<Win>)
    | Sweeping(cut: nat, ids: seq<string>, i: nat, stage: SweepStage)

  datatype Evidence = FromChannel | FromPoll(reply: StatusReply)

  datatype Outcome =
    | Released(why: Evidence)
    | Rejected(why: Evidence)
    | TimedOut(since: nat)
    | StoreFailed
    | Cancelled

  /** How much of the final `remove` has run. */
  datatype Cleanup = PendingLeft | SenderLeft | Clean

  datatype Phase =
    | Prepared
    | Notifying
    | Waiting(since: nat)
    | Polled(since: nat, tid: nat, decision: Decision, reply: StatusReply)
    | Ended(outcome: Outcome, cleanup: Cleanup)

  datatype Hold = Hold(projectId: string, ch: nat, createdAt: nat, phase: Phase) {
    function ExpiresAt(): nat { createdAt + APPROVAL_TIMEOUT_SECS }
  }

  datatype Sys = Sys(
    verifier: Verifier, now: nat, store: Shared, holds: map<string, Hold>, tasks: map<nat, Task>, wins: seq<Win>)

  function Initial(verifier: Verifier, now: nat): Sys {
    Sys(verifier, now, Shared(map[], map[], []), map[], map[], [])
  }

  // ── Steps ─────────────────────────────────────────────────────────────

  datatype Step =
    | Tick
    // A held request.
    | Begin(id: string, projectId: string)
    | StorePending(id: string, organizationId: string)
    | FailToStore(id: string)
    | StartWaiting(id: string)
    | Observe(id: string)
    | ObserveClosed(id: string)
    | Timeout(id: string)
    | PollAnswers(id: string, tid: nat, reply: StatusReply)
    | PollReturns(id: string)
    | Cancel(id: string)
    | CleanPending(id: string)
    | CleanSender(id: string)
    // The decision handler and submissions.
    | Call(tid: nat, projectId: string, id: string, decision: Decision)
    | Lookup(tid: nat)
    | Evict(tid: nat)
    | TakeStep(tid: nat)
    | DeliverStep(tid: nat)
    | ForgetStep(tid: nat)
    // The sweeper.
    | StartSweep(tid: nat)
    | SweepSees(tid: nat, id: string)
    | SweepGoes(tid: nat)
    | SweepTakes(tid: nat)
    | SweepDelivers(tid: nat)
    | SweepForgets(tid: nat)

  function SetPhase(s: Sys, id: string, phase: Phase): Sys
    requires id in s.holds
  {
    s.(holds := s.holds[id := s.holds[id].(phase := phase)])
  }

  function SetTask(s: Sys, tid: nat, task: Task): Sys {
    s.(tasks := s.tasks[tid := task])
  }

  function OutcomeOf(d: Decision, why: Evidence): Outcome {
    if d == Approve then Released(why) else Rejected(why)
  }

  function HoldNext(s: Sys, step: Step): Option<Sys> {
    match step
    case Begin(id, projectId) =>
      if id in s.holds then None
      else Some(s.(store := PutSender(s.store, id),
                   holds := s.holds[id := Hold(projectId, |s.store.channels|, s.now, Prepared)]))
    case StorePending(id, organizationId) =>
      if id in s.holds && s.holds[id].phase == Prepared then
        var h := s.holds[id];
        var a := PendingApproval(id, organizationId, h.projectId, h.createdAt, h.ExpiresAt());
        Some(SetPhase(s.(store := PutPending(s.store, a)), id, Notifying))
      else None
    case FailToStore(id) =>
      if id in s.holds && s.holds[id].phase == Prepared
      then Some(SetPhase(s, id, Ended(StoreFailed, PendingLeft))) else None
    case StartWaiting(id) =>
      if id in s.holds && s.holds[id].phase == Notifying then Some(SetPhase(s, id, Waiting(s.now))) else None
    case Observe(id) =>
      if id in s.holds && s.holds[id].phase.Waiting? && s.holds[id].ch < |s.store.channels| then
        (match s.store.channels[s.holds[id].ch].value
         case Some(d) => Some(SetPhase(s, id, Ended(OutcomeOf(d, FromChannel), PendingLeft)))
         case None => None)
      else None
    case ObserveClosed(id) =>
      if id in s.holds && s.holds[id].phase.Waiting? && s.holds[id].ch < |s.store.channels|
         && s.store.channels[s.holds[id].ch] == Channel(None, false)
      then Some(SetPhase(s, id, Ended(TimedOut(s.holds[id].phase.since), PendingLeft))) else None
    case Timeout(id) =>
      if id in s.holds && s.holds[id].phase.Waiting? && s.now >= s.holds[id].phase.since + APPROVAL_TIMEOUT_SECS
      then Some(SetPhase(s, id, Ended(TimedOut(s.holds[id].phase.since), PendingLeft))) else None
    case PollAnswers(id, tid, reply) =>
      if id in s.holds && s.holds[id].phase.Waiting? && tid !in s.tasks && MapStatus(s.verifier, reply).Some? then
        var d := MapStatus(s.verifier, reply).value;
        Some(SetTask(SetPhase(s, id, Polled(s.holds[id].phase.since, tid, d, reply)),
                     tid, Submitting(Win(id, d, ByPoll(reply)))))
      else None
    case PollReturns(id) =>
      if id in s.holds && s.holds[id].phase.Polled? && s.holds[id].phase.tid in s.tasks
         && s.tasks[s.holds[id].phase.tid].Returned?
      then
        var p := s.holds[id].phase;
        Some(SetPhase(s, id, Ended(OutcomeOf(p.decision, FromPoll(p.reply)), PendingLeft)))
      else None
    case Cancel(id) =>
      if id in s.holds && (s.holds[id].phase.Prepared? || s.holds[id].phase.Notifying? || s.holds[id].phase.Waiting?)
      then Some(SetPhase(s, id, Ended(Cancelled, PendingLeft))) else None
    case CleanPending(id) =>
      if id in s.holds && s.holds[id].phase.Ended? && s.holds[id].phase.cleanup == PendingLeft
      then Some(SetPhase(s.(store := DropPending(s.store, id)), id,
                         s.holds[id].phase.(cleanup := SenderLeft))) else None
    case CleanSender(id) =>
      if id in s.holds && s.holds[id].phase.Ended? && s.holds[id].phase.cleanup == SenderLeft
      then Some(SetPhase(s.(store := DropSender(s.store, id)), id, s.holds[id].phase.(cleanup := Clean))) else None
    case _ => None
  }

  function SubmitNext(s: Sys, step: Step): Option<Sys> {
    match step
    case Call(tid, projectId, id, decision) =>
      if tid in s.tasks then None else Some(SetTask(s, tid, HandlerCall(projectId, id, decision)))
    case Lookup(tid) =>
      if tid in s.tasks && s.tasks[tid].HandlerCall? then
        var t := s.tasks[tid];
        (match LivePending(s.store, t.id, s.now)
         case Some(a) =>
           Some(SetTask(s, tid, if a.projectId == t.projectId
                                then Submitting(Win(t.id, t.decision, ByHandler(t.projectId, a, s.now)))
                                else Returned(None)))
         case None =>
           Some(SetTask(s, tid, if Expired(s.store, t.id, s.now) then Evicting(t.id) else Returned(None))))
      else None
    case Evict(tid) =>
      if tid in s.tasks && s.tasks[tid].Evicting?
      then Some(SetTask(s.(store := DropPending(s.store, s.tasks[tid].id)), tid, Returned(None))) else None
    case TakeStep(tid) =>
      if tid in s.tasks && s.tasks[tid].Submitting? then
        var win := s.tasks[tid].win;
        if win.id in s.store.decisions
        then Some(SetTask(s.(store := TakeSender(s.store, win.id), wins := s.wins + [win]),
                          tid, Delivering(win, s.store.decisions[win.id])))
        else Some(SetTask(s, tid, Returned(None)))
      else None
    case DeliverStep(tid) =>
      if tid in s.tasks && s.tasks[tid].Delivering? then
        var t := s.tasks[tid];
        Some(SetTask(s.(store := Send(s.store, t.ch, t.win.decision)), tid, Forgetting(t.win)))
      else None
    case ForgetStep(tid) =>
      if tid in s.tasks && s.tasks[tid].Forgetting? then
        var win := s.tasks[tid].win;
        Some(SetTask(s.(store := DropPending(s.store, win.id)), tid, Returned(Some(win))))
      else None
    case _ => None
  }

  predicate SweepAt(s: Sys, tid: nat) {
    tid in s.tasks && s.tasks[tid].Sweeping? && s.tasks[tid].i < |s.tasks[tid].ids|
  }

  function SweepNext(s: Sys, step: Step): Option<Sys> {
    match step
    case StartSweep(tid) =>
      if tid in s.tasks then None else Some(SetTask(s, tid, Sweeping(s.now, [], 0, Collect)))
    case SweepSees(tid, id) =>
      if tid in s.tasks && s.tasks[tid].Sweeping? && s.tasks[tid].stage == Collect
         && Expired(s.store, id, s.tasks[tid].cut)
      then Some(SetTask(s, tid, s.tasks[tid].(ids := s.tasks[tid].ids + [id]))) else None
    case SweepGoes(tid) =>
      if tid in s.tasks && s.tasks[tid].Sweeping? && s.tasks[tid].stage == Collect
      then Some(SetTask(s, tid, s.tasks[tid].(stage := Take))) else None
    case SweepTakes(tid) =>
      if SweepAt(s, tid) && s.tasks[tid].stage == Take then
        var t := s.tasks[tid];
        var id := t.ids[t.i];
        if id in s.store.decisions
        then Some(SetTask(s.(store := TakeSender(s.store, id), wins := s.wins + [Win(id, Deny, BySweep(tid, t.cut))]),
                          tid, t.(stage := Deliver(s.store.decisions[id]))))
        else Some(SetTask(s, tid, t.(stage := Forget)))
      else None
    case SweepDelivers(tid) =>
      if SweepAt(s, tid) && s.tasks[tid].stage.Deliver?
      then Some(SetTask(s.(store := Send(s.store, s.tasks[tid].stage.ch, Deny)), tid, s.tasks[tid].(stage := Forget)))
      else None
    case SweepForgets(tid) =>
      if SweepAt(s, tid) && s.tasks[tid].stage == Forget then
        var t := s.tasks[tid];
        Some(SetTask(s.(store := DropPending(s.store, t.ids[t.i])), tid, t.(i := t.i + 1, stage := Take)))
      else None
    case _ => None
  }

  function Next(s: Sys, step: Step): Option<Sys> {
    if step.Tick? then Some(s.(now := s.now + 1))
    else if HoldNext(s, step).Some? then HoldNext(s, step)
    else if SubmitNext(s, step).Some? then SubmitNext(s, step)
    else SweepNext(s, step)
  }

  function Run(s: Sys, steps: seq<Step>): Option<Sys>
    decreases |steps|
  {
    if steps == [] then Some(s)
    else match Next(s, steps[0])
      case Some(t) => Run(t, steps[1..])
      case None => None
  }

  // ── Invariant ─────────────────────────────────────────────────────────

  /** A submission may be made: by a handler that saw this hold's approval pending, unexpired
      and of its own project; by a verified poll reply; or as a denial after expiry. */
  predicate Justified(s: Sys, w: Win) {
    match w.source
    case ByHandler(projectId, seen, seenAt) =>
      && w.id in s.holds && s.holds[w.id].projectId == projectId
      && seen.id == w.id && seen.projectId == projectId && seen.expiresAt == s.holds[w.id].ExpiresAt()
      && seenAt < seen.expiresAt && seenAt <= s.now
    case ByPoll(reply) => w.id in s.holds && MapStatus(s.verifier, reply) == Some(w.decision)
    case BySweep(_, cut) => w.id in s.holds && w.decision == Deny && s.holds[w.id].ExpiresAt() <= cut <= s.now
  }

  /** The task took the sender of `id` out of the map. */
  predicate Claims(t: Task, id: string) {
    match t
    case Delivering(w, _) => w.id == id
    case Forgetting(w) => w.id == id
    case Returned(Some(w)) => w.id == id
    case Sweeping(_, ids, i, Deliver(_)) => i < |ids| && ids[i] == id
    case _ => false
  }

  /** The task still holds the sender of `id`, of channel `ch`, and will send `d`. */
  predicate Carries(t: Task, id: string, ch: nat, d: Decision) {
    match t
    case Delivering(w, c) => w.id == id && c == ch && w.decision == d
    case Sweeping(_, ids, i, Deliver(c)) => i < |ids| && ids[i] == id && c == ch && d == Deny
    case _ => false
  }

  ghost predicate HasWin(wins: seq<Win>, id: string, d: Decision) {
    exists i :: 0 <= i < |wins| && wins[i].id == id && wins[i].decision == d
  }

  ghost predicate IsWon(wins: seq<Win>, id: string) {
    exists i :: 0 <= i < |wins| && wins[i].id == id
  }

  predicate IsClean(p: Phase) {
    p.Ended? && p.cleanup == Clean
  }

  /** A sender in the map is the hold's own, undecided, and was never taken. */
  ghost predicate SenderOk(st: Shared, wins: seq<Win>, id: string, h: Hold) {
    id in st.decisions ==>
      && st.decisions[id] == h.ch && h.ch < |st.channels| && st.channels[h.ch] == Channel(None, true)
      && !IsClean(h.phase) && !IsWon(wins, id)
  }

  predicate PendingOk(st: Shared, id: string, h: Hold) {
    id in st.pending ==>
      && st.pending[id].id == id
      && st.pending[id].projectId == h.projectId && st.pending[id].expiresAt == h.ExpiresAt()
      && h.phase != Prepared && (h.phase.Ended? ==> h.phase.cleanup == PendingLeft)
  }

  /** A decided channel carries its winner's decision; an undecided channel is closed only by
      the final cleanup of its own hold. */
  ghost predicate ChannelOk(st: Shared, wins: seq<Win>, id: string, h: Hold) {
    && h.ch < |st.channels|
    && (st.channels[h.ch].value.Some? ==> HasWin(wins, id, st.channels[h.ch].value.value))
    && (st.channels[h.ch] == Channel(None, false) ==> IsClean(h.phase))
  }

  /** The times of a phase, and the evidence its outcome rests on. */
  ghost predicate PhaseOk(v: Verifier, now: nat, wins: seq<Win>, id: string, h: Hold) {
    && h.createdAt <= now
    && match h.phase
       case Waiting(since) => h.createdAt <= since <= now
       case Polled(since, _, d, reply) => h.createdAt <= since <= now && MapStatus(v, reply) == Some(d)
       case Ended(Released(FromChannel), _) => HasWin(wins, id, Approve)
       case Ended(Rejected(FromChannel), _) => HasWin(wins, id, Deny)
       case Ended(Released(FromPoll(r)), _) => MapStatus(v, r) == Some(Approve)
       case Ended(Rejected(FromPoll(r)), _) => MapStatus(v, r) == Some(Deny)
       case Ended(TimedOut(since), _) => h.createdAt <= since && since + APPROVAL_TIMEOUT_SECS <= now
       case _ => true
  }

  ghost predicate HoldOk(v: Verifier, now: nat, st: Shared, wins: seq<Win>, id: string, h: Hold) {
    SenderOk(st, wins, id, h) && PendingOk(st, id, h) && ChannelOk(st, wins, id, h) && PhaseOk(v, now, wins, id, h)
  }

  predicate WinsDistinct(wins: seq<Win>) {
    forall i, j | 0 <= i < j < |wins| :: wins[i].id != wins[j].id
  }

  /** The part of the invariant that does not look at tasks. */
  ghost predicate Core(s: Sys) {
    && HoldsOk(s.verifier, s.now, s.store, s.wins, s.holds)
    && ChannelsApart(s.holds) && AllHeld(s.store, s.holds)
    && AllJustified(s) && WinsDistinct(s.wins)
  }

  ghost predicate HoldsOk(v: Verifier, now: nat, st: Shared, wins: seq<Win>, holds: map<string, Hold>) {
    forall id | id in holds :: HoldOk(v, now, st, wins, id, holds[id])
  }

  predicate ChannelsApart(holds: map<string, Hold>) {
    forall a, b | a in holds && b in holds && a != b :: holds[a].ch != holds[b].ch
  }

  predicate AllHeld(st: Shared, holds: map<string, Hold>) {
    (forall id | id in st.decisions :: id in holds) && (forall id | id in st.pending :: id in holds)
  }

  predicate AllJustified(s: Sys) {
    forall i | 0 <= i < |s.wins| :: Justified(s, s.wins[i])
  }

  predicate SweepOk(s: Sys, t: Task)
    requires t.Sweeping?
  {
    && t.i <= |t.ids| && t.cut <= s.now
    && (t.stage == Collect ==> t.i == 0)
    && (t.stage.Deliver? || t.stage == Forget ==> t.i < |t.ids| && t.ids[t.i] !in s.store.decisions)
    && (forall k | 0 <= k < |t.ids| ::
          t.ids[k] in s.holds && s.holds[t.ids[k]].phase != Prepared && s.holds[t.ids[k]].ExpiresAt() <= t.cut)
    && (forall k | 0 <= k < t.i :: t.ids[k] !in s.store.pending && t.ids[k] !in s.store.decisions)
  }

  ghost predicate TaskOk(s: Sys, t: Task) {
    && (t.Submitting? || t.Delivering? || t.Forgetting? ==> Justified(s, t.win))
    && (t.Sweeping? ==> SweepOk(s, t))
    && (forall id | Claims(t, id) :: IsWon(s.wins, id))
    && (forall id, ch: nat, d | Carries(t, id, ch, d) ::
          && id in s.holds && s.holds[id].ch == ch && ch < |s.store.channels|
          && s.store.channels[ch] == Channel(None, true)
          && HasWin(s.wins, id, d))
  }

  ghost predicate TasksOk(s: Sys) {
    && (forall tid | tid in s.tasks :: TaskOk(s, s.tasks[tid]))
    && (forall a, b, id | a in s.tasks && b in s.tasks && Claims(s.tasks[a], id) && Claims(s.tasks[b], id) :: a == b)
  }

  ghost predicate Inv(s: Sys) {
    Core(s) && TasksOk(s)
  }

  lemma InitialInv(verifier: Verifier, now: nat)
    ensures Inv(Initial(verifier, now))
  {
  }

  /** What no step undoes. */
  ghost predicate Grows(s: Sys, t: Sys) {
    && t.verifier == s.verifier && s.now <= t.now && s.wins <= t.wins
    && |s.store.channels| <= |t.store.channels|
    && (forall ch | 0 <= ch < |s.store.channels| ::
          s.store.channels[ch].value.Some? ==> t.store.channels[ch].value.Some?)
    && (forall id | id in s.holds ::
          && id in t.holds
          && t.holds[id].projectId == s.holds[id].projectId && t.holds[id].ch == s.holds[id].ch
          && t.holds[id].createdAt == s.holds[id].createdAt
          && (s.holds[id].phase != Prepared ==> t.holds[id].phase != Prepared)
          && (id in t.store.decisions ==> id in s.store.decisions)
          && (s.holds[id].phase != Prepared && id in t.store.pending ==> id in s.store.pending))
  }

  // ── One effect at a time ──────────────────────────────────────────────

  /** A hold whose own entries are at most removed, and whose channel is at most decided. */
  lemma HoldFrame(v: Verifier, now: nat, st: Shared, wins: seq<Win>, now': nat, st': Shared, wins': seq<Win>,
                  id: string, h: Hold)
    requires HoldOk(v, now, st, wins, id, h) && now <= now' && wins <= wins'
    requires id in st'.decisions ==> id in st.decisions && st'.decisions[id] == st.decisions[id] && !IsWon(wins', id)
    requires id in st'.pending ==> id in st.pending && st'.pending[id] == st.pending[id]
    requires h.ch < |st'.channels|
    requires st'.channels[h.ch] == st.channels[h.ch]
          || (&& id !in st'.decisions && st'.channels[h.ch].value.Some?
              && HasWin(wins', id, st'.channels[h.ch].value.value))
    ensures HoldOk(v, now', st', wins', id, h)
  {
    forall d | HasWin(wins, id, d) ensures HasWin(wins', id, d) {
      var i :| 0 <= i < |wins| && wins[i].id == id && wins[i].decision == d;
      assert wins'[i] == wins[i];
    }
  }

  lemma JustifiedStays(s: Sys, t: Sys, w: Win)
    requires Justified(s, w) && Grows(s, t)
    ensures Justified(t, w)
  {
  }

  lemma TickKeepsCore(s: Sys)
    requires Core(s)
    ensures Core(s.(now := s.now + 1))
  {
    var t := s.(now := s.now + 1);
    forall id | id in s.holds ensures HoldOk(t.verifier, t.now, t.store, t.wins, id, t.holds[id]) {
      HoldFrame(s.verifier, s.now, s.store, s.wins, t.now, t.store, t.wins, id, s.holds[id]);
    }
  }

  lemma NotYetWon(s: Sys, id: string)
    requires Core(s) && id !in s.holds
    ensures !IsWon(s.wins, id)
  {
    forall i | 0 <= i < |s.wins| ensures s.wins[i].id != id {
      assert Justified(s, s.wins[i]);
    }
  }

  /** A fresh id, its new channel, and its armed guard. */
  lemma BeginKeepsCore(s: Sys, id: string, projectId: string)
    requires Core(s) && id !in s.holds
    ensures Core(HoldNext(s, Begin(id, projectId)).value)
  {
    var t := HoldNext(s, Begin(id, projectId)).value;
    var channels := s.store.channels + [Channel(None, true)];
    var st := Shared(s.store.pending, s.store.decisions[id := |s.store.channels|], channels);
    assert t.store == st;
    NotYetWon(s, id);
    forall other | other in t.holds ensures HoldOk(s.verifier, s.now, st, s.wins, other, t.holds[other]) {
      if other == id {
        assert st.channels[|s.store.channels|] == Channel(None, true);
      } else {
        HoldFrame(s.verifier, s.now, s.store, s.wins, s.now, st, s.wins, other, s.holds[other]);
      }
    }
    forall a, b | a in t.holds && b in t.holds && a != b ensures t.holds[a].ch != t.holds[b].ch {
      assert a in s.holds ==> ChannelOk(s.store, s.wins, a, s.holds[a]);
      assert b in s.holds ==> ChannelOk(s.store, s.wins, b, s.holds[b]);
    }
    forall i | 0 <= i < |t.wins| ensures Justified(t, t.wins[i]) {
      assert Justified(s, s.wins[i]);
    }
  }

  lemma StoredHoldOk(v: Verifier, now: nat, st: Shared, wins: seq<Win>, id: string, h: Hold, a: PendingApproval)
    requires HoldOk(v, now, st, wins, id, h) && h.phase == Prepared
    requires a.id == id && a.projectId == h.projectId && a.expiresAt == h.ExpiresAt()
    ensures HoldOk(v, now, PutPending(st, a), wins, id, h.(phase := Notifying))
  {
  }

  lemma StorePendingKeepsCore(s: Sys, id: string, organizationId: string)
    requires Core(s) && HoldNext(s, StorePending(id, organizationId)).Some?
    ensures Core(HoldNext(s, StorePending(id, organizationId)).value)
  {
    var h := s.holds[id];
    var a := PendingApproval(id, organizationId, h.projectId, h.createdAt, h.ExpiresAt());
    var st := PutPending(s.store, a);
    var t := HoldNext(s, StorePending(id, organizationId)).value;
    assert t.store == st;
    forall other | other in s.holds ensures HoldOk(s.verifier, s.now, st, s.wins, other, t.holds[other]) {
      if other == id {
        StoredHoldOk(s.verifier, s.now, s.store, s.wins, id, h, a);
      } else {
        HoldFrame(s.verifier, s.now, s.store, s.wins, s.now, st, s.wins, other, s.holds[other]);
      }
    }
    forall i | 0 <= i < |t.wins| ensures Justified(t, t.wins[i]) {
      assert Justified(s, s.wins[i]);
    }
  }

  /** Changing the phase of one hold. */
  lemma SetPhaseKeepsCore(s: Sys, id: string, q: Phase)
    requires Core(s) && id in s.holds
    requires HoldOk(s.verifier, s.now, s.store, s.wins, id, s.holds[id].(phase := q))
    ensures Core(SetPhase(s, id, q))
  {
    var t := SetPhase(s, id, q);
    forall i | 0 <= i < |t.wins| ensures Justified(t, t.wins[i]) {
      assert Justified(s, s.wins[i]);
    }
  }

  lemma DropPendingKeepsCore(s: Sys, id: string)
    requires Core(s)
    ensures Core(s.(store := DropPending(s.store, id)))
  {
    var t := s.(store := DropPending(s.store, id));
    forall other | other in s.holds ensures HoldOk(t.verifier, t.now, t.store, t.wins, other, t.holds[other]) {
      HoldFrame(s.verifier, s.now, s.store, s.wins, t.now, t.store, t.wins, other, s.holds[other]);
    }
  }

  /** Dropping the sender of a hold that is then clean. */
  lemma CleanSenderKeepsCore(s: Sys, id: string)
    requires Core(s) && HoldNext(s, CleanSender(id)).Some?
    ensures Core(HoldNext(s, CleanSender(id)).value)
  {
    var t := HoldNext(s, CleanSender(id)).value;
    var st := DropSender(s.store, id);
    assert t == SetPhase(s.(store := st), id, s.holds[id].phase.(cleanup := Clean));
    assert HoldOk(s.verifier, s.now, s.store, s.wins, id, s.holds[id]);
    forall other | other in s.holds ensures HoldOk(s.verifier, s.now, st, s.wins, other, t.holds[other]) {
      if other != id {
        HoldFrame(s.verifier, s.now, s.store, s.wins, s.now, st, s.wins, other, s.holds[other]);
      }
    }
    forall i | 0 <= i < |t.wins| ensures Justified(t, t.wins[i]) {
      assert Justified(s, s.wins[i]);
    }
  }

  lemma TakeKeepsHolds(s: Sys, win: Win)
    requires HoldsOk(s.verifier, s.now, s.store, s.wins, s.holds) && win.id in s.store.decisions
    ensures HoldsOk(s.verifier, s.now, TakeSender(s.store, win.id), s.wins + [win], s.holds)
  {
    var st, wins := TakeSender(s.store, win.id), s.wins + [win];
    forall other | other in s.holds ensures HoldOk(s.verifier, s.now, st, wins, other, s.holds[other]) {
      HoldFrame(s.verifier, s.now, s.store, s.wins, s.now, st, wins, other, s.holds[other]);
    }
  }

  lemma TakeKeepsWins(s: Sys, win: Win)
    requires Core(s) && win.id in s.store.decisions && Justified(s, win)
    ensures AllJustified(s.(store := TakeSender(s.store, win.id), wins := s.wins + [win]))
    ensures WinsDistinct(s.wins + [win])
  {
    var t := s.(store := TakeSender(s.store, win.id), wins := s.wins + [win]);
    assert SenderOk(s.store, s.wins, win.id, s.holds[win.id]);
    forall i | 0 <= i < |t.wins| ensures Justified(t, t.wins[i]) {
      assert i < |s.wins| ==> Justified(s, s.wins[i]);
    }
  }

  lemma TakeKeepsCore(s: Sys, win: Win)
    requires Core(s) && win.id in s.store.decisions && Justified(s, win)
    ensures Core(s.(store := TakeSender(s.store, win.id), wins := s.wins + [win]))
  {
    TakeKeepsHolds(s, win);
    TakeKeepsWins(s, win);
  }

  lemma SendKeepsCore(s: Sys, id: string, ch: nat, d: Decision)
    requires Core(s) && id in s.holds && s.holds[id].ch == ch && id !in s.store.decisions
    requires HasWin(s.wins, id, d)
    ensures Core(s.(store := Send(s.store, ch, d)))
  {
    var t := s.(store := Send(s.store, ch, d));
    forall other | other in s.holds ensures HoldOk(t.verifier, t.now, t.store, t.wins, other, t.holds[other]) {
      HoldFrame(s.verifier, s.now, s.store, s.wins, t.now, t.store, t.wins, other, s.holds[other]);
    }
  }

  // ── Tasks ─────────────────────────────────────────────────────────────

  lemma TaskStays(s: Sys, t: Sys, task: Task)
    requires TaskOk(s, task) && Grows(s, t)
    requires forall id, ch: nat, d | Carries(task, id, ch, d) && ch < |s.store.channels| ::
               t.store.channels[ch] == s.store.channels[ch]
    ensures TaskOk(t, task)
  {
    forall id | IsWon(s.wins, id) ensures IsWon(t.wins, id) {
      var i :| 0 <= i < |s.wins| && s.wins[i].id == id;
      assert t.wins[i] == s.wins[i];
    }
    forall id, d | HasWin(s.wins, id, d) ensures HasWin(t.wins, id, d) {
      var i :| 0 <= i < |s.wins| && s.wins[i].id == id && s.wins[i].decision == d;
      assert t.wins[i] == s.wins[i];
    }
  }

  /** A step that leaves the tasks alone and no carried channel touched. */
  lemma OtherTasksStay(s: Sys, t: Sys)
    requires TasksOk(s) && Grows(s, t) && t.tasks == s.tasks
    requires forall tid, id, ch: nat, d |
               tid in s.tasks && Carries(s.tasks[tid], id, ch, d) && ch < |s.store.channels| ::
               t.store.channels[ch] == s.store.channels[ch]
    ensures TasksOk(t)
  {
    forall tid | tid in t.tasks ensures TaskOk(t, t.tasks[tid]) {
      TaskStays(s, t, s.tasks[tid]);
    }
  }

  /** A step of one task, the others staying as they are. */
  lemma OneTaskMoves(s: Sys, t: Sys, tid: nat, task: Task)
    requires TasksOk(s) && Grows(s, t) && t.tasks == s.tasks[tid := task] && TaskOk(t, task)
    requires forall o, id, ch: nat, d |
               o in s.tasks && o != tid && Carries(s.tasks[o], id, ch, d) && ch < |s.store.channels| ::
               t.store.channels[ch] == s.store.channels[ch]
    requires forall o, id | o in s.tasks && o != tid && Claims(s.tasks[o], id) :: !Claims(task, id)
    ensures TasksOk(t)
  {
    forall o | o in t.tasks ensures TaskOk(t, t.tasks[o]) {
      if o != tid {
        TaskStays(s, t, s.tasks[o]);
      }
    }
  }

  /** A held request leaves its answer, or its place, with the store as it is. */
  predicate MovesPhaseOnly(step: Step) {
    step.Observe? || step.ObserveClosed? || step.Timeout? || step.PollReturns? || step.Cancel? || step.FailToStore?
    || step.StartWaiting?
  }

  /** Such a step sets the phase of its hold and nothing else. */
  lemma PhaseMoveIs(s: Sys, step: Step)
    requires MovesPhaseOnly(step) && HoldNext(s, step).Some?
    ensures step.id in s.holds && step.id in HoldNext(s, step).value.holds
    ensures HoldNext(s, step).value == SetPhase(s, step.id, HoldNext(s, step).value.holds[step.id].phase)
    ensures HoldNext(s, step).value.holds[step.id].phase != Prepared
  {
  }

  lemma SetPhaseGrows(s: Sys, id: string, q: Phase)
    requires id in s.holds && q != Prepared
    ensures Grows(s, SetPhase(s, id, q))
  {
  }

  lemma BeginGrows(s: Sys, step: Step)
    requires step.Begin? && HoldNext(s, step).Some?
    ensures Grows(s, HoldNext(s, step).value)
  {
    assert HoldNext(s, step).value.store == PutSender(s.store, step.id);
  }

  lemma StoreMoveGrows(s: Sys, step: Step)
    requires !step.Begin? && !MovesPhaseOnly(step) && HoldNext(s, step).Some?
    ensures Grows(s, HoldNext(s, step).value)
  {
  }

  lemma HoldStepGrows(s: Sys, step: Step)
    requires HoldNext(s, step).Some?
    ensures Grows(s, HoldNext(s, step).value)
  {
    if MovesPhaseOnly(step) {
      PhaseMoveIs(s, step);
      SetPhaseGrows(s, step.id, HoldNext(s, step).value.holds[step.id].phase);
    } else if step.Begin? {
      BeginGrows(s, step);
    } else {
      StoreMoveGrows(s, step);
    }
  }

  lemma SubmitStepGrows(s: Sys, step: Step)
    requires SubmitNext(s, step).Some?
    ensures Grows(s, SubmitNext(s, step).value)
  {
  }

  lemma SweepStepGrows(s: Sys, step: Step)
    requires SweepNext(s, step).Some?
    ensures Grows(s, SweepNext(s, step).value)
  {
  }

  lemma CoreIgnoresTasks(s: Sys, tasks: map<nat, Task>)
    requires Core(s)
    ensures Core(s.(tasks := tasks))
  {
    var t := s.(tasks := tasks);
    forall i | 0 <= i < |t.wins| ensures Justified(t, t.wins[i]) {
      assert Justified(s, s.wins[i]);
    }
  }

  /** A carried sender is not in the map, and its channel belongs to no other hold. */
  lemma CarriedApart(s: Sys, tid: nat, id: string, ch: nat, d: Decision)
    requires Inv(s) && tid in s.tasks && Carries(s.tasks[tid], id, ch, d)
    ensures id in s.holds && s.holds[id].ch == ch && id !in s.store.decisions && HasWin(s.wins, id, d)
    ensures forall other | other in s.holds && other != id :: s.holds[other].ch != ch
    ensures Claims(s.tasks[tid], id)
  {
    assert TaskOk(s, s.tasks[tid]);
    var i :| 0 <= i < |s.wins| && s.wins[i].id == id && s.wins[i].decision == d;
    assert SenderOk(s.store, s.wins, id, s.holds[id]);
  }

  lemma NobodyClaimsWaitingSender(s: Sys, id: string)
    requires Inv(s) && id in s.store.decisions
    ensures forall tid | tid in s.tasks :: !Claims(s.tasks[tid], id)
    ensures id in s.holds && s.store.decisions[id] == s.holds[id].ch
    ensures s.holds[id].ch < |s.store.channels| && s.store.channels[s.holds[id].ch] == Channel(None, true)
  {
    assert SenderOk(s.store, s.wins, id, s.holds[id]);
    forall tid | tid in s.tasks ensures !Claims(s.tasks[tid], id) {
      assert TaskOk(s, s.tasks[tid]);
    }
  }

  // ── Steps of a held request ───────────────────────────────────────────

  lemma PhaseStepKeepsInv(s: Sys, id: string, q: Phase)
    requires Inv(s) && id in s.holds && q != Prepared
    requires HoldOk(s.verifier, s.now, s.store, s.wins, id, s.holds[id].(phase := q))
    ensures Inv(SetPhase(s, id, q))
  {
    SetPhaseKeepsCore(s, id, q);
    OtherTasksStay(s, SetPhase(s, id, q));
  }

  lemma BeginKeepsInv(s: Sys, id: string, projectId: string)
    requires Inv(s) && id !in s.holds
    ensures Inv(HoldNext(s, Begin(id, projectId)).value)
  {
    BeginKeepsCore(s, id, projectId);
    HoldStepGrows(s, Begin(id, projectId));
    OtherTasksStay(s, HoldNext(s, Begin(id, projectId)).value);
  }

  lemma PollAnswersKeepsInv(s: Sys, id: string, tid: nat, reply: StatusReply)
    requires Inv(s) && HoldNext(s, PollAnswers(id, tid, reply)).Some?
    ensures Inv(HoldNext(s, PollAnswers(id, tid, reply)).value)
  {
    var d := MapStatus(s.verifier, reply).value;
    var q, task := Polled(s.holds[id].phase.since, tid, d, reply), Submitting(Win(id, d, ByPoll(reply)));
    var m := SetPhase(s, id, q);
    assert HoldOk(s.verifier, s.now, s.store, s.wins, id, s.holds[id]);
    PhaseStepKeepsInv(s, id, q);
    CoreIgnoresTasks(m, m.tasks[tid := task]);
    OneTaskMoves(m, SetTask(m, tid, task), tid, task);
  }

  lemma CleanPendingKeepsInv(s: Sys, id: string)
    requires Inv(s) && HoldNext(s, CleanPending(id)).Some?
    ensures Inv(HoldNext(s, CleanPending(id)).value)
  {
    var m := s.(store := DropPending(s.store, id));
    DropPendingKeepsInv(s, id);
    assert HoldOk(m.verifier, m.now, m.store, m.wins, id, m.holds[id]);
    PhaseStepKeepsInv(m, id, s.holds[id].phase.(cleanup := SenderLeft));
  }

  lemma DropPendingKeepsInv(s: Sys, id: string)
    requires Inv(s)
    ensures Inv(s.(store := DropPending(s.store, id)))
  {
    DropPendingKeepsCore(s, id);
    OtherTasksStay(s, s.(store := DropPending(s.store, id)));
  }

  lemma CarriedSurvivesDrop(s: Sys, id: string, tid: nat, other: string, ch: nat, d: Decision)
    requires Inv(s) && tid in s.tasks && Carries(s.tasks[tid], other, ch, d)
    ensures ch < |s.store.channels| ==> DropSender(s.store, id).channels[ch] == s.store.channels[ch]
  {
    CarriedApart(s, tid, other, ch, d);
    if id in s.store.decisions {
      NobodyClaimsWaitingSender(s, id);
    }
  }

  lemma CleanSenderKeepsInv(s: Sys, id: string)
    requires Inv(s) && HoldNext(s, CleanSender(id)).Some?
    ensures Inv(HoldNext(s, CleanSender(id)).value)
  {
    var t := HoldNext(s, CleanSender(id)).value;
    CleanSenderKeepsCore(s, id);
    HoldStepGrows(s, CleanSender(id));
    assert t.store == DropSender(s.store, id) && t.tasks == s.tasks;
    forall tid, other, ch: nat, d | tid in s.tasks && Carries(s.tasks[tid], other, ch, d) && ch < |s.store.channels|
      ensures t.store.channels[ch] == s.store.channels[ch]
    {
      CarriedSurvivesDrop(s, id, tid, other, ch, d);
    }
    OtherTasksStay(s, t);
  }

  lemma ObserveKeepsInv(s: Sys, id: string)
    requires Inv(s) && HoldNext(s, Observe(id)).Some?
    ensures Inv(HoldNext(s, Observe(id)).value)
  {
    assert HoldOk(s.verifier, s.now, s.store, s.wins, id, s.holds[id]);
    var d := s.store.channels[s.holds[id].ch].value.value;
    PhaseStepKeepsInv(s, id, Ended(OutcomeOf(d, FromChannel), PendingLeft));
  }

  /** The channel of a waiting hold is never closed without a decision. */
  lemma NeverClosedUnanswered(s: Sys, id: string)
    requires Inv(s)
    ensures HoldNext(s, ObserveClosed(id)).None?
  {
    assert id in s.holds ==> HoldOk(s.verifier, s.now, s.store, s.wins, id, s.holds[id]);
  }

  lemma GivenUpHoldOk(s: Sys, step: Step)
    requires Core(s) && MovesPhaseOnly(step) && !step.Observe? && !step.ObserveClosed? && HoldNext(s, step).Some?
    ensures step.id in s.holds && step.id in HoldNext(s, step).value.holds
    ensures HoldOk(s.verifier, s.now, s.store, s.wins, step.id, HoldNext(s, step).value.holds[step.id])
  {
    assert HoldOk(s.verifier, s.now, s.store, s.wins, step.id, s.holds[step.id]);
  }

  lemma GiveUpKeepsInv(s: Sys, step: Step)
    requires Inv(s) && MovesPhaseOnly(step) && !step.Observe? && !step.ObserveClosed? && HoldNext(s, step).Some?
    ensures Inv(HoldNext(s, step).value)
  {
    GivenUpHoldOk(s, step);
    PhaseMoveIs(s, step);
    PhaseStepKeepsInv(s, step.id, HoldNext(s, step).value.holds[step.id].phase);
  }

  lemma StorePendingKeepsInv(s: Sys, id: string, organizationId: string)
    requires Inv(s) && HoldNext(s, StorePending(id, organizationId)).Some?
    ensures Inv(HoldNext(s, StorePending(id, organizationId)).value)
  {
    StorePendingKeepsCore(s, id, organizationId);
    HoldStepGrows(s, StorePending(id, organizationId));
    OtherTasksStay(s, HoldNext(s, StorePending(id, organizationId)).value);
  }

  lemma PhaseMoveKeepsInv(s: Sys, step: Step)
    requires Inv(s) && MovesPhaseOnly(step) && HoldNext(s, step).Some?
    ensures Inv(HoldNext(s, step).value)
  {
    if step.Observe? {
      ObserveKeepsInv(s, step.id);
    } else if step.ObserveClosed? {
      NeverClosedUnanswered(s, step.id);
    } else {
      GiveUpKeepsInv(s, step);
    }
  }

  lemma HoldStepKeepsInv(s: Sys, step: Step)
    requires Inv(s) && HoldNext(s, step).Some?
    ensures Inv(HoldNext(s, step).value)
  {
    if MovesPhaseOnly(step) {
      PhaseMoveKeepsInv(s, step);
    } else if step.Begin? {
      BeginKeepsInv(s, step.id, step.projectId);
    } else if step.StorePending? {
      StorePendingKeepsInv(s, step.id, step.organizationId);
    } else if step.PollAnswers? {
      PollAnswersKeepsInv(s, step.id, step.tid, step.reply);
    } else if step.CleanPending? {
      CleanPendingKeepsInv(s, step.id);
    } else {
      CleanSenderKeepsInv(s, step.id);
    }
  }

  // ── Steps of a submission ─────────────────────────────────────────────

  /** A task changes its own variables only. */
  lemma TaskStepKeepsInv(s: Sys, tid: nat, task: Task)
    requires Inv(s) && TaskOk(s, task)
    requires forall id | Claims(task, id) :: tid in s.tasks && Claims(s.tasks[tid], id)
    ensures Inv(SetTask(s, tid, task))
  {
    var t := SetTask(s, tid, task);
    CoreIgnoresTasks(s, t.tasks);
    TaskStays(s, t, task);
    OneTaskMoves(s, t, tid, task);
  }

  lemma DropThenStepKeepsInv(s: Sys, tid: nat, id: string, task: Task)
    requires Inv(s) && tid in s.tasks
    requires TaskOk(s.(store := DropPending(s.store, id)), task)
    requires forall o | Claims(task, o) :: Claims(s.tasks[tid], o)
    ensures Inv(SetTask(s.(store := DropPending(s.store, id)), tid, task))
  {
    DropPendingKeepsInv(s, id);
    TaskStepKeepsInv(s.(store := DropPending(s.store, id)), tid, task);
  }

  lemma LookupKeepsInv(s: Sys, tid: nat)
    requires Inv(s) && SubmitNext(s, Lookup(tid)).Some?
    ensures Inv(SubmitNext(s, Lookup(tid)).value)
    ensures tid in s.tasks && s.tasks[tid].HandlerCall? && tid in SubmitNext(s, Lookup(tid)).value.tasks
    ensures var c, t := s.tasks[tid], SubmitNext(s, Lookup(tid)).value.tasks[tid];
            && (t.Submitting? <==> c.id in s.store.pending && s.now < s.store.pending[c.id].expiresAt
                                   && s.store.pending[c.id].projectId == c.projectId)
            && (t.Submitting? ==> t.win.id == c.id && t.win.decision == c.decision)
  {
    var t := s.tasks[tid];
    match LivePending(s.store, t.id, s.now)
    case Some(a) =>
      var win := Win(t.id, t.decision, ByHandler(t.projectId, a, s.now));
      if a.projectId == t.projectId {
        assert HoldOk(s.verifier, s.now, s.store, s.wins, t.id, s.holds[t.id]);
        assert Justified(s, win);
        TaskStepKeepsInv(s, tid, Submitting(win));
      } else {
        TaskStepKeepsInv(s, tid, Returned(None));
      }
    case None =>
      TaskStepKeepsInv(s, tid, if Expired(s.store, t.id, s.now) then Evicting(t.id) else Returned(None));
  }

  lemma TakeGrows(s: Sys, win: Win, tid: nat, task: Task)
    ensures Grows(s, SetTask(s.(store := TakeSender(s.store, win.id), wins := s.wins + [win]), tid, task))
  {
  }

  /** Taking a waiting sender out of the map, for a submission or for the sweeper. */
  lemma TakeKeepsInv(s: Sys, tid: nat, win: Win, task: Task)
    requires Inv(s) && tid in s.tasks && win.id in s.store.decisions && Justified(s, win)
    requires forall id | Claims(task, id) :: id == win.id
    requires forall id, ch: nat, d | Carries(task, id, ch, d) ::
               id == win.id && ch == s.store.decisions[id] && d == win.decision
    requires task.Delivering? ==> task.win == win
    requires !task.Submitting? && !task.Forgetting?
    requires task.Sweeping? ==> SweepOk(s.(store := TakeSender(s.store, win.id)), task)
    ensures Inv(SetTask(s.(store := TakeSender(s.store, win.id), wins := s.wins + [win]), tid, task))
  {
    var m := s.(store := TakeSender(s.store, win.id), wins := s.wins + [win]);
    var t := SetTask(m, tid, task);
    TakeKeepsCore(s, win);
    TakeGrows(s, win, tid, task);
    CoreIgnoresTasks(m, t.tasks);
    NobodyClaimsWaitingSender(s, win.id);
    assert t.wins[|s.wins|] == win;
    assert HasWin(t.wins, win.id, win.decision) && IsWon(t.wins, win.id);
    JustifiedStays(s, t, win);
    OneTaskMoves(s, t, tid, task);
  }

  lemma SendGrows(s: Sys, ch: nat, d: Decision, tid: nat, task: Task)
    ensures Grows(s, SetTask(s.(store := Send(s.store, ch, d)), tid, task))
  {
  }

  /** Sending the decision on a carried sender. */
  lemma SendKeepsInv(s: Sys, tid: nat, id: string, ch: nat, d: Decision, task: Task)
    requires Inv(s) && tid in s.tasks && Carries(s.tasks[tid], id, ch, d)
    requires TaskOk(s, task)
    requires forall o | Claims(task, o) :: o == id
    requires forall o, c: nat, e :: !Carries(task, o, c, e)
    ensures Inv(SetTask(s.(store := Send(s.store, ch, d)), tid, task))
  {
    var m := s.(store := Send(s.store, ch, d));
    var t := SetTask(m, tid, task);
    CarriedApart(s, tid, id, ch, d);
    SendKeepsCore(s, id, ch, d);
    SendGrows(s, ch, d, tid, task);
    CoreIgnoresTasks(m, t.tasks);
    TaskStays(s, t, task);
    OthersKeepTheirChannels(s, tid, id, ch, d);
    OneTaskMoves(s, t, tid, task);
  }

  lemma OthersKeepTheirChannels(s: Sys, tid: nat, id: string, ch: nat, d: Decision)
    requires Inv(s) && tid in s.tasks && Carries(s.tasks[tid], id, ch, d)
    ensures forall o, other, c: nat, e | o in s.tasks && o != tid && Carries(s.tasks[o], other, c, e) ::
              c != ch && !Claims(s.tasks[o], id)
  {
    CarriedApart(s, tid, id, ch, d);
    forall o, other, c: nat, e | o in s.tasks && o != tid && Carries(s.tasks[o], other, c, e)
      ensures c != ch && !Claims(s.tasks[o], id)
    {
      CarriedApart(s, o, other, c, e);
    }
  }

  lemma TakeStepKeepsInv(s: Sys, tid: nat)
    requires Inv(s) && SubmitNext(s, TakeStep(tid)).Some?
    ensures Inv(SubmitNext(s, TakeStep(tid)).value)
  {
    var win, task := s.tasks[tid].win, SubmitNext(s, TakeStep(tid)).value.tasks[tid];
    assert TaskOk(s, s.tasks[tid]);
    if win.id in s.store.decisions {
      TakeKeepsInv(s, tid, win, task);
    } else {
      TaskStepKeepsInv(s, tid, task);
    }
  }

  lemma DeliverStepKeepsInv(s: Sys, tid: nat)
    requires Inv(s) && SubmitNext(s, DeliverStep(tid)).Some?
    ensures Inv(SubmitNext(s, DeliverStep(tid)).value)
  {
    var w, ch := s.tasks[tid].win, s.tasks[tid].ch;
    assert TaskOk(s, s.tasks[tid]);
    SendKeepsInv(s, tid, w.id, ch, w.decision, Forgetting(w));
  }

  lemma ForgetStepKeepsInv(s: Sys, tid: nat)
    requires Inv(s) && SubmitNext(s, ForgetStep(tid)).Some?
    ensures Inv(SubmitNext(s, ForgetStep(tid)).value)
  {
    var w := s.tasks[tid].win;
    var m := s.(store := DropPending(s.store, w.id));
    assert TaskOk(s, s.tasks[tid]);
    TaskStays(s, m, s.tasks[tid]);
    DropThenStepKeepsInv(s, tid, w.id, Returned(Some(w)));
  }

  lemma SubmitStepKeepsInv(s: Sys, step: Step)
    requires Inv(s) && SubmitNext(s, step).Some?
    ensures Inv(SubmitNext(s, step).value)
  {
    var t := SubmitNext(s, step).value;
    var tid, task := step.tid, t.tasks[step.tid];
    match step {
      case Call(_, _, _, _) => TaskStepKeepsInv(s, tid, task);
      case Lookup(_) => LookupKeepsInv(s, tid);
      case Evict(_) =>
        DropThenStepKeepsInv(s, tid, s.tasks[tid].id, task);
      case TakeStep(_) => TakeStepKeepsInv(s, tid);
      case DeliverStep(_) => DeliverStepKeepsInv(s, tid);
      case ForgetStep(_) => ForgetStepKeepsInv(s, tid);
    }
  }

  // ── Steps of the sweeper ──────────────────────────────────────────────

  lemma SweepCollectKeepsInv(s: Sys, tid: nat, step: Step)
    requires Inv(s) && (step == StartSweep(tid) || step == SweepGoes(tid) || (step.SweepSees? && step.tid == tid))
    requires SweepNext(s, step).Some?
    ensures Inv(SweepNext(s, step).value)
  {
    var task := SweepNext(s, step).value.tasks[tid];
    assert tid in s.tasks ==> TaskOk(s, s.tasks[tid]);
    if step.SweepSees? {
      assert HoldOk(s.verifier, s.now, s.store, s.wins, step.id, s.holds[step.id]);
    }
    assert SweepOk(s, task);
    TaskStepKeepsInv(s, tid, task);
  }

  lemma SweepTakesKeepsInv(s: Sys, tid: nat)
    requires Inv(s) && SweepNext(s, SweepTakes(tid)).Some?
    ensures Inv(SweepNext(s, SweepTakes(tid)).value)
  {
    var task := SweepNext(s, SweepTakes(tid)).value.tasks[tid];
    var id := s.tasks[tid].ids[s.tasks[tid].i];
    assert TaskOk(s, s.tasks[tid]) && SweepOk(s, s.tasks[tid]);
    if id in s.store.decisions {
      TakeKeepsInv(s, tid, Win(id, Deny, BySweep(tid, s.tasks[tid].cut)), task);
    } else {
      TaskStepKeepsInv(s, tid, task);
    }
  }

  lemma SweepDeliversKeepsInv(s: Sys, tid: nat)
    requires Inv(s) && SweepNext(s, SweepDelivers(tid)).Some?
    ensures Inv(SweepNext(s, SweepDelivers(tid)).value)
  {
    var id := s.tasks[tid].ids[s.tasks[tid].i];
    assert TaskOk(s, s.tasks[tid]) && SweepOk(s, s.tasks[tid]);
    SendKeepsInv(s, tid, id, s.tasks[tid].stage.ch, Deny, SweepNext(s, SweepDelivers(tid)).value.tasks[tid]);
  }

  lemma SweepForgetsKeepsInv(s: Sys, tid: nat)
    requires Inv(s) && SweepAt(s, tid) && s.tasks[tid].stage == Forget
    ensures Inv(SweepNext(s, SweepForgets(tid)).value)
  {
    var task := s.tasks[tid];
    assert TaskOk(s, task);
    var t := SetTask(s.(store := DropPending(s.store, task.ids[task.i])), tid, task.(i := task.i + 1, stage := Take));
    ForgottenKeepsInv(s, tid, task, t);
    assert SweepNext(s, SweepForgets(tid)) == Some(t);
  }

  lemma ForgottenKeepsInv(s: Sys, tid: nat, task: Task, t: Sys)
    requires Inv(s) && SweepAt(s, tid) && s.tasks[tid] == task && task.stage == Forget && task.i < |task.ids|
    requires t == SetTask(s.(store := DropPending(s.store, task.ids[task.i])), tid,
                          task.(i := task.i + 1, stage := Take))
    ensures Inv(t)
  {
    assert TaskOk(s, task);
    SweepAdvances(s, task);
    DropThenStepKeepsInv(s, tid, task.ids[task.i], task.(i := task.i + 1, stage := Take));
  }

  lemma SweepAdvances(s: Sys, task: Task)
    requires TaskOk(s, task) && task.Sweeping? && task.stage == Forget && task.i < |task.ids|
    ensures TaskOk(s.(store := DropPending(s.store, task.ids[task.i])), task.(i := task.i + 1, stage := Take))
  {
    assert SweepOk(s, task);
    assert SweepOk(s.(store := DropPending(s.store, task.ids[task.i])), task.(i := task.i + 1, stage := Take));
  }

  lemma SweepStepKeepsInv(s: Sys, step: Step)
    requires Inv(s) && SweepNext(s, step).Some?
    ensures Inv(SweepNext(s, step).value)
  {
    match step {
      case StartSweep(tid) => SweepCollectKeepsInv(s, tid, step);
      case SweepSees(tid, _) => SweepCollectKeepsInv(s, tid, step);
      case SweepGoes(tid) => SweepCollectKeepsInv(s, tid, step);
      case SweepTakes(tid) => SweepTakesKeepsInv(s, tid);
      case SweepDelivers(tid) => SweepDeliversKeepsInv(s, tid);
      case SweepForgets(tid) => SweepForgetsKeepsInv(s, tid);
    }
  }

  lemma NextGrows(s: Sys, step: Step)
    requires Next(s, step).Some?
    ensures Grows(s, Next(s, step).value)
  {
    if !step.Tick? {
      if HoldNext(s, step).Some? {
        HoldStepGrows(s, step);
      } else if SubmitNext(s, step).Some? {
        SubmitStepGrows(s, step);
      } else {
        SweepStepGrows(s, step);
      }
    }
  }

  lemma TickKeepsInv(s: Sys)
    requires Inv(s)
    ensures Inv(s.(now := s.now + 1))
  {
    TickKeepsCore(s);
    OtherTasksStay(s, s.(now := s.now + 1));
  }

  lemma NextCases(s: Sys, step: Step, t: Sys)
    requires Next(s, step) == Some(t)
    ensures || (step.Tick? && t == s.(now := s.now + 1))
            || HoldNext(s, step) == Some(t) || SubmitNext(s, step) == Some(t) || SweepNext(s, step) == Some(t)
  {
  }

  lemma NextKeepsInv(s: Sys, step: Step)
    requires Inv(s) && Next(s, step).Some?
    ensures Inv(Next(s, step).value)
  {
    var t := Next(s, step).value;
    NextCases(s, step, t);
    if HoldNext(s, step) == Some(t) {
      HoldStepKeepsInv(s, step);
    } else if SubmitNext(s, step) == Some(t) {
      SubmitStepKeepsInv(s, step);
    } else if SweepNext(s, step) == Some(t) {
      SweepStepKeepsInv(s, step);
    } else {
      TickKeepsInv(s);
    }
  }

  // ── Results over whole runs ───────────────────────────────────────────

  lemma {:induction false} GrowsTransitive(a: Sys, b: Sys, c: Sys)
    requires Grows(a, b) && Grows(b, c)
    ensures Grows(a, c)
  {
  }

  lemma {:induction false} RunKeepsInv(s: Sys, steps: seq<Step>)
    requires Inv(s) && Run(s, steps).Some?
    ensures Inv(Run(s, steps).value) && Grows(s, Run(s, steps).value)
    decreases |steps|
  {
    if steps != [] {
      NextKeepsInv(s, steps[0]);
      NextGrows(s, steps[0]);
      var t := Next(s, steps[0]).value;
      RunKeepsInv(t, steps[1..]);
      GrowsTransitive(s, t, Run(t, steps[1..]).value);
    }
  }

  /** A state some interleaving leads to from an empty store. */
  ghost predicate Reachable(s: Sys) {
    exists verifier, now: nat, steps :: Run(Initial(verifier, now), steps) == Some(s)
  }

  lemma ReachableInv(s: Sys)
    requires Reachable(s)
    ensures Inv(s)
  {
    var verifier, now: nat, steps :| Run(Initial(verifier, now), steps) == Some(s);
    InitialInv(verifier, now);
    RunKeepsInv(Initial(verifier, now), steps);
  }

  function ChannelOf(s: Sys, id: string): Option<Channel> {
    if id in s.holds && s.holds[id].ch < |s.store.channels| then Some(s.store.channels[s.holds[id].ch]) else None
  }

  lemma WinsAgree(wins: seq<Win>, more: seq<Win>, id: string, d: Decision, e: Decision)
    requires wins <= more && WinsDistinct(more) && HasWin(wins, id, d) && HasWin(more, id, e)
    ensures d == e
  {
    var i :| 0 <= i < |wins| && wins[i].id == id && wins[i].decision == d;
    var j :| 0 <= j < |more| && more[j].id == id && more[j].decision == e;
    assert more[i] == wins[i];
  }

  lemma DecisionStays(s: Sys, t: Sys, id: string, d: Decision)
    requires Core(s) && Core(t) && Grows(s, t)
    requires ChannelOf(s, id).Some? && ChannelOf(s, id).value.value == Some(d)
    ensures ChannelOf(t, id).Some? && ChannelOf(t, id).value.value == Some(d)
  {
    assert HoldOk(s.verifier, s.now, s.store, s.wins, id, s.holds[id]);
    assert HoldOk(t.verifier, t.now, t.store, t.wins, id, t.holds[id]);
    WinsAgree(s.wins, t.wins, id, d, ChannelOf(t, id).value.value.value);
  }

  /** A decision, once delivered to a channel, is never changed or withdrawn. */
  lemma DecisionsAreFinal(s: Sys, steps: seq<Step>, id: string, d: Decision)
    requires Reachable(s) && Run(s, steps).Some?
    requires ChannelOf(s, id).Some? && ChannelOf(s, id).value.value == Some(d)
    ensures ChannelOf(Run(s, steps).value, id).Some? && ChannelOf(Run(s, steps).value, id).value.value == Some(d)
  {
    ReachableInv(s);
    RunKeepsInv(s, steps);
    DecisionStays(s, Run(s, steps).value, id, d);
  }

  /** In every interleaving a hold's sender is taken at most once, at most one submission for
      its id returns true, and whatever the hold's channel shows is that one winner's decision. */
  lemma AtMostOneWinner(s: Sys, id: string)
    requires Reachable(s) && id in s.holds
    ensures forall i, j | 0 <= i < |s.wins| && 0 <= j < |s.wins| && s.wins[i].id == id == s.wins[j].id :: i == j
    ensures forall a, b | a in s.tasks && b in s.tasks
              && s.tasks[a].Returned? && s.tasks[a].delivered.Some? && s.tasks[a].delivered.value.id == id
              && s.tasks[b].Returned? && s.tasks[b].delivered.Some? && s.tasks[b].delivered.value.id == id :: a == b
    ensures ChannelOf(s, id).Some?
    ensures forall d | ChannelOf(s, id).value.value == Some(d) :: HasWin(s.wins, id, d)
  {
    ReachableInv(s);
    assert HoldOk(s.verifier, s.now, s.store, s.wins, id, s.holds[id]);
    forall a, b | a in s.tasks && b in s.tasks
              && s.tasks[a].Returned? && s.tasks[a].delivered.Some? && s.tasks[a].delivered.value.id == id
              && s.tasks[b].Returned? && s.tasks[b].delivered.Some? && s.tasks[b].delivered.value.id == id
      ensures a == b
    {
      assert Claims(s.tasks[a], id) && Claims(s.tasks[b], id);
    }
  }

  /** A hold answered by its channel got exactly the one winner's decision. */
  lemma ObservedIsWinner(s: Sys, id: string)
    requires Reachable(s) && id in s.holds && s.holds[id].phase.Ended?
    requires s.holds[id].phase.outcome in {Released(FromChannel), Rejected(FromChannel)}
    ensures IsWon(s.wins, id)
    ensures forall i | 0 <= i < |s.wins| && s.wins[i].id == id ::
              s.holds[id].phase.outcome == OutcomeOf(s.wins[i].decision, FromChannel)
  {
    ReachableInv(s);
    assert HoldOk(s.verifier, s.now, s.store, s.wins, id, s.holds[id]);
  }

  /** A hold that waits gets no answer for one reason only: its full time has passed. */
  lemma TimeoutsAreReal(s: Sys, id: string)
    requires Reachable(s) && id in s.holds
    ensures Next(s, ObserveClosed(id)).None?
    ensures s.holds[id].phase.Ended? && s.holds[id].phase.outcome.TimedOut? ==>
              && s.holds[id].createdAt <= s.holds[id].phase.outcome.since
              && s.holds[id].phase.outcome.since + APPROVAL_TIMEOUT_SECS <= s.now
  {
    ReachableInv(s);
    NeverClosedUnanswered(s, id);
    assert HoldOk(s.verifier, s.now, s.store, s.wins, id, s.holds[id]);
  }

  /** What entitles a submission to send Approve for a hold of `projectId`. */
  ghost predicate ApprovedBy(s: Sys, h: Hold, id: string, source: Source) {
    match source
    case ByHandler(projectId, seen, seenAt) =>
      projectId == h.projectId && seen.id == id && seen.projectId == h.projectId && seenAt < seen.expiresAt
    case ByPoll(reply) => ProvesApproval(s.verifier, reply)
    case BySweep(_, _) => false
  }

  /** A held request is released towards the upstream only on a handler's Approve for an
      approval it saw pending, unexpired and of the hold's own project, or on a status reply
      that proves the approval. */
  lemma ReleaseProvenance(s: Sys, id: string)
    requires Reachable(s) && id in s.holds && s.holds[id].phase.Ended? && s.holds[id].phase.outcome.Released?
    ensures match s.holds[id].phase.outcome.why
            case FromPoll(reply) => ProvesApproval(s.verifier, reply)
            case FromChannel =>
              exists i :: 0 <= i < |s.wins| && s.wins[i].id == id && s.wins[i].decision == Approve
                          && ApprovedBy(s, s.holds[id], id, s.wins[i].source)
  {
    ReachableInv(s);
    assert HoldOk(s.verifier, s.now, s.store, s.wins, id, s.holds[id]);
    if s.holds[id].phase.outcome.why == FromChannel {
      var i :| 0 <= i < |s.wins| && s.wins[i].id == id && s.wins[i].decision == Approve;
      assert Justified(s, s.wins[i]);
      if s.wins[i].source.ByPoll? {
        MapStatusIff(s.verifier, s.wins[i].source.reply);
      }
    } else {
      MapStatusIff(s.verifier, s.holds[id].phase.outcome.why.reply);
    }
  }

  /** A denial by the sweeper comes only after the approval's full life. */
  lemma SweepDeniesOnlyExpired(s: Sys, i: nat)
    requires Reachable(s) && i < |s.wins| && s.wins[i].source.BySweep?
    ensures s.wins[i].id in s.holds && s.wins[i].decision == Deny
    ensures s.holds[s.wins[i].id].createdAt + APPROVAL_TIMEOUT_SECS <= s.now
  {
    ReachableInv(s);
    assert Justified(s, s.wins[i]);
  }

  /** However a hold ended, once its cleanup has run neither map holds its id, and no later
      step brings it back. */
  lemma NoLeaks(s: Sys, id: string, steps: seq<Step>)
    requires Reachable(s) && id in s.holds && IsClean(s.holds[id].phase) && Run(s, steps).Some?
    ensures id !in Run(s, steps).value.store.pending && id !in Run(s, steps).value.store.decisions
  {
    ReachableInv(s);
    RunKeepsInv(s, steps);
    assert HoldOk(s.verifier, s.now, s.store, s.wins, id, s.holds[id]);
  }

  /** The rest of the cleanup of an ended hold. */
  function CleanupOf(id: string, c: Cleanup): seq<Step> {
    match c
    case PendingLeft => [CleanPending(id), CleanSender(id)]
    case SenderLeft => [CleanSender(id)]
    case Clean => []
  }

  lemma CleanSenderRuns(s: Sys, id: string)
    requires id in s.holds && s.holds[id].phase.Ended? && s.holds[id].phase.cleanup == SenderLeft
    ensures Run(s, [CleanSender(id)]) == HoldNext(s, CleanSender(id))
    ensures HoldNext(s, CleanSender(id)).Some? && id in HoldNext(s, CleanSender(id)).value.holds
    ensures IsClean(HoldNext(s, CleanSender(id)).value.holds[id].phase)
  {
    assert [CleanSender(id)][1..] == [];
  }

  /** No state blocks the cleanup of an ended hold. */
  lemma CleanupNeverBlocks(s: Sys, id: string)
    requires id in s.holds && s.holds[id].phase.Ended?
    ensures var t := Run(s, CleanupOf(id, s.holds[id].phase.cleanup));
            t.Some? && id in t.value.holds && IsClean(t.value.holds[id].phase)
  {
    match s.holds[id].phase.cleanup {
      case Clean =>
      case SenderLeft => CleanSenderRuns(s, id);
      case PendingLeft =>
        var m := HoldNext(s, CleanPending(id)).value;
        assert Next(s, CleanPending(id)) == Some(m);
        CleanSenderRuns(m, id);
        assert [CleanPending(id), CleanSender(id)][1..] == [CleanSender(id)];
    }
  }

  /** A sweep leaves nothing of what it saw: each id it has dealt with is in neither map, then
      and ever after. */
  lemma SweptIdsStayGone(s: Sys, tid: nat, k: nat, steps: seq<Step>)
    requires Reachable(s) && tid in s.tasks && s.tasks[tid].Sweeping? && k < s.tasks[tid].i && Run(s, steps).Some?
    ensures k < |s.tasks[tid].ids|
    ensures var id := s.tasks[tid].ids[k];
            id !in Run(s, steps).value.store.pending && id !in Run(s, steps).value.store.decisions
  {
    ReachableInv(s);
    RunKeepsInv(s, steps);
    assert TaskOk(s, s.tasks[tid]) && SweepOk(s, s.tasks[tid]);
  }
}
