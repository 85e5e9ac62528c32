/** The in-memory approval store (approval.rs): its atomic map accesses, and its operations
    as they run without interference. */
module Approval {
  import opened Wrappers
  import opened ApprovalStatus

  const APPROVAL_TIMEOUT_SECS := 180

  datatype PendingApproval = PendingApproval(
    id: string, organizationId: string, projectId: string, createdAt: nat, expiresAt: nat)

  /** A watch channel: the value last sent, and whether its sender still exists. */
  datatype Channel = Channel(value: Option<Decision>, senderAlive: bool)

  /** The shared maps, and the memory of the watch channels. `decisions` holds, by approval
      id, the channel whose sender waits for a decision. */
  datatype Shared = Shared(pending: map<string, PendingApproval>, decisions: map<string, nat>, channels: seq<Channel>)

  // ── Atomic accesses ───────────────────────────────────────────────────

  function CloseChannel(channels: seq<Channel>, ch: nat): seq<Channel> {
    if ch < |channels| then channels[ch := channels[ch].(senderAlive := false)] else channels
  }

  /** A new channel; the sender goes into the map, in place of any other. */
  function PutSender(s: Shared, id: string): Shared {
    var closed := if id in s.decisions then CloseChannel(s.channels, s.decisions[id]) else s.channels;
    Shared(s.pending, s.decisions[id := |s.channels|], closed + [Channel(None, true)])
  }

  function PutPending(s: Shared, a: PendingApproval): Shared {
    s.(pending := s.pending[a.id := a])
  }

  function DropPending(s: Shared, id: string): Shared {
    s.(pending := s.pending - {id})
  }

  /** Move the sender out of the map, to be used by the caller. */
  function TakeSender(s: Shared, id: string): Shared {
    s.(decisions := s.decisions - {id})
  }

  /** Send a decision, after which the sender is gone. */
  function Send(s: Shared, ch: nat, d: Decision): Shared {
    if ch < |s.channels| then s.(channels := s.channels[ch := Channel(Some(d), false)]) else s
  }

  /** Remove the sender from the map and drop it. */
  function DropSender(s: Shared, id: string): Shared {
    if id in s.decisions
    then s.(decisions := s.decisions - {id}, channels := CloseChannel(s.channels, s.decisions[id]))
    else s
  }

  function LivePending(s: Shared, id: string, now: nat): Option<PendingApproval> {
    if id in s.pending && s.pending[id].expiresAt > now then Some(s.pending[id]) else None
  }

  // ── Whole operations ──────────────────────────────────────────────────

  function Removed(s: Shared, id: string): Shared {
    DropSender(DropPending(s, id), id)
  }

  function Submitted(s: Shared, id: string, d: Decision): Shared {
    if id in s.decisions then DropPending(Send(TakeSender(s, id), s.decisions[id], d), id) else s
  }

  predicate Expired(s: Shared, id: string, now: nat) {
    id in s.pending && s.pending[id].expiresAt <= now
  }

  /** What the sweeper does with one id. */
  function DeniedOne(s: Shared, id: string): Shared {
    DropPending(if id in s.decisions then Send(TakeSender(s, id), s.decisions[id], Deny) else s, id)
  }

  /** The ids in `gone` are denied and gone; everything else is as it was. */
  ghost predicate DeniedAll(s: Shared, t: Shared, gone: set<string>) {
    && t.pending == s.pending - gone
    && t.decisions == s.decisions - gone
    && |t.channels| == |s.channels|
    && (forall id | id in s.decisions && s.decisions[id] < |s.channels| ::
          t.channels[s.decisions[id]]
          == if id in gone then Channel(Some(Deny), false) else s.channels[s.decisions[id]])
    && (forall ch | 0 <= ch < |s.channels| && ch !in s.decisions.Values :: t.channels[ch] == s.channels[ch])
  }

  lemma DeniedNone(s: Shared)
    ensures DeniedAll(s, s, {})
  {
    assert s.pending - {} == s.pending && s.decisions - {} == s.decisions;
  }

  lemma DenyOneMore(s: Shared, t: Shared, gone: set<string>, id: string)
    requires WellFormed(s) && DeniedAll(s, t, gone) && id !in gone
    ensures DeniedAll(s, DeniedOne(t, id), gone + {id})
  {
    DenyOneMoreEntry(s, t, gone, id);
    if id in s.decisions {
      DenyOneMoreChannel(s, t, gone, id);
    } else {
      assert DeniedOne(t, id).channels == t.channels;
    }
  }

  lemma DenyOneMoreEntry(s: Shared, t: Shared, gone: set<string>, id: string)
    requires t.pending == s.pending - gone && t.decisions == s.decisions - gone
    ensures DeniedOne(t, id).pending == s.pending - (gone + {id})
    ensures DeniedOne(t, id).decisions == s.decisions - (gone + {id})
  {
    assert t.pending - {id} == s.pending - (gone + {id});
    assert t.decisions - {id} == s.decisions - (gone + {id});
    assert id !in t.decisions ==> t.decisions - {id} == t.decisions;
  }

  /** No two senders in the map share a channel. */
  lemma DenyOneMoreChannel(s: Shared, t: Shared, gone: set<string>, id: string)
    requires WellFormed(s) && DeniedAll(s, t, gone) && id !in gone && id in s.decisions
    ensures var channels := DeniedOne(t, id).channels;
            && |channels| == |s.channels|
            && (forall o | o in s.decisions ::
                  channels[s.decisions[o]]
                  == if o in gone || o == id then Channel(Some(Deny), false) else s.channels[s.decisions[o]])
            && (forall ch | 0 <= ch < |s.channels| && ch !in s.decisions.Values :: channels[ch] == s.channels[ch])
  {
    var channels := DeniedOne(t, id).channels;
    assert channels == t.channels[s.decisions[id] := Channel(Some(Deny), false)];
    forall o | o in s.decisions
      ensures channels[s.decisions[o]]
           == if o in gone || o == id then Channel(Some(Deny), false) else s.channels[s.decisions[o]]
    {
      assert o != id ==> s.decisions[o] != s.decisions[id];
    }
    assert s.decisions[id] in s.decisions.Values;
  }

  lemma DeniedAllWellFormed(s: Shared, t: Shared, gone: set<string>)
    requires WellFormed(s) && DeniedAll(s, t, gone)
    ensures WellFormed(t)
  {
  }

  ghost function ExpiredIds(s: Shared, now: nat): set<string> {
    set id | id in s.pending && s.pending[id].expiresAt <= now
  }

  /** Approvals are filed under their own id; senders wait undecided, one channel each. */
  predicate WellFormed(s: Shared) {
    && (forall id | id in s.pending :: s.pending[id].id == id)
    && (forall id | id in s.decisions ::
          s.decisions[id] < |s.channels| && s.channels[s.decisions[id]] == Channel(None, true))
    && (forall a, b | a in s.decisions && b in s.decisions && a != b :: s.decisions[a] != s.decisions[b])
  }

  class InMemoryApprovalStore {
    var pending: map<string, PendingApproval>
    var decisions: map<string, nat>
    var channels: seq<Channel>

    ghost function State(): Shared
      reads this
    {
      Shared(pending, decisions, channels)
    }

    ghost predicate Valid()
      reads this
    {
      WellFormed(State())
    }

    constructor ()
      ensures Valid() && State() == Shared(map[], map[], [])
    {
      pending, decisions, channels := map[], map[], [];
    }

    method PrepareWait(id: string) returns (rx: nat)
      requires Valid()
      modifies this
      ensures Valid() && State() == PutSender(old(State()), id) && rx == |old(channels)|
    {
      rx := |channels|;
      if id in decisions {
        channels := CloseChannel(channels, decisions[id]);
      }
      channels := channels + [Channel(None, true)];
      decisions := decisions[id := rx];
    }

    method Store(approval: PendingApproval)
      requires Valid()
      modifies this
      ensures Valid() && State() == PutPending(old(State()), approval)
    {
      pending := pending[approval.id := approval];
    }

    method GetPending(id: string, now: nat) returns (found: Option<PendingApproval>)
      requires Valid()
      modifies this
      ensures Valid() && found == LivePending(old(State()), id, now)
      ensures State() == if Expired(old(State()), id, now) then DropPending(old(State()), id) else old(State())
    {
      if id !in pending {
        return None;
      }
      if pending[id].expiresAt > now {
        return Some(pending[id]);
      }
      pending := pending - {id};
      return None;
    }

    method ListPending(projectId: string, now: nat) returns (listed: set<PendingApproval>)
      ensures forall a :: a in listed <==>
                exists id :: id in pending && pending[id] == a && a.projectId == projectId && a.expiresAt > now
    {
      listed := set id | id in pending && pending[id].projectId == projectId && pending[id].expiresAt > now
                :: pending[id];
    }

    method Remove(id: string)
      requires Valid()
      modifies this
      ensures Valid() && State() == Removed(old(State()), id)
    {
      pending := pending - {id};
      if id in decisions {
        channels := CloseChannel(channels, decisions[id]);
        decisions := decisions - {id};
      }
    }

    method SubmitDecision(id: string, decision: Decision) returns (delivered: bool)
      requires Valid()
      modifies this
      ensures Valid() && delivered == (id in old(decisions)) && State() == Submitted(old(State()), id, decision)
      ensures delivered ==> channels[old(decisions[id])].value == Some(decision)
    {
      if id !in decisions {
        return false;
      }
      var tx := decisions[id];
      decisions := decisions - {id};
      channels := channels[tx := Channel(Some(decision), false)];
      pending := pending - {id};
      return true;
    }

    method DenyExpired(id: string)
      requires Valid()
      modifies this
      ensures State() == DeniedOne(old(State()), id)
    {
      if id in decisions {
        var tx := decisions[id];
        decisions := decisions - {id};
        channels := channels[tx := Channel(Some(Deny), false)];
      }
      pending := pending - {id};
    }

    /** One round of the cleanup task. */
    method Sweep(now: nat)
      requires Valid()
      modifies this
      ensures Valid() && DeniedAll(old(State()), State(), ExpiredIds(old(State()), now))
    {
      // The ids of the expired entries, which are also their keys.
      var expired := set id | id in pending && pending[id].expiresAt <= now;
      ghost var before := State();
      ghost var gone: set<string> := {};
      DeniedNone(before);
      while expired != {}
        invariant gone + expired == ExpiredIds(before, now)
        invariant gone !! expired
        invariant DeniedAll(before, State(), gone)
        decreases expired
      {
        var id :| id in expired;
        ghost var current := State();
        DeniedAllWellFormed(before, current, gone);
        DenyExpired(id);
        DenyOneMore(before, current, gone, id);
        gone := gone + {id};
        expired := expired - {id};
      }
      DeniedAllWellFormed(before, State(), gone);
    }
  }

  /** Cleans up after a request that is dropped while held; `Defuse` disarms it. */
  class ApprovalGuard {
    var approvalId: Option<string>
    const store: InMemoryApprovalStore

    constructor (id: string, store: InMemoryApprovalStore)
      ensures approvalId == Some(id) && this.store == store
    {
      this.approvalId := Some(id);
      this.store := store;
    }

    method Defuse()
      modifies this
      ensures approvalId == None
    {
      approvalId := None;
    }

    /** Dropping the guard and running the removal it spawns. */
    method Drop()
      requires store.Valid()
      modifies this, store
      ensures approvalId == None && store.Valid()
      ensures store.State() == match old(approvalId) case Some(id) => Removed(old(store.State()), id)
                                                     case None => old(store.State())
    {
      match approvalId
      case Some(id) =>
        approvalId := None;
        store.Remove(id);
      case None =>
    }
  }
}
