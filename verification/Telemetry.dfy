/** The request log: events pass through a bounded channel, are drained in batches and written to
    the database (telemetry_core.rs and telemetry.rs). */
module Telemetry {
  import opened Wrappers

  const FLUSH_BATCH_SIZE: nat := 500
  const CHANNEL_CAPACITY: nat := 10_000
  const MAX_PATH_LEN: nat := 2048

  datatype RequestDecision =
    | Allowed
    | Blocked(ruleName: string)
    | RateLimited(ruleName: string)
    | ApprovalPending(approvalId: string, triggeredAt: string)
    | ApprovalDenied(approvalId: string, reason: string, triggeredAt: string, resolvedAt: string)
    | ApprovalApproved(approvalId: string, triggeredAt: string, resolvedAt: string)
    | BlockedByDefaultPolicy

  datatype RequestEvent = RequestEvent(
    path: string, status: nat, latencyMs: nat, injected: bool, decision: RequestDecision,
    existingLogId: Option<string>, logId: Option<string>)

  /** What an update adds to a row's extra data. */
  datatype Extra =
    | Approved(approvalId: string, triggeredAt: string, resolvedAt: string)
    | Denied(approvalId: string, reason: string, triggeredAt: string, resolvedAt: string)
    | Nothing

  /** A statement sent to the database. */
  datatype Statement =
    | Insert(rows: seq<RequestEvent>)
    | Update(logId: string, status: nat, latencyMs: nat, extra: Extra)

  // ── The channel ───────────────────────────────────────────────────────

  function Truncated(event: RequestEvent): RequestEvent {
    event.(path := if |event.path| > MAX_PATH_LEN then event.path[..MAX_PATH_LEN] else event.path)
  }

  /** Only the path is cut, to its first 2048 characters. */
  lemma PathIsCut(event: RequestEvent)
    ensures var t := Truncated(event);
            && t.path <= event.path && |t.path| == (if |event.path| < 2048 then |event.path| else 2048)
            && t.(path := event.path) == event
  {
  }

  /** How many of the offered events a queue of length `n` still takes. */
  function Taken(n: nat, offered: nat): nat {
    if n >= CHANNEL_CAPACITY then 0
    else if offered <= CHANNEL_CAPACITY - n then offered
    else CHANNEL_CAPACITY - n
  }

  function TruncatedAll(events: seq<RequestEvent>): seq<RequestEvent> {
    seq(|events|, i requires 0 <= i < |events| => Truncated(events[i]))
  }

  datatype Received = Got(event: RequestEvent) | Closed | Empty

  class Channel {
    var queue: seq<RequestEvent>
    var open: bool
    // Everything the channel ever took in, and everything it handed out.
    ghost var accepted: seq<RequestEvent>
    ghost var delivered: seq<RequestEvent>

    ghost predicate Valid()
      reads this
    {
      && accepted == delivered + queue
      && |queue| <= CHANNEL_CAPACITY
      && forall i | 0 <= i < |accepted| :: |accepted[i].path| <= MAX_PATH_LEN
    }

    constructor ()
      ensures Valid() && open && accepted == []
    {
      queue, open, accepted, delivered := [], true, [], [];
    }

    /** Takes the event with its path cut, or drops it when the channel is full. */
    method OnRequest(event: RequestEvent)
      requires Valid()
      modifies this
      ensures Valid() && delivered == old(delivered) && open == old(open)
      ensures accepted == old(accepted)
                          + if old(open && |queue| < CHANNEL_CAPACITY) then [Truncated(event)] else []
    {
      if open && |queue| < CHANNEL_CAPACITY {
        queue := queue + [Truncated(event)];
        accepted := accepted + [Truncated(event)];
      }
    }

    /** The events of concurrent requests, one after another: as many as fit are taken. */
    method OnRequests(events: seq<RequestEvent>)
      requires Valid()
      modifies this
      ensures Valid() && delivered == old(delivered) && open == old(open)
      ensures accepted
           == old(accepted)
              + if open then TruncatedAll(events[..Taken(|old(queue)|, |events|)]) else []
    {
      var i := 0;
      while i < |events|
        invariant 0 <= i <= |events|
        invariant Valid() && delivered == old(delivered) && open == old(open)
        invariant accepted
               == old(accepted) + if open then TruncatedAll(events[..Taken(|old(queue)|, i)]) else []
        invariant open ==> |queue| == |old(queue)| + Taken(|old(queue)|, i)
      {
        OnRequest(events[i]);
        i := i + 1;
      }
    }

    /** Hands out the oldest event. */
    method TryRecv() returns (r: Received)
      requires Valid()
      modifies this
      ensures Valid() && accepted == old(accepted) && open == old(open)
      ensures old(queue) == [] ==> r == (if open then Empty else Closed) && unchanged(this)
      ensures old(queue) != [] ==> r == Got(old(queue)[0]) && delivered == old(delivered) + [r.event]
    {
      if queue == [] {
        return if open then Empty else Closed;
      }
      r := Got(queue[0]);
      delivered := delivered + [queue[0]];
      queue := queue[1..];
    }
  }

  // ── What a batch becomes ──────────────────────────────────────────────

  function Filter(keep: RequestEvent -> bool, events: seq<RequestEvent>): seq<RequestEvent> {
    if events == [] then []
    else if keep(events[0]) then [events[0]] + Filter(keep, events[1..])
    else Filter(keep, events[1..])
  }

  predicate Updating(event: RequestEvent) { event.existingLogId.Some? }

  predicate Regular(event: RequestEvent) { event.existingLogId.None? }

  predicate Logged(event: RequestEvent) {
    event.injected || event.decision != Allowed
  }

  /** The event becomes a row of its own. */
  predicate MakesRow(event: RequestEvent) {
    Regular(event) && Logged(event)
  }

  function ExtraOf(decision: RequestDecision): Extra {
    match decision
    case ApprovalApproved(id, triggered, resolved) => Approved(id, triggered, resolved)
    case ApprovalDenied(id, reason, triggered, resolved) => Denied(id, reason, triggered, resolved)
    case _ => Nothing
  }

  function UpdateOf(event: RequestEvent): Statement
    requires event.existingLogId.Some?
  {
    Update(event.existingLogId.value, event.status, event.latencyMs, ExtraOf(event.decision))
  }

  function UpdatesOf(events: seq<RequestEvent>): seq<Statement> {
    if events == [] then []
    else if Updating(events[0]) then [UpdateOf(events[0])] + UpdatesOf(events[1..])
    else UpdatesOf(events[1..])
  }

  /** The rows a stream of events puts into the table, in order. */
  function RowsOf(events: seq<RequestEvent>): seq<RequestEvent> {
    Filter(MakesRow, events)
  }

  /** One insert, unless it would be empty. */
  function InsertOf(rows: seq<RequestEvent>): seq<Statement> {
    if rows == [] then [] else [Insert(rows)]
  }

  /** The insert and then the updates. */
  function BatchStatements(batch: seq<RequestEvent>): seq<Statement> {
    InsertOf(RowsOf(batch)) + UpdatesOf(batch)
  }

  function StreamOf(batches: seq<seq<RequestEvent>>): seq<RequestEvent> {
    if batches == [] then [] else StreamOf(batches[..|batches| - 1]) + batches[|batches| - 1]
  }

  function AllStatements(batches: seq<seq<RequestEvent>>): seq<Statement> {
    if batches == [] then []
    else AllStatements(batches[..|batches| - 1]) + BatchStatements(batches[|batches| - 1])
  }

  /** No batch is empty and none exceeds the batch size. */
  predicate AllFit(batches: seq<seq<RequestEvent>>) {
    forall i | 0 <= i < |batches| :: 0 < |batches[i]| <= FLUSH_BATCH_SIZE
  }

  // ── The worker ────────────────────────────────────────────────────────

  /** What happens around one round of the worker: the requests logged while it waits for a first
      event, whether the senders go away then, and the requests logged before each later receive. */
  datatype Round = Round(waiting: seq<RequestEvent>, closes: bool, draining: nat -> seq<RequestEvent>)

  class FlushWorker {
    const rx: Channel
    var buffer: seq<RequestEvent>
    // The statements sent to the database, in order.
    var statements: seq<Statement>
    ghost var batches: seq<seq<RequestEvent>>

    /** Every event handed out by the channel is in a written batch or in the buffer. */
    ghost predicate Valid()
      reads this, rx
    {
      && rx.Valid()
      && rx.delivered == StreamOf(batches) + buffer
      && statements == AllStatements(batches)
      && AllFit(batches)
    }

    constructor (rx: Channel)
      requires rx.Valid() && rx.delivered == []
      ensures Valid() && this.rx == rx && buffer == [] && batches == []
    {
      this.rx := rx;
      buffer, statements, batches := [], [], [];
    }

    /** Drains what is available; false means the channel is closed and empty. */
    method CollectBatch(round: Round) returns (more: bool)
      requires Valid()
      modifies this`buffer, rx
      ensures Valid()
      ensures old(buffer) <= buffer
      ensures buffer == [] || |buffer| <= FLUSH_BATCH_SIZE || |buffer| <= |old(buffer)| + 1
      ensures !more ==> buffer == old(buffer) && !rx.open && rx.queue == []
      // A batch is cut short only by an empty channel.
      ensures |old(buffer)| < |buffer| < FLUSH_BATCH_SIZE ==> rx.queue == []
      ensures more && buffer == old(buffer) ==> rx.queue == []
      ensures old(rx.accepted) <= rx.accepted
    {
      rx.OnRequests(round.waiting);
      if round.closes {
        rx.open := false;
      }
      var first := rx.TryRecv();
      match first {
        case Closed => return false;
        case Empty => return true;
        case Got(event) => TakeIn(event);
      }
      DrainAvailable(round.draining);
      return true;
    }

    method DrainAvailable(draining: nat -> seq<RequestEvent>)
      requires Valid()
      modifies this`buffer, rx
      ensures Valid()
      ensures old(buffer) <= buffer
      ensures |buffer| <= FLUSH_BATCH_SIZE || buffer == old(buffer)
      ensures |buffer| < FLUSH_BATCH_SIZE ==> rx.queue == []
      ensures old(rx.accepted) <= rx.accepted
    {
      var i := 0;
      while |buffer| < FLUSH_BATCH_SIZE
        invariant Valid() && old(buffer) <= buffer
        invariant |buffer| <= FLUSH_BATCH_SIZE || buffer == old(buffer)
        invariant old(rx.accepted) <= rx.accepted
      {
        rx.OnRequests(draining(i));
        var next := rx.TryRecv();
        if !next.Got? {
          break;
        }
        TakeIn(next.event);
        i := i + 1;
      }
    }

    /** One received event goes to the end of the buffer. */
    method TakeIn(event: RequestEvent)
      requires rx.Valid() && rx.delivered == StreamOf(batches) + buffer + [event]
      requires statements == AllStatements(batches) && AllFit(batches)
      modifies this`buffer
      ensures Valid() && buffer == old(buffer) + [event]
    {
      buffer := buffer + [event];
      assert StreamOf(batches) + buffer == StreamOf(batches) + old(buffer) + [event];
    }

    method InsertBatch(regular: seq<RequestEvent>)
      modifies this`statements
      ensures statements == old(statements) + InsertOf(Filter(Logged, regular))
    {
      var filtered := Filter(Logged, regular);
      if filtered == [] {
        return;
      }
      statements := statements + [Insert(filtered)];
    }

    method UpdateBatch(updates: seq<RequestEvent>)
      modifies this`statements
      ensures statements == old(statements) + UpdatesOf(updates)
    {
      var i := 0;
      assert updates[0..] == updates;
      while i < |updates|
        invariant 0 <= i <= |updates|
        invariant statements + UpdatesOf(updates[i..]) == old(statements) + UpdatesOf(updates)
      {
        var event := updates[i];
        assert updates[i..][1..] == updates[i + 1..];
        i := i + 1;
        if event.existingLogId.None? {
          continue;
        }
        statements := statements + [UpdateOf(event)];
      }
      assert updates[i..] == [];
    }

    method Partition() returns (updates: seq<RequestEvent>, regular: seq<RequestEvent>)
      modifies this`buffer
      ensures buffer == []
      ensures updates == Filter(Updating, old(buffer)) && regular == Filter(Regular, old(buffer))
    {
      updates, regular := [], [];
      while buffer != []
        invariant updates + Filter(Updating, buffer) == Filter(Updating, old(buffer))
        invariant regular + Filter(Regular, buffer) == Filter(Regular, old(buffer))
        decreases |buffer|
      {
        var event := buffer[0];
        if event.existingLogId.Some? {
          updates := updates + [event];
        } else {
          regular := regular + [event];
        }
        buffer := buffer[1..];
      }
    }

    /** Empties the buffer into the database: new rows first, then the updates. */
    method FlushBatch()
      requires Valid() && 0 < |buffer| <= FLUSH_BATCH_SIZE
      modifies this
      ensures Valid() && buffer == []
      ensures batches == old(batches) + [old(buffer)]
    {
      ghost var batch := buffer;
      var updates, regular := Partition();
      RegularRows(batch);
      UpdatesOfUpdating(batch);
      WriteBatch(regular, updates);
      OneMoreBatch(batches, batch);
      batches := batches + [batch];
    }

    method WriteBatch(regular: seq<RequestEvent>, updates: seq<RequestEvent>)
      modifies this`statements
      ensures statements == old(statements) + (InsertOf(Filter(Logged, regular)) + UpdatesOf(updates))
    {
      InsertBatch(regular);
      if updates != [] {
        UpdateBatch(updates);
      }
    }

    /** The worker's loop over any rounds, up to the one in which the channel is found closed. */
    method FlushLoop(rounds: seq<Round>) returns (stopped: bool)
      requires Valid() && buffer == []
      modifies this, rx
      ensures Valid() && buffer == []
      ensures rx.accepted == StreamOf(batches) + rx.queue
      ensures old(batches) <= batches
      ensures stopped ==> !rx.open && StreamOf(batches) == rx.accepted
    {
      stopped := false;
      var i := 0;
      while i < |rounds|
        invariant Valid() && buffer == [] && old(batches) <= batches
      {
        var more := CollectBatch(rounds[i]);
        i := i + 1;
        if !more {
          stopped := true;
          break;
        }
        if buffer == [] {
          continue;
        }
        FlushBatch();
      }
    }
  }

  lemma {:induction false} UpdatesOfUpdating(events: seq<RequestEvent>)
    ensures UpdatesOf(Filter(Updating, events)) == UpdatesOf(events)
  {
    if events != [] {
      UpdatesOfUpdating(events[1..]);
      if Updating(events[0]) {
        assert Filter(Updating, events)[1..] == Filter(Updating, events[1..]);
      }
    }
  }

  lemma {:induction false} RegularRows(events: seq<RequestEvent>)
    ensures Filter(Logged, Filter(Regular, events)) == RowsOf(events)
  {
    if events != [] {
      RegularRows(events[1..]);
      if Regular(events[0]) {
        assert Filter(Regular, events)[1..] == Filter(Regular, events[1..]);
      }
    }
  }

  lemma OneMoreBatch(batches: seq<seq<RequestEvent>>, batch: seq<RequestEvent>)
    requires AllFit(batches) && 0 < |batch| <= FLUSH_BATCH_SIZE
    ensures StreamOf(batches + [batch]) == StreamOf(batches) + batch
    ensures AllStatements(batches + [batch]) == AllStatements(batches) + BatchStatements(batch)
    ensures AllFit(batches + [batch])
  {
    assert (batches + [batch])[..|batches|] == batches;
  }

  // ── Exactly once, in order ────────────────────────────────────────────

  /** The rows of all inserts, in order. */
  function Inserted(statements: seq<Statement>): seq<RequestEvent> {
    if statements == [] then []
    else if statements[0].Insert? then statements[0].rows + Inserted(statements[1..])
    else Inserted(statements[1..])
  }

  function Updated(statements: seq<Statement>): seq<Statement> {
    if statements == [] then []
    else if statements[0].Update? then [statements[0]] + Updated(statements[1..])
    else Updated(statements[1..])
  }

  lemma {:induction false} RowsConcat(a: seq<RequestEvent>, b: seq<RequestEvent>)
    ensures RowsOf(a + b) == RowsOf(a) + RowsOf(b)
  {
    if a == [] {
      assert a + b == b;
    } else {
      RowsConcat(a[1..], b);
      assert (a + b)[1..] == a[1..] + b;
    }
  }

  lemma {:induction false} UpdatesConcat(a: seq<RequestEvent>, b: seq<RequestEvent>)
    ensures UpdatesOf(a + b) == UpdatesOf(a) + UpdatesOf(b)
  {
    if a == [] {
      assert a + b == b;
    } else {
      UpdatesConcat(a[1..], b);
      assert (a + b)[1..] == a[1..] + b;
    }
  }

  lemma {:induction false} InsertedConcat(a: seq<Statement>, b: seq<Statement>)
    ensures Inserted(a + b) == Inserted(a) + Inserted(b)
  {
    if a == [] {
      assert a + b == b;
    } else {
      InsertedConcat(a[1..], b);
      assert (a + b)[1..] == a[1..] + b;
      if a[0].Insert? {
        assert a[0].rows + (Inserted(a[1..]) + Inserted(b)) == a[0].rows + Inserted(a[1..]) + Inserted(b);
      }
    }
  }

  lemma {:induction false} UpdatedConcat(a: seq<Statement>, b: seq<Statement>)
    ensures Updated(a + b) == Updated(a) + Updated(b)
  {
    if a == [] {
      assert a + b == b;
    } else {
      UpdatedConcat(a[1..], b);
      assert (a + b)[1..] == a[1..] + b;
    }
  }

  lemma {:induction false} UpdatesOnly(events: seq<RequestEvent>)
    ensures Inserted(UpdatesOf(events)) == [] && Updated(UpdatesOf(events)) == UpdatesOf(events)
  {
    if events != [] {
      UpdatesOnly(events[1..]);
      if Updating(events[0]) {
        assert UpdatesOf(events)[1..] == UpdatesOf(events[1..]);
      }
    }
  }

  lemma InsertOnly(rows: seq<RequestEvent>)
    ensures Inserted(InsertOf(rows)) == rows && Updated(InsertOf(rows)) == []
  {
    if rows != [] {
      assert InsertOf(rows)[1..] == [];
    }
  }

  lemma BatchEffects(batch: seq<RequestEvent>)
    ensures Inserted(BatchStatements(batch)) == RowsOf(batch)
    ensures Updated(BatchStatements(batch)) == UpdatesOf(batch)
  {
    UpdatesOnly(batch);
    InsertOnly(RowsOf(batch));
    InsertedConcat(InsertOf(RowsOf(batch)), UpdatesOf(batch));
    UpdatedConcat(InsertOf(RowsOf(batch)), UpdatesOf(batch));
  }

  /** However the stream is cut into batches, every event that makes a row is inserted once, every
      event that names a row updates it once, both in stream order. */
  lemma {:induction false} ExactlyOnceInOrder(batches: seq<seq<RequestEvent>>)
    ensures Inserted(AllStatements(batches)) == RowsOf(StreamOf(batches))
    ensures Updated(AllStatements(batches)) == UpdatesOf(StreamOf(batches))
  {
    if batches != [] {
      var front, last := batches[..|batches| - 1], batches[|batches| - 1];
      ExactlyOnceInOrder(front);
      BatchEffects(last);
      InsertedConcat(AllStatements(front), BatchStatements(last));
      UpdatedConcat(AllStatements(front), BatchStatements(last));
      RowsConcat(StreamOf(front), last);
      UpdatesConcat(StreamOf(front), last);
    }
  }

  // ── Updates find their rows ───────────────────────────────────────────

  /** The event behind the `u`-th update of a stream. */
  lemma {:induction false} EventOfUpdate(events: seq<RequestEvent>, u: nat) returns (j: nat)
    requires u < |UpdatesOf(events)|
    ensures j < |events| && events[j].existingLogId.Some? && UpdateOf(events[j]) == UpdatesOf(events)[u]
    ensures UpdatesOf(events[..j]) == UpdatesOf(events)[..u]
  {
    if Updating(events[0]) && u == 0 {
      j := 0;
    } else {
      var rest := events[1..];
      var k := EventOfUpdate(rest, if Updating(events[0]) then u - 1 else u);
      j := k + 1;
      assert events[..j][1..] == rest[..k];
    }
  }

  /** The statements hold the updates of the events, and at least their rows. */
  ghost predicate Precedes(events: seq<RequestEvent>, statements: seq<Statement>) {
    UpdatesOf(events) == Updated(statements) && RowsOf(events) <= Inserted(statements)
  }

  lemma PrecedesBehind(a: seq<RequestEvent>, x: seq<Statement>, b: seq<RequestEvent>, y: seq<Statement>)
    requires Inserted(x) == RowsOf(a) && Updated(x) == UpdatesOf(a) && Precedes(b, y)
    ensures Precedes(a + b, x + y)
  {
    InsertedConcat(x, y);
    UpdatedConcat(x, y);
    RowsConcat(a, b);
    UpdatesConcat(a, b);
    PrefixBehind(RowsOf(a), RowsOf(b), Inserted(y));
  }

  /** The statement at `b` is the update for the event at `j` of the stream: as many updates stand
      in front of either, and the rows of all events in front of `j` are inserted before `b`. */
  ghost predicate RowsFirst(stream: seq<RequestEvent>, statements: seq<Statement>, b: nat, j: nat)
    requires b < |statements| && j < |stream|
  {
    && Updating(stream[j]) && statements[b] == UpdateOf(stream[j])
    && Precedes(stream[..j], statements[..b])
  }

  lemma StillRowsFirst(stream: seq<RequestEvent>, statements: seq<Statement>, b: nat, j: nat,
                       more: seq<RequestEvent>, moreStatements: seq<Statement>)
    requires b < |statements| && j < |stream| && RowsFirst(stream, statements, b, j)
    ensures RowsFirst(stream + more, statements + moreStatements, b, j)
  {
    assert (statements + moreStatements)[..b] == statements[..b];
    assert (stream + more)[..j] == stream[..j];
  }

  /** An update in the statements of one batch comes after the batch's insert. */
  lemma UpdateInBatch(batch: seq<RequestEvent>, b: nat) returns (j: nat)
    requires b < |BatchStatements(batch)| && BatchStatements(batch)[b].Update?
    ensures j < |batch| && RowsFirst(batch, BatchStatements(batch), b, j)
  {
    var inserts := InsertOf(RowsOf(batch));
    var u := b - |inserts|;
    j := EventOfUpdate(batch, u);
    var before := UpdatesOf(batch[..j]);
    assert BatchStatements(batch)[..b] == inserts + before;
    InsertOnly(RowsOf(batch));
    UpdatesOnly(batch[..j]);
    InsertedConcat(inserts, before);
    UpdatedConcat(inserts, before);
    assert batch == batch[..j] + batch[j..];
    RowsConcat(batch[..j], batch[j..]);
  }

  lemma {:induction false} UpdateComesAfterRows(batches: seq<seq<RequestEvent>>, b: nat) returns (j: nat)
    requires b < |AllStatements(batches)| && AllStatements(batches)[b].Update?
    ensures j < |StreamOf(batches)| && RowsFirst(StreamOf(batches), AllStatements(batches), b, j)
    decreases |batches|
  {
    var front, last := batches[..|batches| - 1], batches[|batches| - 1];
    var head, tail := AllStatements(front), BatchStatements(last);
    if b < |head| {
      j := UpdateComesAfterRows(front, b);
      StillRowsFirst(StreamOf(front), head, b, j, last, tail);
    } else {
      var k := UpdateInBatch(last, b - |head|);
      j := |StreamOf(front)| + k;
      LaterBatch(front, last, b - |head|, k);
    }
  }

  lemma Shifted<T>(a: seq<T>, b: seq<T>, k: nat)
    requires k < |b|
    ensures (a + b)[..|a| + k] == a + b[..k] && (a + b)[|a| + k] == b[k]
  {
  }

  lemma RowsFirstShifted(before: seq<RequestEvent>, head: seq<Statement>,
                         stream: seq<RequestEvent>, statements: seq<Statement>, b: nat, k: nat)
    requires Inserted(head) == RowsOf(before) && Updated(head) == UpdatesOf(before)
    requires b < |statements| && k < |stream| && RowsFirst(stream, statements, b, k)
    ensures RowsFirst(before + stream, head + statements, |head| + b, |before| + k)
  {
    Shifted(head, statements, b);
    Shifted(before, stream, k);
    PrecedesBehind(before, head, stream[..k], statements[..b]);
  }

  lemma PrefixBehind(a: seq<RequestEvent>, b: seq<RequestEvent>, c: seq<RequestEvent>)
    requires b <= c
    ensures a + b <= a + c
  {
    assert a + c == a + b + c[|b|..];
  }

  lemma LaterBatch(front: seq<seq<RequestEvent>>, last: seq<RequestEvent>, b: nat, k: nat)
    requires b < |BatchStatements(last)| && k < |last| && RowsFirst(last, BatchStatements(last), b, k)
    ensures RowsFirst(StreamOf(front) + last, AllStatements(front) + BatchStatements(last),
                      |AllStatements(front)| + b, |StreamOf(front)| + k)
  {
    ExactlyOnceInOrder(front);
    RowsFirstShifted(StreamOf(front), AllStatements(front), last, BatchStatements(last), b, k);
  }

  lemma {:induction false} RowOf(events: seq<RequestEvent>, i: nat)
    requires i < |events| && MakesRow(events[i])
    ensures events[i] in RowsOf(events)
  {
    if i > 0 {
      RowOf(events[1..], i - 1);
    }
  }

  /** An approval's update is sent only after the insert of its pending row: the channel took the
      pending event at `i`, and only later events that name its row. */
  lemma UpdateFindsItsRow(accepted: seq<RequestEvent>, batches: seq<seq<RequestEvent>>, i: nat, id: string, b: nat)
    requires StreamOf(batches) <= accepted
    requires i < |accepted| && accepted[i].existingLogId.None?
    requires accepted[i].decision.ApprovalPending? && accepted[i].logId == Some(id)
    requires forall j | 0 <= j < |accepted| && accepted[j].existingLogId == Some(id) :: i < j
    requires b < |AllStatements(batches)| && AllStatements(batches)[b].Update?
    requires AllStatements(batches)[b].logId == id
    ensures accepted[i] in Inserted(AllStatements(batches)[..b])
  {
    var j := UpdateComesAfterRows(batches, b);
    var stream := StreamOf(batches);
    assert accepted[j] == stream[j] && accepted[j].existingLogId == Some(id);
    assert stream[..j][i] == accepted[i];
    RowOf(stream[..j], i);
  }
}
