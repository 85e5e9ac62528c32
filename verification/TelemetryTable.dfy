/** What the statements of the request log leave in its table (telemetry.rs). */
module TelemetryTable {
  import opened Wrappers
  import opened Telemetry

  /** A row's status, latency and extra data. */
  datatype LogRow = LogRow(status: nat, latencyMs: nat, extra: map<string, string>)

  type Table = map<string, LogRow>

  // ── What a statement does ─────────────────────────────────────────────

  /** New rows; ids are unique, so no row takes another's place. */
  function InsertRows(t: Table, rows: seq<RequestEvent>): Table
    decreases |rows|
  {
    if rows == [] then t
    else
      var e := rows[0];
      InsertRows(if e.logId.Some? && e.logId.value !in t
                 then t[e.logId.value := LogRow(e.status, e.latencyMs, map[])] else t,
                 rows[1..])
  }

  /** The members an update merges into the extra data. */
  function ExtraFields(extra: Extra): map<string, string> {
    match extra
    case Approved(id, triggered, resolved) =>
      map["decision" := "approval_approved", "approval_id" := id,
          "triggered_at" := triggered, "resolved_at" := resolved]
    case Denied(id, reason, triggered, resolved) =>
      map["decision" := "approval_denied", "approval_id" := id, "approval_reason" := reason,
          "triggered_at" := triggered, "resolved_at" := resolved]
    case Nothing => map[]
  }

  function Execute(t: Table, statement: Statement): Table {
    match statement
    case Insert(rows) => InsertRows(t, rows)
    case Update(id, status, latencyMs, extra) =>
      if id in t then t[id := LogRow(status, latencyMs, t[id].extra + ExtraFields(extra))] else t
  }

  function Executed(t: Table, statements: seq<Statement>): Table
    decreases |statements|
  {
    if statements == [] then t else Executed(Execute(t, statements[0]), statements[1..])
  }

  lemma {:induction false} ExecutedConcat(t: Table, a: seq<Statement>, b: seq<Statement>)
    ensures Executed(t, a + b) == Executed(Executed(t, a), b)
    decreases |a|
  {
    if a == [] {
      assert a + b == b;
    } else {
      assert (a + b)[1..] == a[1..] + b;
      ExecutedConcat(Execute(t, a[0]), a[1..], b);
    }
  }

  lemma {:induction false} InsertKeeps(t: Table, rows: seq<RequestEvent>)
    ensures forall id | id in t :: id in InsertRows(t, rows) && InsertRows(t, rows)[id] == t[id]
    ensures forall e | e in rows && e.logId.Some? :: e.logId.value in InsertRows(t, rows)
    decreases |rows|
  {
    if rows != [] {
      var e := rows[0];
      var u := if e.logId.Some? && e.logId.value !in t
               then t[e.logId.value := LogRow(e.status, e.latencyMs, map[])] else t;
      InsertKeeps(u, rows[1..]);
      assert forall f :: f in rows <==> f == e || f in rows[1..];
    }
  }

  /** A row once inserted stays in the table. */
  lemma {:induction false} RowsStay(t: Table, statements: seq<Statement>)
    ensures forall id | id in t :: id in Executed(t, statements)
    ensures forall e | e in Inserted(statements) && e.logId.Some? :: e.logId.value in Executed(t, statements)
    decreases |statements|
  {
    if statements != [] {
      RowsStay(Execute(t, statements[0]), statements[1..]);
      if statements[0].Insert? {
        InsertKeeps(t, statements[0].rows);
      }
    }
  }

  /** The row shows what the event says. */
  ghost predicate Shows(t: Table, id: string, event: RequestEvent) {
    && id in t && t[id].status == event.status && t[id].latencyMs == event.latencyMs
    && (event.decision.ApprovalApproved? ==>
          && Member(t[id], "decision", "approval_approved")
          && Member(t[id], "approval_id", event.decision.approvalId)
          && Member(t[id], "triggered_at", event.decision.triggeredAt)
          && Member(t[id], "resolved_at", event.decision.resolvedAt))
    && (event.decision.ApprovalDenied? ==>
          && Member(t[id], "decision", "approval_denied")
          && Member(t[id], "approval_id", event.decision.approvalId)
          && Member(t[id], "approval_reason", event.decision.reason)
          && Member(t[id], "triggered_at", event.decision.triggeredAt)
          && Member(t[id], "resolved_at", event.decision.resolvedAt))
  }

  predicate Member(row: LogRow, key: string, value: string) {
    key in row.extra && row.extra[key] == value
  }

  lemma UpdateShows(t: Table, id: string, event: RequestEvent)
    requires id in t && event.existingLogId == Some(id)
    ensures Shows(Execute(t, UpdateOf(event)), id, event)
  {
  }

  /** What a row shows stays as long as no other event names it. */
  lemma {:induction false} ShownStays(t: Table, statements: seq<Statement>, id: string, event: RequestEvent)
    requires Shows(t, id, event) && event.existingLogId == Some(id)
    requires forall b | 0 <= b < |statements| && statements[b].Update? && statements[b].logId == id ::
               statements[b] == UpdateOf(event)
    ensures Shows(Executed(t, statements), id, event)
    decreases |statements|
  {
    if statements != [] {
      var u := Execute(t, statements[0]);
      if statements[0].Insert? {
        InsertKeeps(t, statements[0].rows);
      } else if statements[0].logId == id {
        UpdateShows(t, id, event);
      }
      ShownStays(u, statements[1..], id, event);
    }
  }

  // ── Events and rows ───────────────────────────────────────────────────

  /** Rows are made of exactly the events that name none and were injected into or not simply allowed. */
  lemma {:induction false} RowsIff(events: seq<RequestEvent>, e: RequestEvent)
    ensures e in RowsOf(events) <==> e in events && e.existingLogId == None && (e.injected || e.decision != Allowed)
  {
    if events != [] {
      RowsIff(events[1..], e);
      assert e in events <==> e == events[0] || e in events[1..];
    }
  }

  lemma {:induction false} UpdateIsSent(events: seq<RequestEvent>, j: nat)
    requires j < |events| && events[j].existingLogId.Some?
    ensures UpdateOf(events[j]) in UpdatesOf(events)
  {
    if j > 0 {
      UpdateIsSent(events[1..], j - 1);
    }
  }

  lemma {:induction false} UpdatedIsThere(statements: seq<Statement>, u: Statement) returns (b: nat)
    requires u in Updated(statements)
    ensures b < |statements| && statements[b] == u && u.Update?
  {
    if statements[0].Update? && statements[0] == u {
      b := 0;
    } else {
      var c := UpdatedIsThere(statements[1..], u);
      b := c + 1;
    }
  }

  /** Only the event at `j` names the row, so every update of it is that event's. */
  lemma OneUpdate(batches: seq<seq<RequestEvent>>, j: nat, id: string, b: nat)
    requires j < |StreamOf(batches)| && StreamOf(batches)[j].existingLogId == Some(id)
    requires forall k | 0 <= k < |StreamOf(batches)| && StreamOf(batches)[k].existingLogId == Some(id) :: k == j
    requires b < |AllStatements(batches)| && AllStatements(batches)[b].Update?
    requires AllStatements(batches)[b].logId == id
    ensures AllStatements(batches)[b] == UpdateOf(StreamOf(batches)[j])
  {
    var k := UpdateComesAfterRows(batches, b);
  }

  lemma UpdateLasts(before: seq<Statement>, after: seq<Statement>, id: string, row: RequestEvent, event: RequestEvent)
    requires row in Inserted(before) && row.logId == Some(id) && event.existingLogId == Some(id)
    requires forall c | 0 <= c < |after| && after[c].Update? && after[c].logId == id :: after[c] == UpdateOf(event)
    ensures Shows(Executed(map[], before + ([UpdateOf(event)] + after)), id, event)
  {
    var t, rest := Executed(map[], before), [UpdateOf(event)] + after;
    ExecutedConcat(map[], before, rest);
    RowsStay(map[], before);
    UpdateShows(t, id, event);
    assert rest[1..] == after;
    ShownStays(Execute(t, UpdateOf(event)), after, id, event);
  }

  lemma LaterUpdates(batches: seq<seq<RequestEvent>>, j: nat, id: string, b: nat)
    requires j < |StreamOf(batches)| && StreamOf(batches)[j].existingLogId == Some(id)
    requires forall k | 0 <= k < |StreamOf(batches)| && StreamOf(batches)[k].existingLogId == Some(id) :: k == j
    requires b < |AllStatements(batches)|
    ensures var after := AllStatements(batches)[b + 1..];
            forall c | 0 <= c < |after| && after[c].Update? && after[c].logId == id ::
              after[c] == UpdateOf(StreamOf(batches)[j])
  {
    var all := AllStatements(batches);
    var after := all[b + 1..];
    forall c | 0 <= c < |after| && after[c].Update? && after[c].logId == id
      ensures after[c] == UpdateOf(StreamOf(batches)[j])
    {
      assert after[c] == all[b + 1 + c];
      OneUpdate(batches, j, id, b + 1 + c);
    }
  }

  lemma UpdateInStatements(batches: seq<seq<RequestEvent>>, j: nat) returns (b: nat)
    requires j < |StreamOf(batches)| && StreamOf(batches)[j].existingLogId.Some?
    ensures b < |AllStatements(batches)| && AllStatements(batches)[b] == UpdateOf(StreamOf(batches)[j])
  {
    ExactlyOnceInOrder(batches);
    UpdateIsSent(StreamOf(batches), j);
    b := UpdatedIsThere(AllStatements(batches), UpdateOf(StreamOf(batches)[j]));
  }

  lemma CutOut<T>(s: seq<T>, b: nat)
    requires b < |s|
    ensures s == s[..b] + ([s[b]] + s[b + 1..])
  {
  }

  /** An approval that was logged as pending and then answered is in the table with the answer: the status
      and latency of the later event, and its decision, approval, reason and times in the extra data,
      however the stream was cut into batches. */
  lemma AnswerIsRecorded(batches: seq<seq<RequestEvent>>, i: nat, j: nat, id: string)
    requires i < j < |StreamOf(batches)|
    requires var e := StreamOf(batches)[i];
             e.existingLogId.None? && e.decision.ApprovalPending? && e.logId == Some(id)
    requires StreamOf(batches)[j].existingLogId == Some(id)
    requires forall k | 0 <= k < |StreamOf(batches)| && StreamOf(batches)[k].existingLogId == Some(id) :: k == j
    ensures Shows(Executed(map[], AllStatements(batches)), id, StreamOf(batches)[j])
  {
    var stream, all := StreamOf(batches), AllStatements(batches);
    var b := UpdateInStatements(batches, j);
    UpdateFindsItsRow(stream, batches, i, id, b);
    LaterUpdates(batches, j, id, b);
    CutOut(all, b);
    UpdateLasts(all[..b], all[b + 1..], id, stream[i], stream[j]);
  }
}
