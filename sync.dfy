/**
 * The audit-record dispatch engine (SyncService): the routing table built
 * by its constructor, the verb switch, and the per-record pipeline run by
 * ProcessAuditBatch over the pending batch and then the warning batch.
 *
 * The database's entity queries and the remote endpoint are oracles: each
 * answer may depend on everything the engine has called so far. Every fetch,
 * send and mark the engine performs is recorded, in order, in a trace of
 * calls, and the audit table's new rows are the old rows with the trace's
 * marks applied.
 */
module Sync {
  import opened Wrappers
  import opened Text
  import opened Models
  import opened AuditStore

  /** Retry limit used when the MaxRetryCount setting is missing or not an integer. */
  const DEFAULT_MAX_RETRY_COUNT: int := 3

  /** Repository queries the engine can invoke (one per `Get...DataAsync`). */
  datatype Fetcher =
    | GetDeviceData | GetKeyGroupData | GetPersonData | GetKeyData
    | GetReservationData | GetCredentialData

  /** Remote-endpoint operations the routing table can name. */
  datatype Sender =
    | SendDevice | SendKeyGroup | SendPerson | UpdateKeyName
    | AssignOrUnassignKey | AssignOrUnassignKeyInGroup | AssignOrUnassignPersonInGroup
    | SendReservation | SendCredential

  /** A routing entry: an optional fetch and the send. */
  datatype ActionMapping = ActionMapping(getData: Option<Fetcher>, sendData: Sender)

  datatype HttpMethod = Post | Put | Delete

  /** What a repository query does: a row, no row (null), or an exception. */
  datatype FetchReply = Found(data: Payload) | NotFound | FetchFaulted

  /** What a send does: true, false, or an exception. */
  datatype SendReply = Accepted | Rejected | SendFaulted

  /** One collaborator call the engine makes. */
  datatype Call =
    | FetchCall(fetcher: Fetcher, objectId: Option<string>)
    | SendCall(sender: Sender, data: Option<Payload>, verb: HttpMethod)
    | MarkCall(auditId: int, mark: Mark)

  /** The repository, answering a query given the calls made before it. */
  type FetchOracle = (seq<Call>, Fetcher, Option<string>) -> FetchReply

  /** The remote endpoint, answering a send given the calls made before it. */
  type SendOracle = (seq<Call>, Sender, Option<Payload>, HttpMethod) -> SendReply

  // ---------------------------------------------------------------------
  // Configuration and routing

  /** `int.TryParse(MaxRetryCount)`, falling back to 3. */
  function RetryLimit(setting: Option<string>): (limit: int)
    ensures TryParseInt(setting).Some? ==> limit == TryParseInt(setting).value
    ensures TryParseInt(setting).None? ==> limit == DEFAULT_MAX_RETRY_COUNT
    ensures IsInt32(limit)
  {
    match TryParseInt(setting)
    case Some(n) => n
    case None => DEFAULT_MAX_RETRY_COUNT
  }

  /** The nine routed object types; "PERSON" is not among them. */
  function RoutingTable(): (table: map<string, ActionMapping>)
    ensures table.Keys == {"DEVICE", "KEYGROUP", "USER", "KEY", "KEYUSER",
                           "KEYGROUPKEY", "KEYGROUPUSER", "RESERVATION", "CREDENTIAL"}
    ensures forall k :: k in table ==> IsUpper(k)
  {
    map[
      "DEVICE" := ActionMapping(Some(GetDeviceData), SendDevice),
      "KEYGROUP" := ActionMapping(Some(GetKeyGroupData), SendKeyGroup),
      "USER" := ActionMapping(Some(GetPersonData), SendPerson),
      "KEY" := ActionMapping(Some(GetKeyData), UpdateKeyName),
      "KEYUSER" := ActionMapping(None, AssignOrUnassignKey),
      "KEYGROUPKEY" := ActionMapping(None, AssignOrUnassignKeyInGroup),
      "KEYGROUPUSER" := ActionMapping(None, AssignOrUnassignPersonInGroup),
      "RESERVATION" := ActionMapping(Some(GetReservationData), SendReservation),
      "CREDENTIAL" := ActionMapping(None, SendCredential)
    ]
  }

  predicate UpperKeys(table: map<string, ActionMapping>) {
    forall k :: k in table ==> IsUpper(k)
  }

  /**
   * `TryGetValue` on a dictionary built with StringComparer.OrdinalIgnoreCase
   * whose keys are all upper case: look up the upper-cased key.
   */
  function TryGetMapping(table: map<string, ActionMapping>, key: string): (r: Option<ActionMapping>)
    requires UpperKeys(table)
    ensures r.Some? ==> Upper(key) in table && r.value == table[Upper(key)]
  {
    if Upper(key) in table then Some(table[Upper(key)]) else None
  }

  /** The lookup of a record's object type; null is looked up as "". */
  function Route(objectType: Option<string>): (r: Option<ActionMapping>)
    ensures r.Some? ==> objectType.Some? && Upper(objectType.value) in RoutingTable() &&
                        r.value == RoutingTable()[Upper(objectType.value)]
  {
    TryGetMapping(RoutingTable(), objectType.GetOr(""))
  }

  /** The `switch` on the upper-cased action type. */
  function HttpMethodFor(actionTypeUpper: Option<string>): (verb: HttpMethod) {
    match actionTypeUpper
    case Some("CREATE") => Post
    case Some("INSERT") => Post
    case Some("UPDATE") => Put
    case Some("DELETE") => Delete
    case _ => Post
  }

  // ---------------------------------------------------------------------
  // The calls made for one record

  predicate RetriesExhausted(maxRetry: int, a: AuditRecord) {
    a.status == WARNING && a.retryCount >= maxRetry
  }

  /** Send `data`, then mark processed on true and warning on false or an exception. */
  function SendAndMark(sender: Sender, data: Option<Payload>, verb: HttpMethod, id: int,
                       h: seq<Call>, send: SendOracle): (calls: seq<Call>)
    ensures |calls| == 2 && calls[0] == SendCall(sender, data, verb)
    ensures calls[1].MarkCall? && calls[1].auditId == id
    ensures calls[1].mark == MarkProcessed <==> send(h, sender, data, verb) == Accepted
    ensures calls[1].mark == MarkWarning <==> send(h, sender, data, verb) != Accepted
  {
    [SendCall(sender, data, verb)] +
      match send(h, sender, data, verb)
      case Accepted => [MarkCall(id, MarkProcessed)]
      case Rejected => [MarkCall(id, MarkWarning)]
      case SendFaulted => [MarkCall(id, MarkWarning)]
  }

  /**
   * The calls the try-block makes for a routed record: build the payload
   * (delete-by-identity, inline from the audit ids, or fetched), pick the
   * verb, send and mark. `h` is the trace before the record.
   */
  function PipelineCalls(mapping: ActionMapping, a: AuditRecord, h: seq<Call>,
                         fetch: FetchOracle, send: SendOracle): seq<Call>
  {
    var objectTypeUpper := UpperOpt(a.objectType);
    var actionTypeUpper := UpperOpt(a.actionType);
    var verb := HttpMethodFor(actionTypeUpper);
    var sender := mapping.sendData;
    if (objectTypeUpper == Some("USER") || objectTypeUpper == Some("PERSON")) && actionTypeUpper == Some("DELETE") then
      SendAndMark(sender, Some(PersonPayload(PersonWithOwner(a.objectId))), verb, a.id, h, send)
    else if objectTypeUpper == Some("KEYGROUPKEY") then
      if IsNullOrEmpty(a.objectId) || IsNullOrEmpty(a.additionalId) then [MarkCall(a.id, MarkWarning)]
      else SendAndMark(sender, Some(KeyGroupKeyPayload(KeyGroupKey(a.additionalId, [a.objectId.value]))), verb, a.id, h, send)
    else if objectTypeUpper == Some("KEYGROUPUSER") then
      if IsNullOrEmpty(a.additionalId) || IsNullOrEmpty(a.objectId) then [MarkCall(a.id, MarkWarning)]
      else SendAndMark(sender, Some(KeyGroupUserPayload(KeyGroupUser(a.additionalId, [a.objectId.value]))), verb, a.id, h, send)
    else if objectTypeUpper == Some("KEYUSER") then
      if IsNullOrEmpty(a.additionalId) || IsNullOrEmpty(a.objectId) then []
      else SendAndMark(sender, Some(KeyUserPayload(KeyUser(a.additionalId, [a.objectId.value]))), verb, a.id, h, send)
    else if objectTypeUpper == Some("CREDENTIAL") && actionTypeUpper == Some("DELETE") then
      SendAndMark(sender, Some(CredentialPayload(CredentialData(a.additionalId, a.objectId, None))), verb, a.id, h, send)
    else if objectTypeUpper == Some("CREDENTIAL") && (actionTypeUpper == Some("INSERT") || actionTypeUpper == Some("UPDATE")) then
      // fetched directly; a null result is still sent
      var f := FetchCall(GetCredentialData, a.objectId);
      match fetch(h, GetCredentialData, a.objectId)
      case FetchFaulted => [f, MarkCall(a.id, MarkWarning)]
      case NotFound => [f] + SendAndMark(sender, None, verb, a.id, h + [f], send)
      case Found(p) => [f] + SendAndMark(sender, Some(p), verb, a.id, h + [f], send)
    else
      match mapping.getData
      case None => [MarkCall(a.id, MarkWarning)]
      case Some(g) =>
        var f := FetchCall(g, a.objectId);
        match fetch(h, g, a.objectId)
        case FetchFaulted => [f, MarkCall(a.id, MarkWarning)]
        case NotFound => [f, MarkCall(a.id, MarkWarning)]
        case Found(p) => [f] + SendAndMark(sender, Some(p), verb, a.id, h + [f], send)
  }

  /** The calls made for one audit record of a batch: retry gate, routing, pipeline. */
  function RecordCalls(maxRetry: int, a: AuditRecord, h: seq<Call>,
                       fetch: FetchOracle, send: SendOracle): seq<Call>
  {
    if RetriesExhausted(maxRetry, a) then [MarkCall(a.id, MarkFailed)]
    else
      match Route(a.objectType)
      case None => [MarkCall(a.id, MarkWarning)]
      case Some(mapping) => PipelineCalls(mapping, a, h, fetch, send)
  }

  /** The calls made for a batch, record by record in list order. */
  function BatchCalls(maxRetry: int, audits: seq<AuditRecord>, h: seq<Call>,
                      fetch: FetchOracle, send: SendOracle): seq<Call>
  {
    if audits == [] then []
    else
      var earlier := BatchCalls(maxRetry, audits[..|audits| - 1], h, fetch, send);
      earlier + RecordCalls(maxRetry, audits[|audits| - 1], h + earlier, fetch, send)
  }

  /** The audit table after the marks among `calls`, in order; fetches and sends leave it alone. */
  function ApplyMarks(rows: seq<AuditRecord>, calls: seq<Call>): (rows': seq<AuditRecord>)
    ensures |rows'| == |rows|
  {
    if calls == [] then rows
    else
      var before := ApplyMarks(rows, calls[..|calls| - 1]);
      var last := calls[|calls| - 1];
      if last.MarkCall? then MarkRows(before, last.auditId, last.mark) else before
  }

  /** The calls of a cycle's first pass: the pending batch read from `rows`. */
  function PendingPass(maxRetry: int, rows: seq<AuditRecord>, h: seq<Call>,
                       fetch: FetchOracle, send: SendOracle): seq<Call>
  {
    BatchCalls(maxRetry, SelectByStatus(rows, PENDING, BATCH_LIMIT), h, fetch, send)
  }

  /** The warning batch a cycle reads once the pending pass has marked the table. */
  function WarningBatch(maxRetry: int, rows: seq<AuditRecord>, h: seq<Call>,
                        fetch: FetchOracle, send: SendOracle): seq<AuditRecord>
  {
    SelectByStatus(ApplyMarks(rows, PendingPass(maxRetry, rows, h, fetch, send)), WARNING, BATCH_LIMIT)
  }

  /** One SyncAsync cycle: the pending batch, then the warning batch read afterwards. */
  function CycleCalls(maxRetry: int, rows: seq<AuditRecord>, h: seq<Call>,
                      fetch: FetchOracle, send: SendOracle): seq<Call>
  {
    var pending := PendingPass(maxRetry, rows, h, fetch, send);
    pending + BatchCalls(maxRetry, WarningBatch(maxRetry, rows, h, fetch, send), h + pending, fetch, send)
  }

  lemma ApplyMarksSnoc(rows: seq<AuditRecord>, calls: seq<Call>, c: Call)
    ensures ApplyMarks(rows, calls + [c]) ==
      if c.MarkCall? then MarkRows(ApplyMarks(rows, calls), c.auditId, c.mark) else ApplyMarks(rows, calls)
  {
    assert (calls + [c])[..|calls|] == calls;
  }

  /** Fetches and sends before a mark do not change what the mark does. */
  lemma ApplyMarksAfterCalls(rows: seq<AuditRecord>, pre: seq<Call>, c: Call)
    requires forall i :: 0 <= i < |pre| ==> !pre[i].MarkCall?
    requires c.MarkCall?
    ensures ApplyMarks(rows, pre + [c]) == MarkRows(rows, c.auditId, c.mark)
  {
    ApplyMarksSnoc(rows, pre, c);
    NoMarksApplyNothing(rows, pre);
  }

  lemma {:induction false} NoMarksApplyNothing(rows: seq<AuditRecord>, calls: seq<Call>)
    requires forall i :: 0 <= i < |calls| ==> !calls[i].MarkCall?
    ensures ApplyMarks(rows, calls) == rows
  {
    if calls != [] {
      NoMarksApplyNothing(rows, calls[..|calls| - 1]);
    }
  }

  lemma {:induction false} ApplyMarksAppend(rows: seq<AuditRecord>, xs: seq<Call>, ys: seq<Call>)
    ensures ApplyMarks(rows, xs + ys) == ApplyMarks(ApplyMarks(rows, xs), ys)
    decreases |ys|
  {
    if ys == [] {
      assert xs + ys == xs;
    } else {
      var ys' := ys[..|ys| - 1];
      assert (xs + ys)[..|xs + ys| - 1] == xs + ys';
      assert (xs + ys)[|xs + ys| - 1] == ys[|ys| - 1];
      ApplyMarksAppend(rows, xs, ys');
    }
  }

  // ---------------------------------------------------------------------
  // The service

  class SyncService {
    const maxRetryCount: int
    const mappings: map<string, ActionMapping> := RoutingTable()

    constructor (maxRetrySetting: Option<string>)
      ensures maxRetryCount == RetryLimit(maxRetrySetting)
    {
      var parsed := TryParseInt(maxRetrySetting);
      if parsed.Some? {
        maxRetryCount := parsed.value;
      } else {
        maxRetryCount := DEFAULT_MAX_RETRY_COUNT;
      }
    }

    /**
     * Process a batch in list order. `history` is the trace before the batch;
     * `calls` is what the batch adds to it.
     */
    method ProcessAuditBatch(db: AuditTable, audits: seq<AuditRecord>, history: seq<Call>,
                             fetch: FetchOracle, send: SendOracle) returns (calls: seq<Call>)
      modifies db
      ensures calls == BatchCalls(maxRetryCount, audits, history, fetch, send)
      ensures db.rows == ApplyMarks(old(db.rows), calls)
    {
      calls := [];
      var i := 0;
      while i < |audits|
        invariant 0 <= i <= |audits|
        invariant calls == BatchCalls(maxRetryCount, audits[..i], history, fetch, send)
        invariant db.rows == ApplyMarks(old(db.rows), calls)
      {
        assert audits[..i + 1][..i] == audits[..i];
        var recordCalls := ProcessAudit(db, audits[i], history + calls, fetch, send);
        ApplyMarksAppend(old(db.rows), calls, recordCalls);
        calls := calls + recordCalls;
        i := i + 1;
      }
      assert audits[..i] == audits;
    }

    /**
     * The body of the batch loop for one record; each `return` is one of the
     * loop's `continue`s. `h` is the trace before the record.
     */
    method ProcessAudit(db: AuditTable, audit: AuditRecord, h: seq<Call>,
                        fetch: FetchOracle, send: SendOracle) returns (calls: seq<Call>)
      modifies db
      ensures calls == RecordCalls(maxRetryCount, audit, h, fetch, send)
      ensures db.rows == ApplyMarks(old(db.rows), calls)
    {
      if audit.status == WARNING && audit.retryCount >= maxRetryCount {
        db.MarkAuditAsFailed(audit.id);
        calls := [MarkCall(audit.id, MarkFailed)];
        return;
      }

      var found := TryGetMapping(mappings, audit.objectType.GetOr(""));
      if found.None? {
        db.MarkAuditAsWarning(audit.id);
        calls := [MarkCall(audit.id, MarkWarning)];
        return;
      }
      var mapping := found.value;
      calls := Pipeline(db, mapping, audit, h, fetch, send);
    }

    /** The try-block of the loop body for a routed record. */
    method Pipeline(db: AuditTable, mapping: ActionMapping, audit: AuditRecord, h: seq<Call>,
                    fetch: FetchOracle, send: SendOracle) returns (calls: seq<Call>)
      modifies db
      ensures calls == PipelineCalls(mapping, audit, h, fetch, send)
      ensures db.rows == ApplyMarks(old(db.rows), calls)
    {
      var data: Option<Payload> := None;
      var skipDataFetch := false;
      var objectTypeUpper := UpperOpt(audit.objectType);
      var actionTypeUpper := UpperOpt(audit.actionType);
      calls := [];

      if (objectTypeUpper == Some("USER") || objectTypeUpper == Some("PERSON")) && actionTypeUpper == Some("DELETE") {
        data := Some(PersonPayload(PersonWithOwner(audit.objectId)));
        skipDataFetch := true;
      } else if objectTypeUpper == Some("KEYGROUPKEY") {
        if IsNullOrEmpty(audit.objectId) || IsNullOrEmpty(audit.additionalId) {
          db.MarkAuditAsWarning(audit.id);
          calls := [MarkCall(audit.id, MarkWarning)];
          return;
        }
        data := Some(KeyGroupKeyPayload(KeyGroupKey(audit.additionalId, [audit.objectId.value])));
        skipDataFetch := true;
      } else if objectTypeUpper == Some("KEYGROUPUSER") {
        if IsNullOrEmpty(audit.additionalId) || IsNullOrEmpty(audit.objectId) {
          db.MarkAuditAsWarning(audit.id);
          calls := [MarkCall(audit.id, MarkWarning)];
          return;
        }
        data := Some(KeyGroupUserPayload(KeyGroupUser(audit.additionalId, [audit.objectId.value])));
        skipDataFetch := true;
      } else if objectTypeUpper == Some("KEYUSER") {
        if IsNullOrEmpty(audit.additionalId) || IsNullOrEmpty(audit.objectId) {
          // no mark: the row is left as it is
          return;
        }
        data := Some(KeyUserPayload(KeyUser(audit.additionalId, [audit.objectId.value])));
        skipDataFetch := true;
      } else if objectTypeUpper == Some("CREDENTIAL") {
        if actionTypeUpper == Some("DELETE") {
          data := Some(CredentialPayload(CredentialData(audit.additionalId, audit.objectId, None)));
          skipDataFetch := true;
        } else if actionTypeUpper == Some("INSERT") || actionTypeUpper == Some("UPDATE") {
          var reply := fetch(h, GetCredentialData, audit.objectId);
          calls := [FetchCall(GetCredentialData, audit.objectId)];
          if reply.FetchFaulted? {
            // the exception is caught: mark warning
            db.MarkAuditAsWarning(audit.id);
            ApplyMarksAfterCalls(old(db.rows), calls, MarkCall(audit.id, MarkWarning));
            calls := calls + [MarkCall(audit.id, MarkWarning)];
            return;
          }
          data := if reply.Found? then Some(reply.data) else None;
          skipDataFetch := true;
        }
      }

      if !skipDataFetch {
        if mapping.getData.None? {
          db.MarkAuditAsWarning(audit.id);
          calls := [MarkCall(audit.id, MarkWarning)];
          return;
        }
        var getData := mapping.getData.value;
        var reply := fetch(h, getData, audit.objectId);
        calls := [FetchCall(getData, audit.objectId)];
        if reply.FetchFaulted? {
          db.MarkAuditAsWarning(audit.id);
          ApplyMarksAfterCalls(old(db.rows), calls, MarkCall(audit.id, MarkWarning));
          calls := calls + [MarkCall(audit.id, MarkWarning)];
          return;
        }
        data := if reply.Found? then Some(reply.data) else None;
      }

      if data.None? && !skipDataFetch {
        db.MarkAuditAsWarning(audit.id);
        ApplyMarksAfterCalls(old(db.rows), calls, MarkCall(audit.id, MarkWarning));
        calls := calls + [MarkCall(audit.id, MarkWarning)];
        return;
      }

      var verb := HttpMethodFor(actionTypeUpper);
      var success := send(h + calls, mapping.sendData, data, verb);
      ghost var fetched := calls;
      assert fetched == [] ==> h + fetched == h;
      calls := calls + [SendCall(mapping.sendData, data, verb)];
      var mark := MarkWarning;
      if success == Accepted {
        db.MarkAuditProcessed(audit.id);
        mark := MarkProcessed;
      } else {
        // false, or an exception caught by the catch block
        db.MarkAuditAsWarning(audit.id);
      }
      calls := calls + [MarkCall(audit.id, mark)];
      assert calls == fetched + SendAndMark(mapping.sendData, data, verb, audit.id, h + fetched, send);
      ApplyMarksAfterCalls(old(db.rows), fetched + [SendCall(mapping.sendData, data, verb)], MarkCall(audit.id, mark));
    }

    /** One audit cycle: the pending batch, then the warning batch. */
    method SyncAsync(db: AuditTable, history: seq<Call>, fetch: FetchOracle, send: SendOracle)
      returns (calls: seq<Call>)
      modifies db
      ensures calls == CycleCalls(maxRetryCount, old(db.rows), history, fetch, send)
      ensures db.rows == ApplyMarks(old(db.rows), calls)
    {
      var pendingAudits := db.GetPendingAuditRecords();
      var pendingCalls := ProcessAuditBatch(db, pendingAudits, history, fetch, send);
      var warningAudits := db.GetWarningAuditRecords();
      var warningCalls := ProcessAuditBatch(db, warningAudits, history + pendingCalls, fetch, send);
      calls := pendingCalls + warningCalls;
      ApplyMarksAppend(old(db.rows), pendingCalls, warningCalls);
    }
  }
}
