/**
 * What the dispatch engine guarantees, stated over the specification
 * functions of module Sync: per record (retry gate, routing, the three
 * payload strategies, the verb switch, send-and-mark), per batch (order,
 * one mark per record) and on the audit table.
 */
module SyncProperties {
  import opened Wrappers
  import opened Text
  import opened Models
  import opened AuditStore
  import opened Sync

  predicate NoSend(calls: seq<Call>) {
    forall i :: 0 <= i < |calls| ==> !calls[i].SendCall?
  }

  predicate NoFetch(calls: seq<Call>) {
    forall i :: 0 <= i < |calls| ==> !calls[i].FetchCall?
  }

  predicate NoFailedMark(calls: seq<Call>) {
    forall i :: 0 <= i < |calls| ==> !(calls[i].MarkCall? && calls[i].mark == MarkFailed)
  }

  predicate NoMark(calls: seq<Call>) {
    forall i :: 0 <= i < |calls| ==> !calls[i].MarkCall?
  }

  // ---------------------------------------------------------------------
  // Configuration

  /** A missing MaxRetryCount setting gives the default of 3. */
  lemma RetryLimitMissing()
    ensures RetryLimit(None) == 3
  {
  }

  /** Every 32-bit integer, written in decimal, is taken as the limit. */
  lemma RetryLimitParsed(n: int)
    requires IsInt32(n)
    ensures RetryLimit(Some(FormatInt(n))) == n
  {
    ParseFormatRoundTrip(n);
  }

  /** A setting without a single digit (empty, blank, a word) is not an integer and gives 3. */
  lemma RetryLimitUnparsable(setting: string)
    requires forall i :: 0 <= i < |setting| ==> !IsDigit(setting[i])
    ensures RetryLimit(Some(setting)) == 3
  {
    var t := TrimEnd(TrimStart(setting));
    var start := |setting| - |TrimStart(setting)|;
    assert forall i :: 0 <= i < |t| ==> t[i] == setting[start + i];
    var ds := if |t| > 0 && (t[0] == '-' || t[0] == '+') then t[1..] else t;
    if ds != [] {
      assert !IsDigit(ds[0]);
    }
  }

  // ---------------------------------------------------------------------
  // Routing

  /** Case-insensitive dictionary lookup: found exactly when some key equals the key ignoring case. */
  lemma TryGetMappingIgnoresCase(table: map<string, ActionMapping>, key: string)
    requires UpperKeys(table)
    ensures TryGetMapping(table, key).Some? <==> exists k :: k in table && EqualsIgnoreCase(k, key)
    ensures forall k :: k in table && EqualsIgnoreCase(k, key) ==> TryGetMapping(table, key) == Some(table[k])
  {
    forall k | k in table
      ensures EqualsIgnoreCase(k, key) <==> k == Upper(key)
    {
      EqualsIgnoreCaseIffUpper(k, key);
      UpperOfUpper(k);
    }
    if Upper(key) in table {
      UpperOfUpper(Upper(key));
      assert EqualsIgnoreCase(Upper(key), key);
    }
  }

  /** A record's object type is routed exactly when it is one of the nine names, ignoring case; null is not. */
  lemma RouteKnownTypes(objectType: Option<string>)
    ensures Route(objectType).Some? <==>
      objectType.Some? && exists k :: k in RoutingTable() && EqualsIgnoreCase(k, objectType.value)
    ensures Route(objectType).Some? ==> UpperOpt(objectType).value in RoutingTable()
  {
    TryGetMappingIgnoresCase(RoutingTable(), objectType.GetOr(""));
    if objectType.None? {
      assert forall k :: k in RoutingTable() ==> !EqualsIgnoreCase(k, "");
    }
  }

  /** "PERSON", in any case, has no routing entry. */
  lemma PersonNotRouted(objectType: string)
    requires Upper(objectType) == "PERSON"
    ensures Route(Some(objectType)).None?
  {
  }

  // ---------------------------------------------------------------------
  // The verb switch

  /** UPDATE gives PUT, DELETE gives DELETE, everything else (null included) POST. */
  lemma HttpMethodTotal(actionTypeUpper: Option<string>)
    ensures HttpMethodFor(actionTypeUpper) == Put <==> actionTypeUpper == Some("UPDATE")
    ensures HttpMethodFor(actionTypeUpper) == Delete <==> actionTypeUpper == Some("DELETE")
    ensures HttpMethodFor(actionTypeUpper) == Post <==>
      actionTypeUpper != Some("UPDATE") && actionTypeUpper != Some("DELETE")
  {
  }

  /** On the audit's raw action type the switch ignores case. */
  lemma HttpMethodIgnoresCase(actionType: Option<string>)
    ensures HttpMethodFor(UpperOpt(actionType)) == Delete <==>
      actionType.Some? && EqualsIgnoreCase(actionType.value, "DELETE")
    ensures HttpMethodFor(UpperOpt(actionType)) == Put <==>
      actionType.Some? && EqualsIgnoreCase(actionType.value, "UPDATE")
  {
    if actionType.Some? {
      EqualsIgnoreCaseIffUpper(actionType.value, "DELETE");
      EqualsIgnoreCaseIffUpper(actionType.value, "UPDATE");
      UpperOfUpper("DELETE");
      UpperOfUpper("UPDATE");
    }
  }

  // ---------------------------------------------------------------------
  // One record

  /** The one case in which a record gets no call at all: a KEYUSER record missing an id. */
  predicate Skipped(maxRetry: int, a: AuditRecord) {
    !RetriesExhausted(maxRetry, a) && UpperOpt(a.objectType) == Some("KEYUSER")
    && (IsNullOrEmpty(a.additionalId) || IsNullOrEmpty(a.objectId))
  }

  /** A warning record at the retry limit is marked failed with no lookup, fetch or send. */
  lemma RetryGate(maxRetry: int, a: AuditRecord, h: seq<Call>, fetch: FetchOracle, send: SendOracle)
    requires a.status == WARNING && a.retryCount >= maxRetry
    ensures RecordCalls(maxRetry, a, h, fetch, send) == [MarkCall(a.id, MarkFailed)]
  {
  }

  /** A failed mark comes from the retry gate and nowhere else, so a pending record is never failed. */
  lemma FailedOnlyAtRetryLimit(maxRetry: int, a: AuditRecord, h: seq<Call>, fetch: FetchOracle, send: SendOracle)
    ensures var rc := RecordCalls(maxRetry, a, h, fetch, send);
      (exists i :: 0 <= i < |rc| && rc[i] == MarkCall(a.id, MarkFailed)) <==>
      a.status == WARNING && a.retryCount >= maxRetry
    ensures a.status == PENDING ==> NoFailedMark(RecordCalls(maxRetry, a, h, fetch, send))
  {
    var rc := RecordCalls(maxRetry, a, h, fetch, send);
    if RetriesExhausted(maxRetry, a) {
      assert rc[0] == MarkCall(a.id, MarkFailed);
    }
  }

  /** An object type with no routing entry (null included) is marked warning, with no fetch or send. */
  lemma UnroutedIsWarning(maxRetry: int, a: AuditRecord, h: seq<Call>, fetch: FetchOracle, send: SendOracle)
    requires !RetriesExhausted(maxRetry, a)
    requires a.objectType.None? || forall k :: k in RoutingTable() ==> !EqualsIgnoreCase(k, a.objectType.value)
    ensures RecordCalls(maxRetry, a, h, fetch, send) == [MarkCall(a.id, MarkWarning)]
  {
    RouteKnownTypes(a.objectType);
  }

  /** USER with DELETE sends a Person carrying only the identity, with no repository fetch. */
  lemma UserDeleteByIdentity(maxRetry: int, a: AuditRecord, h: seq<Call>, fetch: FetchOracle, send: SendOracle)
    requires !RetriesExhausted(maxRetry, a)
    requires UpperOpt(a.objectType) == Some("USER") && UpperOpt(a.actionType) == Some("DELETE")
    ensures var rc := RecordCalls(maxRetry, a, h, fetch, send);
      NoFetch(rc) && |rc| == 2 &&
      rc[0] == SendCall(SendPerson, Some(PersonPayload(PersonWithOwner(a.objectId))), Delete)
  {
    UpperOfUpper("USER");
    EqualsIgnoreCaseIffUpper("USER", a.objectType.value);
    RouteKnownTypes(a.objectType);
  }

  /** Group-to-key links are built from the audit ids: {GroupIdApi = Additional_ID, [Object_ID]}; no fetch. */
  lemma KeyGroupKeyInline(maxRetry: int, a: AuditRecord, h: seq<Call>, fetch: FetchOracle, send: SendOracle)
    requires !RetriesExhausted(maxRetry, a)
    requires UpperOpt(a.objectType) == Some("KEYGROUPKEY")
    ensures var rc := RecordCalls(maxRetry, a, h, fetch, send);
      NoFetch(rc) &&
      (if IsNullOrEmpty(a.objectId) || IsNullOrEmpty(a.additionalId) then rc == [MarkCall(a.id, MarkWarning)]
       else |rc| == 2 && rc[0] == SendCall(AssignOrUnassignKeyInGroup,
         Some(KeyGroupKeyPayload(KeyGroupKey(a.additionalId, [a.objectId.value]))),
         HttpMethodFor(UpperOpt(a.actionType))))
  {
    RouteKnownTypes(a.objectType);
  }

  /** Group-to-person links are built from the audit ids: {GroupIdApi = Additional_ID, [Object_ID]}; no fetch. */
  lemma KeyGroupUserInline(maxRetry: int, a: AuditRecord, h: seq<Call>, fetch: FetchOracle, send: SendOracle)
    requires !RetriesExhausted(maxRetry, a)
    requires UpperOpt(a.objectType) == Some("KEYGROUPUSER")
    ensures var rc := RecordCalls(maxRetry, a, h, fetch, send);
      NoFetch(rc) &&
      (if IsNullOrEmpty(a.objectId) || IsNullOrEmpty(a.additionalId) then rc == [MarkCall(a.id, MarkWarning)]
       else |rc| == 2 && rc[0] == SendCall(AssignOrUnassignPersonInGroup,
         Some(KeyGroupUserPayload(KeyGroupUser(a.additionalId, [a.objectId.value]))),
         HttpMethodFor(UpperOpt(a.actionType))))
  {
    RouteKnownTypes(a.objectType);
  }

  /**
   * Key-to-person links are built as {OwnerIdApi = Additional_ID, KeyIdExts = [Object_ID]};
   * a missing id makes no call at all, not even a mark.
   */
  lemma KeyUserInline(maxRetry: int, a: AuditRecord, h: seq<Call>, fetch: FetchOracle, send: SendOracle)
    requires !RetriesExhausted(maxRetry, a)
    requires UpperOpt(a.objectType) == Some("KEYUSER")
    ensures var rc := RecordCalls(maxRetry, a, h, fetch, send);
      if IsNullOrEmpty(a.objectId) || IsNullOrEmpty(a.additionalId) then rc == []
      else NoFetch(rc) && |rc| == 2 && rc[0] == SendCall(AssignOrUnassignKey,
        Some(KeyUserPayload(KeyUser(a.additionalId, [a.objectId.value]))),
        HttpMethodFor(UpperOpt(a.actionType)))
  {
    RouteKnownTypes(a.objectType);
  }

  /** CREDENTIAL with DELETE sends {Method = Additional_ID, Credential = Object_ID} with no fetch. */
  lemma CredentialDeleteInline(maxRetry: int, a: AuditRecord, h: seq<Call>, fetch: FetchOracle, send: SendOracle)
    requires !RetriesExhausted(maxRetry, a)
    requires UpperOpt(a.objectType) == Some("CREDENTIAL") && UpperOpt(a.actionType) == Some("DELETE")
    ensures var rc := RecordCalls(maxRetry, a, h, fetch, send);
      NoFetch(rc) && |rc| == 2 &&
      rc[0] == SendCall(SendCredential, Some(CredentialPayload(CredentialData(a.additionalId, a.objectId, None))), Delete)
  {
    RouteKnownTypes(a.objectType);
  }

  /**
   * CREDENTIAL with INSERT or UPDATE fetches the credential and sends whatever came back, a null
   * result included; only an exception from the fetch stops the send.
   */
  lemma CredentialUpsertSendsNull(maxRetry: int, a: AuditRecord, h: seq<Call>, fetch: FetchOracle, send: SendOracle)
    requires !RetriesExhausted(maxRetry, a)
    requires UpperOpt(a.objectType) == Some("CREDENTIAL")
    requires UpperOpt(a.actionType) == Some("INSERT") || UpperOpt(a.actionType) == Some("UPDATE")
    ensures var rc := RecordCalls(maxRetry, a, h, fetch, send);
      var reply := fetch(h, GetCredentialData, a.objectId);
      rc[0] == FetchCall(GetCredentialData, a.objectId) &&
      (reply.FetchFaulted? ==> rc == [rc[0], MarkCall(a.id, MarkWarning)]) &&
      (reply.NotFound? ==> |rc| == 3 && rc[1] == SendCall(SendCredential, None, HttpMethodFor(UpperOpt(a.actionType)))) &&
      (reply.Found? ==> |rc| == 3 && rc[1] == SendCall(SendCredential, Some(reply.data), HttpMethodFor(UpperOpt(a.actionType))))
  {
    RouteKnownTypes(a.objectType);
  }

  /** CREDENTIAL with any other action has no fetch function and is marked warning. */
  lemma CredentialOtherActionIsWarning(maxRetry: int, a: AuditRecord, h: seq<Call>, fetch: FetchOracle, send: SendOracle)
    requires !RetriesExhausted(maxRetry, a)
    requires UpperOpt(a.objectType) == Some("CREDENTIAL")
    requires UpperOpt(a.actionType) !in {Some("DELETE"), Some("INSERT"), Some("UPDATE")}
    ensures RecordCalls(maxRetry, a, h, fetch, send) == [MarkCall(a.id, MarkWarning)]
  {
    RouteKnownTypes(a.objectType);
  }

  /** The types whose payload comes from the repository, with the query each uses. */
  predicate FetchedType(objectTypeUpper: string, actionTypeUpper: Option<string>, g: Fetcher) {
    (objectTypeUpper == "DEVICE" && g == GetDeviceData)
    || (objectTypeUpper == "KEYGROUP" && g == GetKeyGroupData)
    || (objectTypeUpper == "USER" && actionTypeUpper != Some("DELETE") && g == GetPersonData)
    || (objectTypeUpper == "KEY" && g == GetKeyData)
    || (objectTypeUpper == "RESERVATION" && g == GetReservationData)
  }

  /**
   * Fetched types query the repository with Object_ID; a null result or an exception marks
   * warning and sends nothing; a row is sent as it came.
   */
  lemma FetchedTypes(maxRetry: int, a: AuditRecord, h: seq<Call>, fetch: FetchOracle, send: SendOracle, g: Fetcher)
    requires !RetriesExhausted(maxRetry, a)
    requires a.objectType.Some? && FetchedType(Upper(a.objectType.value), UpperOpt(a.actionType), g)
    ensures var rc := RecordCalls(maxRetry, a, h, fetch, send);
      var reply := fetch(h, g, a.objectId);
      rc[0] == FetchCall(g, a.objectId) &&
      (reply.Found? <==> !NoSend(rc)) &&
      (!reply.Found? ==> rc == [rc[0], MarkCall(a.id, MarkWarning)]) &&
      (reply.Found? ==> |rc| == 3 && rc[1] == SendCall(RoutingTable()[Upper(a.objectType.value)].sendData,
                                                       Some(reply.data), HttpMethodFor(UpperOpt(a.actionType))))
  {
    RouteKnownTypes(a.objectType);
    var rc := RecordCalls(maxRetry, a, h, fetch, send);
    if fetch(h, g, a.objectId).Found? {
      assert rc[1].SendCall?;
    }
  }

  /**
   * The shape of every record's calls: nothing at all exactly when the record is skipped;
   * otherwise at most one fetch, then at most one send, then exactly one mark, of this
   * record's id, as the last call.
   */
  lemma RecordCallsShape(maxRetry: int, a: AuditRecord, h: seq<Call>, fetch: FetchOracle, send: SendOracle)
    ensures var rc := RecordCalls(maxRetry, a, h, fetch, send);
      (rc == [] <==> Skipped(maxRetry, a)) &&
      |rc| <= 3 &&
      (rc != [] ==> rc[|rc| - 1].MarkCall? && rc[|rc| - 1].auditId == a.id && NoMark(rc[..|rc| - 1])) &&
      (forall i :: 0 < i < |rc| ==> !rc[i].FetchCall?) &&
      (forall i :: 0 <= i < |rc| && rc[i].SendCall? ==> i == |rc| - 2)
  {
    RouteKnownTypes(a.objectType);
    var rc := RecordCalls(maxRetry, a, h, fetch, send);
    forall i | 0 <= i < |rc| && rc[i].SendCall?
      ensures i == |rc| - 2
    {
      SendDecidesMark(maxRetry, a, h, fetch, send, i);
    }
  }

  /**
   * A send decides the mark: the send is the call just before the mark, and the mark is
   * processed when the send returned true and warning when it returned false or threw.
   */
  lemma SendDecidesMark(maxRetry: int, a: AuditRecord, h: seq<Call>, fetch: FetchOracle, send: SendOracle, j: int)
    requires var rc := RecordCalls(maxRetry, a, h, fetch, send); 0 <= j < |rc| && rc[j].SendCall?
    ensures var rc := RecordCalls(maxRetry, a, h, fetch, send);
      j == |rc| - 2 &&
      rc[j + 1] == MarkCall(a.id,
        if send(h + rc[..j], rc[j].sender, rc[j].data, rc[j].verb) == Accepted then MarkProcessed else MarkWarning)
  {
    RouteKnownTypes(a.objectType);
    var rc := RecordCalls(maxRetry, a, h, fetch, send);
    assert j == 0 ==> h + rc[..j] == h;
  }

  /** A record is marked processed only right after a send that returned true. */
  lemma ProcessedOnlyAfterAcceptedSend(maxRetry: int, a: AuditRecord, h: seq<Call>, fetch: FetchOracle, send: SendOracle)
    requires var rc := RecordCalls(maxRetry, a, h, fetch, send); rc != [] && rc[|rc| - 1] == MarkCall(a.id, MarkProcessed)
    ensures var rc := RecordCalls(maxRetry, a, h, fetch, send);
      var j := |rc| - 2;
      j >= 0 && rc[j].SendCall? && send(h + rc[..j], rc[j].sender, rc[j].data, rc[j].verb) == Accepted
  {
    RouteKnownTypes(a.objectType);
    var rc := RecordCalls(maxRetry, a, h, fetch, send);
    assert |rc| == 2 ==> h + rc[..0] == h;
  }

  // ---------------------------------------------------------------------
  // A batch

  /** The audit ids the marks among `calls` name, in call order. */
  function MarkIds(calls: seq<Call>): seq<int> {
    if calls == [] then []
    else
      var last := calls[|calls| - 1];
      MarkIds(calls[..|calls| - 1]) + if last.MarkCall? then [last.auditId] else []
  }

  /** The ids of the records of a batch that are not skipped, in list order. */
  function UnskippedIds(maxRetry: int, audits: seq<AuditRecord>): seq<int> {
    if audits == [] then []
    else
      var last := audits[|audits| - 1];
      UnskippedIds(maxRetry, audits[..|audits| - 1]) + if Skipped(maxRetry, last) then [] else [last.id]
  }

  lemma {:induction false} MarkIdsAppend(xs: seq<Call>, ys: seq<Call>)
    ensures MarkIds(xs + ys) == MarkIds(xs) + MarkIds(ys)
    decreases |ys|
  {
    if ys == [] {
      assert xs + ys == xs;
    } else {
      var ys' := ys[..|ys| - 1];
      assert (xs + ys)[..|xs + ys| - 1] == xs + ys';
      MarkIdsAppend(xs, ys');
    }
  }

  lemma {:induction false} MarkIdsOfNoMark(calls: seq<Call>)
    requires NoMark(calls)
    ensures MarkIds(calls) == []
  {
    if calls != [] {
      MarkIdsOfNoMark(calls[..|calls| - 1]);
    }
  }

  /** One record's calls mark its own id once, or nothing when it is skipped. */
  lemma RecordMarkIds(maxRetry: int, a: AuditRecord, h: seq<Call>, fetch: FetchOracle, send: SendOracle)
    ensures MarkIds(RecordCalls(maxRetry, a, h, fetch, send)) == if Skipped(maxRetry, a) then [] else [a.id]
  {
    var rc := RecordCalls(maxRetry, a, h, fetch, send);
    RecordCallsShape(maxRetry, a, h, fetch, send);
    if rc != [] {
      var pre := rc[..|rc| - 1];
      assert rc == pre + [rc[|rc| - 1]];
      MarkIdsOfNoMark(pre);
      MarkIdsAppend(pre, [rc[|rc| - 1]]);
    }
  }

  /**
   * Records are handled in list order and each gets at most one mark: the marks of a batch
   * name exactly the ids of its records that are not skipped, in list order.
   */
  lemma {:induction false} BatchMarksInOrder(maxRetry: int, audits: seq<AuditRecord>, h: seq<Call>,
                                            fetch: FetchOracle, send: SendOracle)
    ensures MarkIds(BatchCalls(maxRetry, audits, h, fetch, send)) == UnskippedIds(maxRetry, audits)
  {
    if audits != [] {
      var earlier := audits[..|audits| - 1];
      var e := BatchCalls(maxRetry, earlier, h, fetch, send);
      BatchMarksInOrder(maxRetry, earlier, h, fetch, send);
      MarkIdsAppend(e, RecordCalls(maxRetry, audits[|audits| - 1], h + e, fetch, send));
      RecordMarkIds(maxRetry, audits[|audits| - 1], h + e, fetch, send);
    }
  }

  /** The calls of a batch whose records have all reached the retry limit: one failed mark each. */
  function FailAll(audits: seq<AuditRecord>): (calls: seq<Call>)
    ensures |calls| == |audits|
  {
    if audits == [] then [] else FailAll(audits[..|audits| - 1]) + [MarkCall(audits[|audits| - 1].id, MarkFailed)]
  }

  /** A batch of exhausted records is failed record by record, and nothing is fetched or sent. */
  lemma {:induction false} ExhaustedBatchFails(maxRetry: int, audits: seq<AuditRecord>, h: seq<Call>,
                                              fetch: FetchOracle, send: SendOracle)
    requires forall k :: 0 <= k < |audits| ==> audits[k].status == WARNING && audits[k].retryCount >= maxRetry
    ensures BatchCalls(maxRetry, audits, h, fetch, send) == FailAll(audits)
    ensures NoSend(FailAll(audits)) && NoFetch(FailAll(audits))
  {
    if audits != [] {
      ExhaustedBatchFails(maxRetry, audits[..|audits| - 1], h, fetch, send);
    }
  }

  /** No record of the pending batch is ever marked failed. */
  lemma {:induction false} PendingBatchNeverFails(maxRetry: int, audits: seq<AuditRecord>, h: seq<Call>,
                                                 fetch: FetchOracle, send: SendOracle)
    requires forall k :: 0 <= k < |audits| ==> audits[k].status == PENDING
    ensures NoFailedMark(BatchCalls(maxRetry, audits, h, fetch, send))
  {
    if audits != [] {
      var earlier := audits[..|audits| - 1];
      var e := BatchCalls(maxRetry, earlier, h, fetch, send);
      PendingBatchNeverFails(maxRetry, earlier, h, fetch, send);
      FailedOnlyAtRetryLimit(maxRetry, audits[|audits| - 1], h + e, fetch, send);
      var rc := RecordCalls(maxRetry, audits[|audits| - 1], h + e, fetch, send);
      assert BatchCalls(maxRetry, audits, h, fetch, send) == e + rc;
      assert audits[|audits| - 1].status == PENDING;
      forall i | 0 <= i < |e + rc|
        ensures !((e + rc)[i].MarkCall? && (e + rc)[i].mark == MarkFailed)
      {
        if i >= |e| {
          assert (e + rc)[i] == rc[i - |e|];
        } else {
          assert (e + rc)[i] == e[i];
        }
      }
    }
  }

  // ---------------------------------------------------------------------
  // The audit table

  /** One row after the marks among `calls` that name its id, in order. */
  function RowAfter(r: AuditRecord, calls: seq<Call>): (r': AuditRecord)
    ensures r'.id == r.id
  {
    if calls == [] then r
    else
      var before := RowAfter(r, calls[..|calls| - 1]);
      var c := calls[|calls| - 1];
      if c.MarkCall? && c.auditId == r.id then Marked(before, c.mark) else before
  }

  /** Marks update rows one by one: row i of the new table is row i after the marks of its id. */
  lemma {:induction false} ApplyMarksPointwise(rows: seq<AuditRecord>, calls: seq<Call>, i: int)
    requires 0 <= i < |rows|
    ensures ApplyMarks(rows, calls)[i] == RowAfter(rows[i], calls)
  {
    if calls != [] {
      ApplyMarksPointwise(rows, calls[..|calls| - 1], i);
    }
  }

  lemma {:induction false} RowAfterAppend(r: AuditRecord, xs: seq<Call>, ys: seq<Call>)
    ensures RowAfter(r, xs + ys) == RowAfter(RowAfter(r, xs), ys)
    decreases |ys|
  {
    if ys == [] {
      assert xs + ys == xs;
    } else {
      var ys' := ys[..|ys| - 1];
      assert (xs + ys)[..|xs + ys| - 1] == xs + ys';
      RowAfterAppend(r, xs, ys');
    }
  }

  lemma {:induction false} RowAfterUnmarked(r: AuditRecord, calls: seq<Call>)
    requires r.id !in MarkIds(calls)
    ensures RowAfter(r, calls) == r
  {
    if calls != [] {
      var pre := calls[..|calls| - 1];
      assert MarkIds(calls) == MarkIds(pre) + if calls[|calls| - 1].MarkCall? then [calls[|calls| - 1].auditId] else [];
      RowAfterUnmarked(r, pre);
    }
  }

  /** A record's calls change only its own row, by its one mark. */
  lemma RowAfterRecord(maxRetry: int, a: AuditRecord, h: seq<Call>, fetch: FetchOracle, send: SendOracle, r: AuditRecord)
    ensures var rc := RecordCalls(maxRetry, a, h, fetch, send);
      if Skipped(maxRetry, a) || r.id != a.id then RowAfter(r, rc) == r
      else rc != [] && rc[|rc| - 1].MarkCall? && RowAfter(r, rc) == Marked(r, rc[|rc| - 1].mark)
  {
    var rc := RecordCalls(maxRetry, a, h, fetch, send);
    RecordCallsShape(maxRetry, a, h, fetch, send);
    if rc != [] {
      var pre := rc[..|rc| - 1];
      MarkIdsOfNoMark(pre);
      RowAfterUnmarked(r, pre);
    }
  }

  /** Only ids of the batch's own records are marked. */
  lemma {:induction false} UnskippedIdsFromBatch(maxRetry: int, audits: seq<AuditRecord>, x: int)
    requires forall k :: 0 <= k < |audits| ==> audits[k].id != x
    ensures x !in UnskippedIds(maxRetry, audits)
  {
    if audits != [] {
      UnskippedIdsFromBatch(maxRetry, audits[..|audits| - 1], x);
    }
  }

  /** A row that no record of the batch names (or only a skipped one) is left exactly as it was. */
  lemma BatchFrame(maxRetry: int, audits: seq<AuditRecord>, h: seq<Call>, fetch: FetchOracle, send: SendOracle,
                   rows: seq<AuditRecord>, i: int)
    requires 0 <= i < |rows|
    requires forall k :: 0 <= k < |audits| ==> audits[k].id != rows[i].id || Skipped(maxRetry, audits[k])
    ensures ApplyMarks(rows, BatchCalls(maxRetry, audits, h, fetch, send))[i] == rows[i]
  {
    var calls := BatchCalls(maxRetry, audits, h, fetch, send);
    ApplyMarksPointwise(rows, calls, i);
    BatchMarksInOrder(maxRetry, audits, h, fetch, send);
    if rows[i].id in UnskippedIds(maxRetry, audits) {
      UnskippedIdsHaveRecord(maxRetry, audits, rows[i].id);
    }
    RowAfterUnmarked(rows[i], calls);
  }

  lemma {:induction false} UnskippedIdsHaveRecord(maxRetry: int, audits: seq<AuditRecord>, x: int)
    requires x in UnskippedIds(maxRetry, audits)
    ensures exists k :: 0 <= k < |audits| && audits[k].id == x && !Skipped(maxRetry, audits[k])
  {
    var n := |audits|;
    if x !in UnskippedIds(maxRetry, audits[..n - 1]) {
      assert audits[n - 1].id == x && !Skipped(maxRetry, audits[n - 1]);
    } else {
      UnskippedIdsHaveRecord(maxRetry, audits[..n - 1], x);
      var k :| 0 <= k < n - 1 && audits[..n - 1][k].id == x && !Skipped(maxRetry, audits[..n - 1][k]);
      assert audits[k] == audits[..n - 1][k];
    }
  }

  predicate DistinctIds(audits: seq<AuditRecord>) {
    forall j, l :: 0 <= j < l < |audits| ==> audits[j].id != audits[l].id
  }

  lemma {:induction false} RowAfterPendingBatch(maxRetry: int, audits: seq<AuditRecord>, h: seq<Call>,
                                               fetch: FetchOracle, send: SendOracle, r: AuditRecord, k: int)
    requires forall j :: 0 <= j < |audits| ==> audits[j].status == PENDING
    requires DistinctIds(audits)
    requires 0 <= k < |audits| && r.id == audits[k].id
    ensures var after := RowAfter(r, BatchCalls(maxRetry, audits, h, fetch, send));
      if Skipped(maxRetry, audits[k]) then after == r
      else after == Marked(r, MarkProcessed) || after == Marked(r, MarkWarning)
  {
    var n := |audits|;
    var earlier := audits[..n - 1];
    var last := audits[n - 1];
    var e := BatchCalls(maxRetry, earlier, h, fetch, send);
    var rc := RecordCalls(maxRetry, last, h + e, fetch, send);
    assert BatchCalls(maxRetry, audits, h, fetch, send) == e + rc;
    RowAfterAppend(r, e, rc);
    if k == n - 1 {
      BatchMarksInOrder(maxRetry, earlier, h, fetch, send);
      assert forall j :: 0 <= j < |earlier| ==> earlier[j].id == audits[j].id != audits[n - 1].id;
      UnskippedIdsFromBatch(maxRetry, earlier, r.id);
      RowAfterUnmarked(r, e);
      RowAfterRecord(maxRetry, last, h + e, fetch, send, r);
      FailedOnlyAtRetryLimit(maxRetry, last, h + e, fetch, send);
      if !Skipped(maxRetry, last) {
        assert rc[|rc| - 1].MarkCall? && rc[|rc| - 1].mark != MarkFailed;
      }
    } else {
      assert earlier[k] == audits[k];
      RowAfterPendingBatch(maxRetry, earlier, h, fetch, send, r, k);
      RowAfterRecord(maxRetry, last, h + e, fetch, send, RowAfter(r, e));
    }
  }

  /**
   * After a batch of pending records with distinct ids, each of their rows is processed
   * (status 1) or warning (status 2, one more retry); only a skipped record's row is untouched.
   */
  lemma PendingBatchOutcome(maxRetry: int, audits: seq<AuditRecord>, h: seq<Call>,
                            fetch: FetchOracle, send: SendOracle, rows: seq<AuditRecord>, i: int, k: int)
    requires forall j :: 0 <= j < |audits| ==> audits[j].status == PENDING
    requires DistinctIds(audits)
    requires 0 <= i < |rows| && 0 <= k < |audits| && rows[i].id == audits[k].id
    ensures var after := ApplyMarks(rows, BatchCalls(maxRetry, audits, h, fetch, send))[i];
      if Skipped(maxRetry, audits[k]) then after == rows[i]
      else ((after.status == PROCESSED && after.retryCount == rows[i].retryCount)
         || (after.status == WARNING && after.retryCount == rows[i].retryCount + 1))
  {
    ApplyMarksPointwise(rows, BatchCalls(maxRetry, audits, h, fetch, send), i);
    RowAfterPendingBatch(maxRetry, audits, h, fetch, send, rows[i], k);
  }

  // ---------------------------------------------------------------------
  // A cycle

  /** The calls a batch makes for its k-th record, after the records before it. */
  function RecordPass(maxRetry: int, audits: seq<AuditRecord>, k: int, h: seq<Call>,
                      fetch: FetchOracle, send: SendOracle): seq<Call>
    requires 0 <= k < |audits|
  {
    RecordCalls(maxRetry, audits[k], h + BatchCalls(maxRetry, audits[..k], h, fetch, send), fetch, send)
  }

  /** With distinct ids, a row is changed by a batch only through its own record's calls. */
  lemma {:induction false} RowAfterBatch(maxRetry: int, audits: seq<AuditRecord>, h: seq<Call>,
                                         fetch: FetchOracle, send: SendOracle, r: AuditRecord, k: int)
    requires DistinctIds(audits)
    requires 0 <= k < |audits| && r.id == audits[k].id
    ensures RowAfter(r, BatchCalls(maxRetry, audits, h, fetch, send)) ==
            RowAfter(r, RecordPass(maxRetry, audits, k, h, fetch, send))
  {
    var n := |audits|;
    var earlier := audits[..n - 1];
    var e := BatchCalls(maxRetry, earlier, h, fetch, send);
    var rc := RecordCalls(maxRetry, audits[n - 1], h + e, fetch, send);
    assert BatchCalls(maxRetry, audits, h, fetch, send) == e + rc;
    RowAfterAppend(r, e, rc);
    if k == n - 1 {
      BatchMarksInOrder(maxRetry, earlier, h, fetch, send);
      assert forall j :: 0 <= j < |earlier| ==> earlier[j].id == audits[j].id != audits[n - 1].id;
      UnskippedIdsFromBatch(maxRetry, earlier, r.id);
      RowAfterUnmarked(r, e);
    } else {
      assert earlier[k] == audits[k] && earlier[..k] == audits[..k];
      RowAfterBatch(maxRetry, earlier, h, fetch, send, r, k);
      RowAfterRecord(maxRetry, audits[n - 1], h + e, fetch, send, RowAfter(r, e));
    }
  }

  /** A query returns each row at most once, so it keeps the table's ids distinct. */
  lemma {:induction false} SelectDistinct(rows: seq<AuditRecord>, status: int, limit: nat)
    requires DistinctIds(rows)
    ensures DistinctIds(SelectByStatus(rows, status, limit))
  {
    if rows != [] && limit != 0 {
      var rest := rows[1..];
      assert DistinctIds(rest) by {
        forall j, l | 0 <= j < l < |rest| ensures rest[j].id != rest[l].id {
          assert rest[j] == rows[j + 1] && rest[l] == rows[l + 1];
        }
      }
      if rows[0].status == status {
        var tail := SelectByStatus(rest, status, limit - 1);
        SelectDistinct(rest, status, limit - 1);
        var batch := [rows[0]] + tail;
        forall j, l | 0 <= j < l < |batch| ensures batch[j].id != batch[l].id {
          assert batch[l] == tail[l - 1] && batch[l] in rest;
          if j == 0 {
            var m :| 0 <= m < |rest| && rest[m] == batch[l];
            assert rows[m + 1] == batch[l];
          } else {
            assert batch[j] == tail[j - 1];
          }
        }
      } else {
        SelectDistinct(rest, status, limit);
      }
    }
  }

  /** Marks never change an id, so they keep the table's ids distinct. */
  lemma ApplyMarksKeepsDistinct(rows: seq<AuditRecord>, calls: seq<Call>)
    requires DistinctIds(rows)
    ensures DistinctIds(ApplyMarks(rows, calls))
  {
    var rows' := ApplyMarks(rows, calls);
    forall j, l | 0 <= j < l < |rows'| ensures rows'[j].id != rows'[l].id {
      ApplyMarksPointwise(rows, calls, j);
      ApplyMarksPointwise(rows, calls, l);
    }
  }

  /**
   * A warning row at the retry limit is read by a warning query that stays below its limit,
   * and the batch it is read into fails it.
   */
  lemma ExhaustedInWarningPass(maxRetry: int, rows: seq<AuditRecord>, i: int, h: seq<Call>,
                               fetch: FetchOracle, send: SendOracle)
    requires DistinctIds(rows)
    requires 0 <= i < |rows| && rows[i].status == WARNING && rows[i].retryCount >= maxRetry
    requires |SelectByStatus(rows, WARNING, BATCH_LIMIT)| < BATCH_LIMIT
    ensures rows[i] in SelectByStatus(rows, WARNING, BATCH_LIMIT)
    ensures ApplyMarks(rows, BatchCalls(maxRetry, SelectByStatus(rows, WARNING, BATCH_LIMIT), h, fetch, send))[i] ==
            Marked(rows[i], MarkFailed)
  {
    var w := SelectByStatus(rows, WARNING, BATCH_LIMIT);
    SelectComplete(rows, WARNING, BATCH_LIMIT, rows[i]);
    SelectDistinct(rows, WARNING, BATCH_LIMIT);
    var k :| 0 <= k < |w| && w[k] == rows[i];
    ApplyMarksPointwise(rows, BatchCalls(maxRetry, w, h, fetch, send), i);
    RowAfterBatch(maxRetry, w, h, fetch, send, rows[i], k);
    var hk := h + BatchCalls(maxRetry, w[..k], h, fetch, send);
    RetryGate(maxRetry, w[k], hk, fetch, send);
    RowAfterRecord(maxRetry, w[k], hk, fetch, send, rows[i]);
  }

  /**
   * A warning row at the retry limit is failed by the next cycle: the pending pass leaves it
   * alone, the warning query reads it, and the retry gate marks it failed without a send.
   */
  lemma ExhaustedRowFailsInCycle(maxRetry: int, rows: seq<AuditRecord>, h: seq<Call>,
                                 fetch: FetchOracle, send: SendOracle, i: int)
    requires DistinctIds(rows)
    requires 0 <= i < |rows| && rows[i].status == WARNING && rows[i].retryCount >= maxRetry
    requires |WarningBatch(maxRetry, rows, h, fetch, send)| < BATCH_LIMIT
    ensures rows[i] in WarningBatch(maxRetry, rows, h, fetch, send)
    ensures ApplyMarks(rows, CycleCalls(maxRetry, rows, h, fetch, send))[i] == Marked(rows[i], MarkFailed)
  {
    var p := SelectByStatus(rows, PENDING, BATCH_LIMIT);
    var pending := PendingPass(maxRetry, rows, h, fetch, send);
    forall k | 0 <= k < |p| ensures p[k].id != rows[i].id {
      assert p[k] in p;
      var j :| 0 <= j < |rows| && rows[j] == p[k];
    }
    BatchFrame(maxRetry, p, h, fetch, send, rows, i);
    var marked := ApplyMarks(rows, pending);
    ApplyMarksKeepsDistinct(rows, pending);
    ExhaustedInWarningPass(maxRetry, marked, i, h + pending, fetch, send);
    ApplyMarksAppend(rows, pending,
      BatchCalls(maxRetry, WarningBatch(maxRetry, rows, h, fetch, send), h + pending, fetch, send));
  }

  /**
   * A pending row whose record is marked warning in the pending pass is read again by the
   * warning query of the same cycle, with status 2 and one more retry.
   */
  lemma WarnedPendingRetriedSameCycle(maxRetry: int, rows: seq<AuditRecord>, h: seq<Call>,
                                      fetch: FetchOracle, send: SendOracle, i: int, k: int)
    requires DistinctIds(rows)
    requires 0 <= i < |rows|
    requires var p := SelectByStatus(rows, PENDING, BATCH_LIMIT); 0 <= k < |p| && p[k] == rows[i]
    requires var rc := RecordPass(maxRetry, SelectByStatus(rows, PENDING, BATCH_LIMIT), k, h, fetch, send);
      rc != [] && rc[|rc| - 1] == MarkCall(rows[i].id, MarkWarning)
    requires |WarningBatch(maxRetry, rows, h, fetch, send)| < BATCH_LIMIT
    ensures ApplyMarks(rows, PendingPass(maxRetry, rows, h, fetch, send))[i] == Marked(rows[i], MarkWarning)
    ensures Marked(rows[i], MarkWarning) in WarningBatch(maxRetry, rows, h, fetch, send)
  {
    var p := SelectByStatus(rows, PENDING, BATCH_LIMIT);
    var pending := PendingPass(maxRetry, rows, h, fetch, send);
    var hk := h + BatchCalls(maxRetry, p[..k], h, fetch, send);
    SelectDistinct(rows, PENDING, BATCH_LIMIT);
    ApplyMarksPointwise(rows, pending, i);
    RowAfterBatch(maxRetry, p, h, fetch, send, rows[i], k);
    RecordCallsShape(maxRetry, p[k], hk, fetch, send);
    RowAfterRecord(maxRetry, p[k], hk, fetch, send, rows[i]);
    var marked := ApplyMarks(rows, pending);
    SelectComplete(marked, WARNING, BATCH_LIMIT, marked[i]);
  }

  /**
   * With a retry limit of at most one more than a pending row's retry count, a warning in the
   * pending pass is followed by a failed mark in the warning pass of the same cycle: the row
   * ends its first cycle at status 3.
   */
  lemma WarnedPendingFailsSameCycle(maxRetry: int, rows: seq<AuditRecord>, h: seq<Call>,
                                    fetch: FetchOracle, send: SendOracle, i: int, k: int)
    requires DistinctIds(rows)
    requires 0 <= i < |rows| && rows[i].retryCount + 1 >= maxRetry
    requires var p := SelectByStatus(rows, PENDING, BATCH_LIMIT); 0 <= k < |p| && p[k] == rows[i]
    requires var rc := RecordPass(maxRetry, SelectByStatus(rows, PENDING, BATCH_LIMIT), k, h, fetch, send);
      rc != [] && rc[|rc| - 1] == MarkCall(rows[i].id, MarkWarning)
    requires |WarningBatch(maxRetry, rows, h, fetch, send)| < BATCH_LIMIT
    ensures ApplyMarks(rows, CycleCalls(maxRetry, rows, h, fetch, send))[i] ==
            Marked(Marked(rows[i], MarkWarning), MarkFailed)
    ensures ApplyMarks(rows, CycleCalls(maxRetry, rows, h, fetch, send))[i].status == FAILED
  {
    var pending := PendingPass(maxRetry, rows, h, fetch, send);
    WarnedPendingRetriedSameCycle(maxRetry, rows, h, fetch, send, i, k);
    var marked := ApplyMarks(rows, pending);
    ApplyMarksKeepsDistinct(rows, pending);
    ExhaustedInWarningPass(maxRetry, marked, i, h + pending, fetch, send);
    ApplyMarksAppend(rows, pending,
      BatchCalls(maxRetry, WarningBatch(maxRetry, rows, h, fetch, send), h + pending, fetch, send));
  }

  /** With distinct ids, a query for another status names no record with a given row's id. */
  lemma QueryMissesRow(rows: seq<AuditRecord>, status: int, limit: nat, i: int)
    requires DistinctIds(rows)
    requires 0 <= i < |rows| && rows[i].status != status
    ensures var q := SelectByStatus(rows, status, limit);
      forall k :: 0 <= k < |q| ==> q[k].id != rows[i].id
  {
    var q := SelectByStatus(rows, status, limit);
    forall k | 0 <= k < |q| ensures q[k].id != rows[i].id {
      assert q[k] in q;
      var j :| 0 <= j < |rows| && rows[j] == q[k];
    }
  }

  /** With distinct ids, a batch read by a query for another status leaves a row as it was. */
  lemma UnqueriedRowUntouched(maxRetry: int, rows: seq<AuditRecord>, status: int, h: seq<Call>,
                              fetch: FetchOracle, send: SendOracle, i: int)
    requires DistinctIds(rows)
    requires 0 <= i < |rows| && rows[i].status != status
    ensures ApplyMarks(rows, BatchCalls(maxRetry, SelectByStatus(rows, status, BATCH_LIMIT), h, fetch, send))[i] == rows[i]
  {
    QueryMissesRow(rows, status, BATCH_LIMIT, i);
    BatchFrame(maxRetry, SelectByStatus(rows, status, BATCH_LIMIT), h, fetch, send, rows, i);
  }

  /**
   * Rows at status 1 (processed) or 3 (failed) are final: neither query of a cycle reads
   * them, so the cycle leaves them exactly as they were.
   */
  lemma TerminalUntouchedByCycle(maxRetry: int, rows: seq<AuditRecord>, h: seq<Call>,
                                 fetch: FetchOracle, send: SendOracle, i: int)
    requires DistinctIds(rows)
    requires 0 <= i < |rows| && (rows[i].status == PROCESSED || rows[i].status == FAILED)
    ensures ApplyMarks(rows, CycleCalls(maxRetry, rows, h, fetch, send))[i] == rows[i]
  {
    var pending := PendingPass(maxRetry, rows, h, fetch, send);
    UnqueriedRowUntouched(maxRetry, rows, PENDING, h, fetch, send, i);
    var marked := ApplyMarks(rows, pending);
    assert marked[i] == rows[i];
    ApplyMarksKeepsDistinct(rows, pending);
    var w := WarningBatch(maxRetry, rows, h, fetch, send);
    assert w == SelectByStatus(marked, WARNING, BATCH_LIMIT);
    UnqueriedRowUntouched(maxRetry, marked, WARNING, h + pending, fetch, send, i);
    var wc := BatchCalls(maxRetry, w, h + pending, fetch, send);
    ApplyMarksAppend(rows, pending, wc);
    assert CycleCalls(maxRetry, rows, h, fetch, send) == pending + wc;
  }

  /**
   * A record below the retry limit leaves its own row processed, warning, or (when skipped)
   * untouched; it never fails it.
   */
  lemma RowAfterRetriedRecord(maxRetry: int, a: AuditRecord, h: seq<Call>, fetch: FetchOracle, send: SendOracle,
                              r: AuditRecord)
    requires r.id == a.id && !RetriesExhausted(maxRetry, a)
    ensures var after := RowAfter(r, RecordCalls(maxRetry, a, h, fetch, send));
      if Skipped(maxRetry, a) then after == r
      else after == Marked(r, MarkProcessed) || after == Marked(r, MarkWarning)
  {
    RowAfterRecord(maxRetry, a, h, fetch, send, r);
    if !Skipped(maxRetry, a) {
      FailedOnlyAtRetryLimit(maxRetry, a, h, fetch, send);
    }
  }

  /**
   * A warning row below the retry limit is in a warning batch that stays below its limit,
   * and that batch leaves it processed, warning again, or (when skipped) untouched.
   */
  lemma WarningRowInWarningPass(maxRetry: int, rows: seq<AuditRecord>, i: int, h: seq<Call>,
                                fetch: FetchOracle, send: SendOracle)
    requires DistinctIds(rows)
    requires 0 <= i < |rows| && rows[i].status == WARNING && rows[i].retryCount < maxRetry
    requires |SelectByStatus(rows, WARNING, BATCH_LIMIT)| < BATCH_LIMIT
    ensures rows[i] in SelectByStatus(rows, WARNING, BATCH_LIMIT)
    ensures var after := ApplyMarks(rows, BatchCalls(maxRetry, SelectByStatus(rows, WARNING, BATCH_LIMIT), h, fetch, send))[i];
      if Skipped(maxRetry, rows[i]) then after == rows[i]
      else after == Marked(rows[i], MarkProcessed) || after == Marked(rows[i], MarkWarning)
  {
    var w := SelectByStatus(rows, WARNING, BATCH_LIMIT);
    SelectComplete(rows, WARNING, BATCH_LIMIT, rows[i]);
    SelectDistinct(rows, WARNING, BATCH_LIMIT);
    var k :| 0 <= k < |w| && w[k] == rows[i];
    ApplyMarksPointwise(rows, BatchCalls(maxRetry, w, h, fetch, send), i);
    RowAfterBatch(maxRetry, w, h, fetch, send, rows[i], k);
    RowAfterRetriedRecord(maxRetry, w[k], h + BatchCalls(maxRetry, w[..k], h, fetch, send), fetch, send, rows[i]);
  }

  /**
   * A warning row below the retry limit is retried by the next cycle (when the warning query
   * stays below its limit): it ends processed (status 1, same retries) or warning again
   * (status 2, one more retry), or untouched when its record is a skipped KEYUSER. It is
   * never failed in that cycle.
   */
  lemma WarningRowOutcome(maxRetry: int, rows: seq<AuditRecord>, h: seq<Call>,
                          fetch: FetchOracle, send: SendOracle, i: int)
    requires DistinctIds(rows)
    requires 0 <= i < |rows| && rows[i].status == WARNING && rows[i].retryCount < maxRetry
    requires |WarningBatch(maxRetry, rows, h, fetch, send)| < BATCH_LIMIT
    ensures rows[i] in WarningBatch(maxRetry, rows, h, fetch, send)
    ensures var after := ApplyMarks(rows, CycleCalls(maxRetry, rows, h, fetch, send))[i];
      if Skipped(maxRetry, rows[i]) then after == rows[i]
      else after == Marked(rows[i], MarkProcessed) || after == Marked(rows[i], MarkWarning)
  {
    var pending := PendingPass(maxRetry, rows, h, fetch, send);
    UnqueriedRowUntouched(maxRetry, rows, PENDING, h, fetch, send, i);
    var marked := ApplyMarks(rows, pending);
    assert marked[i] == rows[i];
    var w := WarningBatch(maxRetry, rows, h, fetch, send);
    assert w == SelectByStatus(marked, WARNING, BATCH_LIMIT);
    ApplyMarksKeepsDistinct(rows, pending);
    WarningRowInWarningPass(maxRetry, marked, i, h + pending, fetch, send);
    var wc := BatchCalls(maxRetry, w, h + pending, fetch, send);
    ApplyMarksAppend(rows, pending, wc);
    assert CycleCalls(maxRetry, rows, h, fetch, send) == pending + wc;
  }

  /** With distinct ids, a batch leaves a row as it was or changes it by a single mark. */
  lemma RowAfterDistinctBatch(maxRetry: int, audits: seq<AuditRecord>, h: seq<Call>,
                              fetch: FetchOracle, send: SendOracle, r: AuditRecord)
    requires DistinctIds(audits)
    ensures var after := RowAfter(r, BatchCalls(maxRetry, audits, h, fetch, send));
      after == r || after == Marked(r, MarkProcessed) || after == Marked(r, MarkWarning) ||
      after == Marked(r, MarkFailed)
  {
    if k :| 0 <= k < |audits| && audits[k].id == r.id {
      RowAfterBatch(maxRetry, audits, h, fetch, send, r, k);
      RowAfterRecord(maxRetry, audits[k], h + BatchCalls(maxRetry, audits[..k], h, fetch, send), fetch, send, r);
    } else {
      BatchMarksInOrder(maxRetry, audits, h, fetch, send);
      UnskippedIdsFromBatch(maxRetry, audits, r.id);
      RowAfterUnmarked(r, BatchCalls(maxRetry, audits, h, fetch, send));
    }
  }

  /**
   * How a pending row read by the pending query ends a whole cycle. Its record is skipped
   * (a malformed KEYUSER) and the row keeps status 0, or the row leaves status 0 for
   * status 1, 2 or 3, with at most two retries more. Status 3 arises only when the warning
   * pass of the same cycle reads the warned row again at the retry limit.
   */
  lemma PendingRowCycleOutcome(maxRetry: int, rows: seq<AuditRecord>, h: seq<Call>,
                               fetch: FetchOracle, send: SendOracle, i: int, k: int)
    requires DistinctIds(rows)
    requires 0 <= i < |rows|
    requires var p := SelectByStatus(rows, PENDING, BATCH_LIMIT); 0 <= k < |p| && p[k] == rows[i]
    ensures var after := ApplyMarks(rows, CycleCalls(maxRetry, rows, h, fetch, send))[i];
      if Skipped(maxRetry, rows[i]) then after == rows[i]
      else (after.status == PROCESSED || after.status == WARNING || after.status == FAILED) &&
           rows[i].retryCount <= after.retryCount <= rows[i].retryCount + 2
  {
    var p := SelectByStatus(rows, PENDING, BATCH_LIMIT);
    var pending := PendingPass(maxRetry, rows, h, fetch, send);
    assert p[k] in p;
    SelectDistinct(rows, PENDING, BATCH_LIMIT);
    ApplyMarksPointwise(rows, pending, i);
    RowAfterPendingBatch(maxRetry, p, h, fetch, send, rows[i], k);
    var marked := ApplyMarks(rows, pending);
    var r1 := marked[i];
    ApplyMarksKeepsDistinct(rows, pending);
    var w := WarningBatch(maxRetry, rows, h, fetch, send);
    assert w == SelectByStatus(marked, WARNING, BATCH_LIMIT);
    var wc := BatchCalls(maxRetry, w, h + pending, fetch, send);
    ApplyMarksAppend(rows, pending, wc);
    assert CycleCalls(maxRetry, rows, h, fetch, send) == pending + wc;
    if Skipped(maxRetry, rows[i]) {
      UnqueriedRowUntouched(maxRetry, marked, WARNING, h + pending, fetch, send, i);
    } else {
      SelectDistinct(marked, WARNING, BATCH_LIMIT);
      ApplyMarksPointwise(marked, wc, i);
      RowAfterDistinctBatch(maxRetry, w, h + pending, fetch, send, r1);
    }
  }
}
