# KeyLockerSync audit dispatch engine, in Dafny

This project models the audit-record dispatch engine of KeyLockerSync, the `SyncService` class. The engine polls the
`keylocker_audit` table and mirrors each change it finds to a REST API. Each cycle (`SyncAsync`) reads the pending batch
(status 0) and then the warning batch (status 2). For every record, in list order, `ProcessAuditBatch` does this:

1. It applies the retry gate: a warning record at the retry limit is marked failed.
2. It looks the object type up in the case-insensitive routing table. An unknown type is marked warning.
3. It builds the payload in one of three ways:
   - delete by identity (USER with DELETE);
   - inline from `Object_ID`/`Additional_ID` (KEYGROUPKEY, KEYGROUPUSER, KEYUSER, CREDENTIAL with DELETE);
   - a repository fetch.
4. It maps the action type to an HTTP verb.
5. It calls the type's send function. It marks the record processed when the send returns true, and warning when the
   send returns false or anything throws.

The repository queries and the remote endpoint are oracles, passed in as function-valued parameters. A fetch answers
`Found(payload)`, `NotFound` (null) or `FetchFaulted` (an exception). A send answers `Accepted`, `Rejected` or
`SendFaulted`. Each answer may depend on every call the engine has made before it.

The engine records every fetch, send and mark it makes, in order, in a trace (`seq<Call>`). The audit table afterwards
is the old table with the trace's marks applied (`ApplyMarks`). This lets the model prove things like "nothing was
sent" or "the row was not touched".

Files:
- `wrappers.dfy`: `Option`, standing in for C# nulls.
- `text.dfy`: the .NET string behaviour the engine relies on. This covers ordinal case-insensitive comparison,
  `ToUpper`, `IsNullOrEmpty`, and `int.TryParse` with its inverse, decimal formatting.
- `models.dfy`: the audit record and the payload shapes, collected in the closed sum `Payload`.
- `audit_store.dfy`: the audit table as a class over a `seq` of rows, with its two batch queries and three marks.
- `sync.dfy`: the routing table, the verb switch, and the specification functions. `RecordCalls` covers one record,
  `BatchCalls` a batch and `CycleCalls` a cycle. It also holds the class `SyncService`. Its loop methods are proved
  equal to those functions and to `ApplyMarks` of the trace.
- `sync_properties.dfy`: the lemmas. They cover single records, whole batches, the audit table and whole cycles.

The engine's intended behaviour and its code differ in the points below. The model follows the code in each.
- Intended: after one cycle, every pending record has status 1 or 2, malformed records included. In the code,
  a KEYUSER record with a missing id hits `continue` before any mark, so its row keeps status 0
  (`KeyUserInline`, `BatchFrame`, `PendingBatchOutcome`). Every other pending row that the pending query reads leaves status 0 in the cycle
  (`PendingRowCycleOutcome`).
- Intended: the same, status 1 or 2 after one cycle. In the code, a pending row marked warning is read again
  by the warning query of the same cycle (`WarnedPendingRetriedSameCycle`). When its new RetryCount has reached
  MaxRetryCount, the retry gate fails it straight away. With MaxRetryCount at most 1, a new row whose first attempt
  fails ends its first cycle at status 3 (`WarnedPendingFailsSameCycle`).
- Intended: USER and PERSON share their handling, and a delete skips the fetch (the comment at
  Services/SyncService.cs:47-48, and the test at line 133). The code has no "PERSON" routing entry, so a PERSON record is marked warning before the delete branch is reached (`PersonNotRouted`,
  `UnroutedIsWarning`).
- CREDENTIAL with INSERT or UPDATE sets `skipDataFetch` after fetching, so a null result is still sent
  (`CredentialUpsertSendsNull`).
- The record class in the repository lacks `Additional_ID` and `RetryCount`, which the engine reads. The model's
  `AuditRecord` has both. `KeyUser` is built with string `KeyIdExts`, as the engine builds it, not with the integer
  `KeyIds` of the model class.

The cycle lemmas assume that audit ids are distinct, since `ID` is the table's key (`DistinctIds`). They also assume
that the warning query returns fewer than its limit of 1000 rows; a fuller warning backlog may leave a given row for
a later cycle.

## Model

| member | source | states |
|---|---|---|
| Sync.RetryLimit | Services/SyncService.cs:25-29 | the limit is the parsed setting when it parses as a 32-bit int, otherwise 3 |
| Text.ParseFormatRoundTrip | Services/SyncService.cs:25 | `int.TryParse` reads back every 32-bit int written in decimal |
| Text.ParseNonNegative | Services/SyncService.cs:25 | a non-negative 32-bit int written with no sign parses to itself |
| Text.ParseNegative | Services/SyncService.cs:25 | '-' followed by the digits of m parses to -m, down to the 32-bit minimum |
| SyncProperties.RetryLimitMissing | Services/SyncService.cs:25-29 | a missing MaxRetryCount setting gives a limit of 3 |
| SyncProperties.RetryLimitParsed | Services/SyncService.cs:25 | a setting holding a decimal 32-bit int is taken as the limit |
| SyncProperties.RetryLimitUnparsable | Services/SyncService.cs:25-29 | a setting with no digit at all (empty, blank, a word) gives 3 |
| Text.ParseTrimmed | Services/SyncService.cs:25 | a trimmed setting, read as an optional sign and digits, parses only to a 32-bit int |
| Text.ParseDigits | Services/SyncService.cs:25 | a run of digits with its sign parses only to a 32-bit int |
| Text.ParseFormatDigits | Services/SyncService.cs:25 | the decimal digits of n, with or without a minus, parse to n or -n whenever that is a 32-bit int |
| Text.TryParseInt | Services/SyncService.cs:25 | a parsed value is a 32-bit int and a null setting does not parse; `ParseFormatRoundTrip` shows that every 32-bit int in decimal parses to itself |
| Sync.SyncService.constructor | Services/SyncService.cs:20-29 | the service's retry limit is `RetryLimit` of the setting; its table is the routing table |
| Sync.RoutingTable | Services/SyncService.cs:32-90 | the table has exactly the nine routed types, all in upper case, with "PERSON" not among them |
| Sync.TryGetMapping | Services/SyncService.cs:119 | a hit is the entry under the upper-cased key |
| Sync.Route | Services/SyncService.cs:119 | a routed type is non-null and its upper-cased name is a key of the routing table, whose entry is returned; null is looked up as "" and misses (`RouteKnownTypes` gives the converse) |
| SyncProperties.TryGetMappingIgnoresCase | Services/SyncService.cs:32 | on an upper-case-keyed table, lookup succeeds exactly when some key equals the key ignoring case, and then returns that key's entry |
| SyncProperties.RouteKnownTypes | Services/SyncService.cs:119 | a record's type is routed exactly when it is non-null and equals one of the nine names ignoring case |
| SyncProperties.PersonNotRouted | Services/SyncService.cs:133 | "PERSON" in any case has no routing entry, so the PERSON half of the delete test is never reached |
| SyncProperties.HttpMethodTotal | Services/SyncService.cs:219-226 | UPDATE gives PUT, DELETE gives DELETE, every other value (CREATE, INSERT, null, anything) gives POST, in both directions |
| SyncProperties.HttpMethodIgnoresCase | Services/SyncService.cs:131 | on the raw action type the verb is DELETE or PUT exactly when the type equals DELETE or UPDATE ignoring case |
| Sync.HttpMethodFor | Services/SyncService.cs:219-226 | no contract of its own: its meaning, UPDATE to PUT, DELETE to DELETE and everything else to POST, is `HttpMethodTotal` and `HttpMethodIgnoresCase` |
| SyncProperties.RetryGate | Services/SyncService.cs:112-117 | a warning record with `RetryCount >= limit` gets one failed mark and nothing else: no lookup, fetch or send |
| SyncProperties.FailedOnlyAtRetryLimit | Services/SyncService.cs:112-117 | a record is marked failed exactly when it is a warning record at the retry limit; a pending record never is, whatever its retry count |
| SyncProperties.UnroutedIsWarning | Services/SyncService.cs:119-124 | an unknown or null object type gets one warning mark and no fetch or send |
| SyncProperties.UserDeleteByIdentity | Services/SyncService.cs:133-137 | USER with DELETE sends a Person whose only set field is `OwnerIdApi = Object_ID`, with verb DELETE, and never fetches |
| Models.PersonWithOwner | Services/SyncService.cs:135 | the delete payload carries the owner id and default values everywhere else |
| SyncProperties.KeyGroupKeyInline | Services/SyncService.cs:139-153 | KEYGROUPKEY sends {GroupIdApi = Additional_ID, KeyIdExts = [Object_ID]} without a fetch; a null or empty id gives one warning mark and no send |
| SyncProperties.KeyGroupUserInline | Services/SyncService.cs:165-179 | KEYGROUPUSER sends {GroupIdApi = Additional_ID, OwnerIdApis = [Object_ID]} without a fetch; a null or empty id gives one warning mark and no send |
| SyncProperties.KeyUserInline | Services/SyncService.cs:180-185 | KEYUSER sends {OwnerIdApi = Additional_ID, KeyIdExts = [Object_ID]} without a fetch; a null or empty id makes no call at all, not even a mark |
| SyncProperties.CredentialDeleteInline | Services/SyncService.cs:186-192 | CREDENTIAL with DELETE sends {Method = Additional_ID, Credential = Object_ID} with verb DELETE and no fetch |
| SyncProperties.CredentialUpsertSendsNull | Services/SyncService.cs:193-198 | CREDENTIAL with INSERT or UPDATE fetches the credential first, then sends what came back, even a null result; only an exception from the fetch stops the send |
| SyncProperties.CredentialOtherActionIsWarning | Services/SyncService.cs:201-208 | CREDENTIAL with any other action falls through to the fetch step, has no fetch function, and gets one warning mark |
| SyncProperties.FetchedTypes | Services/SyncService.cs:201-217 | DEVICE, KEYGROUP, USER other than DELETE, KEY and RESERVATION fetch by Object_ID; a send happens exactly when a row came back, and the row is sent as it came; null or an exception gives one warning mark |
| SyncProperties.RecordCallsShape | Services/SyncService.cs:109-246 | a record makes no call exactly when it is a malformed KEYUSER; otherwise it makes at most three calls: a fetch may come only first, a send only just before the mark, and exactly one mark of its own id comes last |
| SyncProperties.SendDecidesMark | Services/SyncService.cs:229-240 | a send is immediately followed by the record's mark: processed if the send returned true, warning if it returned false or threw |
| SyncProperties.ProcessedOnlyAfterAcceptedSend | Services/SyncService.cs:231-234 | a processed mark always comes right after a send that returned true |
| Sync.SendAndMark | Services/SyncService.cs:229-246 | exactly two calls: the send of the payload with the verb, then a mark of the record's id, processed exactly when the send returned true and warning otherwise (false or an exception) |
| Sync.PipelineCalls | Services/SyncService.cs:126-246 | no contract of its own: the try-block's calls for a routed record; its meaning is the per-record lemmas from `UserDeleteByIdentity` to `FetchedTypes` |
| Sync.RecordCalls | Services/SyncService.cs:111-246 | no contract of its own: the calls of one loop iteration (gate, lookup, pipeline); its meaning is `RetryGate`, `UnroutedIsWarning`, `RecordCallsShape`, `SendDecidesMark` and `FailedOnlyAtRetryLimit` |
| SyncProperties.RecordMarkIds | Services/SyncService.cs:109-246 | a record's calls mark its own id exactly once, or not at all when it is a skipped KEYUSER |
| SyncProperties.BatchMarksInOrder | Services/SyncService.cs:109 | a batch's marks name exactly the ids of its non-skipped records, one each, in list order |
| Sync.BatchCalls | Services/SyncService.cs:109 | no contract of its own: the records' calls in list order, each seeing the calls before it; its meaning is `BatchMarksInOrder`, `RowAfterBatch` and `BatchFrame` |
| SyncProperties.ExhaustedBatchFails | Services/SyncService.cs:112-117 | a batch of records all at the retry limit yields one failed mark per record, in order, and no fetch or send |
| SyncProperties.PendingBatchNeverFails | Services/SyncService.cs:112 | no record of an all-pending batch is ever marked failed |
| Sync.SyncService.ProcessAuditBatch | Services/SyncService.cs:107-248 | the trace the loop adds is `BatchCalls` of the batch, and the table becomes the old table with its marks applied |
| Sync.SyncService.ProcessAudit | Services/SyncService.cs:111-124 | one loop iteration's calls are `RecordCalls` of the record (gate, lookup, pipeline), applied to the table |
| Sync.SyncService.Pipeline | Services/SyncService.cs:126-246 | the try-block's calls are `PipelineCalls` of the routed record, applied to the table |
| Sync.SyncService.SyncAsync | Services/SyncService.cs:93-104 | a cycle is the pending batch followed by the warning batch read after it (`CycleCalls`), applied to the table |
| Sync.PendingPass | Services/SyncService.cs:96-97 | no contract of its own: the pending batch's calls; its meaning is `PendingBatchOutcome` and `PendingBatchNeverFails` |
| Sync.WarningBatch | Services/SyncService.cs:100 | no contract of its own: the warning query over the table as the pending pass left it; `WarnedPendingRetriedSameCycle` and `ExhaustedRowFailsInCycle` say which rows it reads |
| Sync.CycleCalls | Services/SyncService.cs:93-104 | no contract of its own: the pending pass followed by the warning pass; its meaning is the cycle lemmas `PendingRowCycleOutcome`, `TerminalUntouchedByCycle`, `WarningRowOutcome`, `ExhaustedRowFailsInCycle` and `WarnedPendingFailsSameCycle` |
| SyncProperties.TerminalUntouchedByCycle | Services/SyncService.cs:93-104 | in any table with distinct ids, a row at status 1 or 3 ends the cycle exactly as it was (that neither query reads it is `QueryMissesRow`, used through `UnqueriedRowUntouched`) |
| SyncProperties.PendingRowCycleOutcome | Services/SyncService.cs:93-246 | in any table with distinct ids, a row read by the pending query ends the cycle unchanged when its record is skipped, and otherwise at status 1, 2 or 3 (never 0) with between zero and two more retries |
| SyncProperties.RowAfterDistinctBatch | Services/SyncService.cs:109-246 | a batch with distinct ids leaves any row unchanged, or as that row marked processed, warning or failed |
| SyncProperties.QueryMissesRow | Data/DatabaseHelper.cs:19 | with distinct ids, a query for another status returns no row with a given row's id |
| SyncProperties.UnqueriedRowUntouched | Services/SyncService.cs:96-101 | with distinct ids, the batch read by a query for another status leaves a row exactly as it was |
| SyncProperties.RowAfterRetriedRecord | Services/SyncService.cs:111-246 | a record below the retry limit leaves its own row processed or warning, or untouched when skipped, and never failed |
| SyncProperties.WarningRowInWarningPass | Services/SyncService.cs:100-101 | a warning row below the limit is in a warning batch below 1000 rows, and that batch leaves it processed, warning again, or untouched when skipped |
| SyncProperties.WarningRowOutcome | Services/SyncService.cs:93-246 | in any table with distinct ids, a warning row below the retry limit is untouched by the pending pass, is read by the warning query (below its limit) and ends the cycle processed (status 1, same retries) or warning (status 2, one more retry), or untouched when skipped; it is never failed |
| SyncProperties.WarnedPendingRetriedSameCycle | Services/SyncService.cs:96-101 | in any table with distinct ids, a pending row whose record the pending pass marks warning has status 2 and one more retry afterwards, and the same cycle's warning query (below its limit) reads it again |
| SyncProperties.WarnedPendingFailsSameCycle | Services/SyncService.cs:96-117 | if that warned row's new retry count has reached the limit, the same cycle's warning pass fails it, so the row ends its first cycle at status 3 |
| SyncProperties.ExhaustedInWarningPass | Services/SyncService.cs:100-117 | a warning row at the retry limit is in the warning batch, and that batch turns it into the row marked failed |
| SyncProperties.ExhaustedRowFailsInCycle | Services/SyncService.cs:96-117 | in any table with distinct ids, a warning row at the retry limit is untouched by the pending pass, is read by the warning query (below its limit), and ends the cycle as the row marked failed (status 3, retry count unchanged) |
| AuditStore.Marked | Data/DatabaseHelper.cs:65 | a mark writes its status and keeps every other field; only a warning mark adds one retry |
| AuditStore.MarkRows | Data/DatabaseHelper.cs:62-69 | a mark updates exactly the rows with its id and keeps the table's length |
| AuditStore.SelectByStatus | Data/DatabaseHelper.cs:15-36 | a batch query returns at most 1000 rows of the table, all with the queried status |
| AuditStore.SelectComplete | Data/DatabaseHelper.cs:19 | a batch below the limit contains every row with the queried status |
| AuditStore.AuditTable.GetPendingAuditRecords | Data/DatabaseHelper.cs:15-36 | the pending batch is the first 1000 status-0 rows |
| AuditStore.AuditTable.MarkAuditProcessed | Data/DatabaseHelper.cs:62-69 | only rows with the given id change, to status 1 |
| AuditStore.AuditTable.GetWarningAuditRecords | Services/SyncService.cs:100 | called but not defined in DatabaseHelper.cs; the model assumes it returns the first 1000 rows with status 2, in table order, like the pending query |
| AuditStore.AuditTable.MarkAuditAsWarning | Services/SyncService.cs:122 | called but not defined in DatabaseHelper.cs; the model assumes it sets status 2 and adds one to RetryCount in exactly the rows with the id |
| AuditStore.AuditTable.MarkAuditAsFailed | Services/SyncService.cs:115 | called but not defined in DatabaseHelper.cs; the model assumes it sets status 3, keeping RetryCount, in exactly the rows with the id |
| Sync.ApplyMarks | Data/DatabaseHelper.cs:62-69 | applying a trace's marks keeps the table's length; what each row becomes is `ApplyMarksPointwise` |
| SyncProperties.ApplyMarksPointwise | Data/DatabaseHelper.cs:65 | every row of the new table is the old row after the marks of its own id, in trace order |
| SyncProperties.RowAfterRecord | Services/SyncService.cs:109-246 | a record's calls change only its own row, by its single mark |
| SyncProperties.UnskippedIdsHaveRecord | Services/SyncService.cs:109 | every id a batch marks belongs to one of its records that was not skipped |
| SyncProperties.RowAfterBatch | Services/SyncService.cs:109-246 | with distinct ids, a batch changes a row only through the calls of the record with that id, made after the records before it |
| SyncProperties.SelectDistinct | Data/DatabaseHelper.cs:19 | a batch query returns rows with distinct ids when the table has them |
| SyncProperties.BatchFrame | Services/SyncService.cs:182 | a row that no record of the batch names, or only a skipped KEYUSER record names, is left exactly as it was |
| SyncProperties.PendingBatchOutcome | Services/SyncService.cs:109-246 | after a pending batch with distinct ids, each record's row has status 1 with the same retry count, or status 2 with one more; a skipped record's row is unchanged |

## Left out

- Program.cs polling loops, timers and `Task.WhenAll` concurrency are not modelled: they are concurrency and clocks. Each cycle is one call of `SyncAsync`, and the `async` calls run one after another.
- ApiService is not modelled: it is HTTP plumbing. Every send is an oracle that returns true, false or an exception. The device read-modify-write, the KeyGroup validation gate, the Person retry without keys and the "not found counts as success" handling all live inside that oracle, so the credential-delete-not-found scenario is not modelled.
- The DatabaseHelper entity queries (`Get...DataAsync`, `GetCredentialDataAsync`) are not modelled as SQL. Each one is an oracle that returns any payload, null, or an exception. The engine passes the payload on unchanged, as the source passes its `object` on.
- DatabaseHelper's SQL work (connections, commands, readers) leaves no trace in the model; the marks and queries are modelled by their effect on rows only.
- `MarkAuditAsWarning`, `MarkAuditAsFailed` and `GetWarningAuditRecords` are called by the engine but not defined in DatabaseHelper.cs, and neither are the entity queries other than `GetDeviceDataAsync`. Their assumed effects are stated at their rows under "## Model".
- Batch order is not modelled as SQL decides it: the queries have no ORDER BY, and the model returns rows in table order.
- The `ToString()` conversion in `GetPendingAuditRecords` is not modelled. It turns a NULL column into "", so the source's pending records never hold null strings. The model keeps `Option` fields, and covers null and "" alike wherever the engine tests `IsNullOrEmpty`.
- `GetPendingAuditRecords` copies only some columns into the record; Additional_ID and RetryCount, which the engine reads, are not among them. The model's query returns whole rows.
- Exceptions thrown by the audit table are not modelled: its marks and its two batch queries always succeed here. In the source, a failing mark outside the try-block would end the batch, and one inside it would be followed by a second warning mark from the catch block. A failing `GetPendingAuditRecords` (Services/SyncService.cs:96) or `GetWarningAuditRecords` (line 100) would end the whole cycle.
- Date_Added and Date_Processed, the other DateTime fields, the Device configuration and all JSON attributes are left out; the engine never reads them.
- Logging (Console and FileLogger) is left out; it is output only.
- Text.UpperChar: case mapping covers ASCII letters only. Culture-dependent `ToUpper`, such as the Turkish dotted i, and non-ASCII ordinal case folding are not modelled.
- Text.TryParseInt: the sign symbols are fixed to '+' and '-', and trailing NUL characters are not accepted. Culture-specific signs and those NUL characters are not modelled.
- The 32-bit wrap-around of RetryCount and of audit ids is not modelled; they are unbounded integers.
