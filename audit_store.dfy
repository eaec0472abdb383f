/**
 * The audit table as the dispatch engine sees it: two batch queries and
 * three status updates ("marks"). Rows are kept in table order.
 */
module AuditStore {
  import opened Models

  /** Status codes of an audit row. */
  const PENDING: int := 0
  const PROCESSED: int := 1
  const WARNING: int := 2
  const FAILED: int := 3

  /** Maximum number of rows a batch query returns (`SELECT TOP 1000`). */
  const BATCH_LIMIT: nat := 1000

  datatype Mark = MarkProcessed | MarkWarning | MarkFailed

  /** The status a mark writes. */
  function MarkStatus(m: Mark): int {
    match m
    case MarkProcessed => PROCESSED
    case MarkWarning => WARNING
    case MarkFailed => FAILED
  }

  /** The row after one mark: the status it names; a warning also counts one more retry. */
  function Marked(r: AuditRecord, m: Mark): (r': AuditRecord)
    ensures r'.id == r.id && r'.objectId == r.objectId && r'.additionalId == r.additionalId
    ensures r'.objectType == r.objectType && r'.actionType == r.actionType
    ensures r'.status == MarkStatus(m)
    ensures r'.retryCount == if m == MarkWarning then r.retryCount + 1 else r.retryCount
  {
    match m
    case MarkProcessed => r.(status := PROCESSED)
    case MarkWarning => r.(status := WARNING, retryCount := r.retryCount + 1)
    case MarkFailed => r.(status := FAILED)
  }

  /** `UPDATE keylocker_audit SET ... WHERE ID = id`: every row with that id, nothing else. */
  function MarkRows(rows: seq<AuditRecord>, id: int, m: Mark): (rows': seq<AuditRecord>)
    ensures |rows'| == |rows|
    ensures forall i :: 0 <= i < |rows| ==>
      rows'[i] == if rows[i].id == id then Marked(rows[i], m) else rows[i]
  {
    if rows == [] then []
    else [if rows[0].id == id then Marked(rows[0], m) else rows[0]] + MarkRows(rows[1..], id, m)
  }

  /** `SELECT TOP limit * ... WHERE Status = status`, in table order. */
  function SelectByStatus(rows: seq<AuditRecord>, status: int, limit: nat): (batch: seq<AuditRecord>)
    ensures |batch| <= limit
    ensures forall r :: r in batch ==> r in rows && r.status == status
  {
    if rows == [] || limit == 0 then []
    else if rows[0].status == status then [rows[0]] + SelectByStatus(rows[1..], status, limit - 1)
    else SelectByStatus(rows[1..], status, limit)
  }

  /** Every matching row is selected unless the limit is reached. */
  lemma {:induction false} SelectComplete(rows: seq<AuditRecord>, status: int, limit: nat, r: AuditRecord)
    requires r in rows && r.status == status
    requires |SelectByStatus(rows, status, limit)| < limit
    ensures r in SelectByStatus(rows, status, limit)
  {
    if rows[0] != r {
      assert r in rows[1..];
      if rows[0].status == status {
        SelectComplete(rows[1..], status, limit - 1, r);
      } else {
        SelectComplete(rows[1..], status, limit, r);
      }
    }
  }

  /** The keylocker_audit table. */
  class AuditTable {
    var rows: seq<AuditRecord>

    constructor (initial: seq<AuditRecord>)
      ensures rows == initial
    {
      rows := initial;
    }

    method GetPendingAuditRecords() returns (batch: seq<AuditRecord>)
      ensures batch == SelectByStatus(rows, PENDING, BATCH_LIMIT)
    {
      batch := SelectByStatus(rows, PENDING, BATCH_LIMIT);
    }

    method GetWarningAuditRecords() returns (batch: seq<AuditRecord>)
      ensures batch == SelectByStatus(rows, WARNING, BATCH_LIMIT)
    {
      batch := SelectByStatus(rows, WARNING, BATCH_LIMIT);
    }

    method MarkAuditProcessed(id: int)
      modifies this
      ensures rows == MarkRows(old(rows), id, MarkProcessed)
    {
      rows := MarkRows(rows, id, MarkProcessed);
    }

    method MarkAuditAsWarning(id: int)
      modifies this
      ensures rows == MarkRows(old(rows), id, MarkWarning)
    {
      rows := MarkRows(rows, id, MarkWarning);
    }

    method MarkAuditAsFailed(id: int)
      modifies this
      ensures rows == MarkRows(old(rows), id, MarkFailed)
    {
      rows := MarkRows(rows, id, MarkFailed);
    }
  }
}
