/** The ingest_files table and the SQL statements that touch it. Each statement is
    one atomic change; a row is identified by (tenant_id, content_hash). */
module IngestStore {
  import opened Prelude

  /** The statuses a row can hold. DUPLICATE is a result of an event only: no
      statement writes it to a row. */
  datatype Status = Pending | Processing | Ingested | Failed

  datatype ErrorCode =
    | DownloadFailed
    | InvalidExtension
    | FileTooLarge
    | MalformedXml
    | IngestTimeout
    | IngestError
    | IngestHttp(code: int)

  datatype Key = Key(tenant: string, hash: string)

  datatype Row = Row(
    storageUri: string,
    status: Status,
    errorCode: Option<ErrorCode>,
    duplicateCount: nat,
    lastEventId: string)

  type Table = map<Key, Row>

  function StatusOf(t: Table, k: Key): Option<Status> {
    if k in t then Some(t[k].status) else None
  }

  /** INSERT .. ON CONFLICT DO UPDATE of the uri and the event id only. */
  function Upserted(t: Table, k: Key, uri: string, eventId: string): Table {
    if k in t then t[k := t[k].(storageUri := uri, lastEventId := eventId)]
    else t[k := Row(uri, Pending, None, 0, eventId)]
  }

  /** The guard of a status update: the row exists and has the expected status. */
  predicate Hits(t: Table, k: Key, from: Status) {
    StatusOf(t, k) == Some(from)
  }

  function Claimed(t: Table, k: Key): Table {
    if Hits(t, k, Pending) then t[k := t[k].(status := Processing, errorCode := None)] else t
  }

  function MarkedFailed(t: Table, k: Key, code: ErrorCode): Table {
    if Hits(t, k, Processing) then t[k := t[k].(status := Failed, errorCode := Some(code))] else t
  }

  function MarkedIngested(t: Table, k: Key, eventId: string): Table {
    if Hits(t, k, Processing) then t[k := t[k].(status := Ingested, errorCode := None, lastEventId := eventId)] else t
  }

  function MarkedDuplicate(t: Table, k: Key, eventId: string): Table {
    if k in t then t[k := t[k].(duplicateCount := t[k].duplicateCount + 1, lastEventId := eventId)] else t
  }

  class IngestFiles {
    var rows: Table

    constructor ()
      ensures rows == map[]
    {
      rows := map[];
    }

    method UpsertIngestFile(k: Key, uri: string, eventId: string) returns (status: Status, duplicates: nat)
      modifies this
      ensures rows == Upserted(old(rows), k, uri, eventId)
      ensures k in rows && status == rows[k].status && duplicates == rows[k].duplicateCount
    {
      if k in rows {
        rows := rows[k := rows[k].(storageUri := uri, lastEventId := eventId)];
      } else {
        rows := rows[k := Row(uri, Pending, None, 0, eventId)];
      }
      status, duplicates := rows[k].status, rows[k].duplicateCount;
    }

    method ClaimIngestFile(k: Key) returns (claimed: bool)
      modifies this
      ensures rows == Claimed(old(rows), k)
      ensures claimed == Hits(old(rows), k, Pending)
    {
      claimed := k in rows && rows[k].status == Pending;
      if claimed {
        rows := rows[k := rows[k].(status := Processing, errorCode := None)];
      }
    }

    method MarkDuplicate(k: Key, eventId: string) returns (hit: bool)
      modifies this
      ensures rows == MarkedDuplicate(old(rows), k, eventId)
      ensures hit == (k in old(rows))
    {
      hit := k in rows;
      if hit {
        rows := rows[k := rows[k].(duplicateCount := rows[k].duplicateCount + 1, lastEventId := eventId)];
      }
    }

    method MarkFailed(k: Key, code: ErrorCode) returns (hit: bool)
      modifies this
      ensures rows == MarkedFailed(old(rows), k, code)
      ensures hit == Hits(old(rows), k, Processing)
    {
      hit := k in rows && rows[k].status == Processing;
      if hit {
        rows := rows[k := rows[k].(status := Failed, errorCode := Some(code))];
      }
    }

    method MarkIngested(k: Key, eventId: string) returns (hit: bool)
      modifies this
      ensures rows == MarkedIngested(old(rows), k, eventId)
      ensures hit == Hits(old(rows), k, Processing)
    {
      hit := k in rows && rows[k].status == Processing;
      if hit {
        rows := rows[k := rows[k].(status := Ingested, errorCode := None, lastEventId := eventId)];
      }
    }

    method FetchIngestStatus(k: Key) returns (status: Option<Status>)
      ensures status == StatusOf(rows, k)
    {
      status := if k in rows then Some(rows[k].status) else None;
    }
  }
}
