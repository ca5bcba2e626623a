/**
 The connection table and the three ways a collection writes to it:
 src/infrastructure/repository/connection_repo.py:86-120.
 */
module Connections {
  import opened Common
  import opened Domain

  datatype ConnectionKind = VCenter | HyperVHost | HyperVCluster | Scvmm

  datatype ConnectionStatus =
    StatusActive | Inactive | CredentialError | PermissionError | Unreachable | CollectionError

  datatype ConnectionRow = ConnectionRow(
    kind: ConnectionKind,
    displayName: string,
    status: ConnectionStatus,
    lastAttemptAt: Option<Instant>,
    lastSuccessAt: Option<Instant>,
    lastError: Option<string>)

  type ConnectionTable = map<ConnectionId, ConnectionRow>

  /** What a finished collection says about its connection. */
  datatype Verdict = Succeeded(at: Instant) | FailedWith(error: string, status: ConnectionStatus)

  function Judged(row: ConnectionRow, verdict: Verdict): ConnectionRow {
    match verdict
    case Succeeded(at) => row.(lastSuccessAt := Some(at), lastError := None, status := StatusActive)
    case FailedWith(error, status) => row.(lastError := Some(error), status := status)
  }

  /** Writing a verdict for a connection that is gone changes nothing. */
  function WithVerdict(rows: ConnectionTable, id: ConnectionId, verdict: Verdict): ConnectionTable {
    if id in rows then rows[id := Judged(rows[id], verdict)] else rows
  }

  function WithAttempt(rows: ConnectionTable, id: ConnectionId, now: Instant): ConnectionTable {
    if id in rows then rows[id := rows[id].(lastAttemptAt := Some(now), lastError := None)] else rows
  }

  /** What the three writers leave in a row, column by column; a connection that is gone stays gone. */
  lemma WritersTold(rows: ConnectionTable, id: ConnectionId, now: Instant, error: string, status: ConnectionStatus)
    requires id in rows
    ensures var row := rows[id];
            && WithAttempt(rows, id, now) ==
                 rows[id := ConnectionRow(row.kind, row.displayName, row.status, Some(now), row.lastSuccessAt, None)]
            && WithVerdict(rows, id, Succeeded(now)) ==
                 rows[id := ConnectionRow(row.kind, row.displayName, StatusActive, row.lastAttemptAt, Some(now), None)]
            && WithVerdict(rows, id, FailedWith(error, status)) ==
                 rows[id := ConnectionRow(row.kind, row.displayName, status, row.lastAttemptAt, row.lastSuccessAt,
                                          Some(error))]
  {
  }

  class ConnectionRepository {
    var rows: ConnectionTable

    constructor (rows: ConnectionTable)
      ensures this.rows == rows
    {
      this.rows := rows;
    }

    method MarkAttempt(id: ConnectionId, now: Instant)
      modifies this
      ensures rows == WithAttempt(old(rows), id, now)
    {
      if id in rows {
        var row := rows[id];
        row := row.(lastAttemptAt := Some(now));
        row := row.(lastError := None);
        rows := rows[id := row];
      }
    }

    method MarkSuccess(id: ConnectionId, at: Instant)
      modifies this
      ensures rows == WithVerdict(old(rows), id, Succeeded(at))
    {
      if id in rows {
        var row := rows[id];
        row := row.(lastSuccessAt := Some(at));
        row := row.(lastError := None);
        row := row.(status := StatusActive);
        rows := rows[id := row];
      }
    }

    method MarkFailure(id: ConnectionId, error: string, status: ConnectionStatus)
      modifies this
      ensures rows == WithVerdict(old(rows), id, FailedWith(error, status))
    {
      if id in rows {
        var row := rows[id];
        row := row.(lastError := Some(error));
        row := row.(status := status);
        rows := rows[id := row];
      }
    }
  }
}
