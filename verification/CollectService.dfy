/** One collection: src/application/collect_service.py:58-172. */
module CollectService {
  import opened Common
  import opened Domain
  import opened Inventory
  import opened Streams
  import opened Connections
  import opened VmRepository

  datatype SessionStart =
    | Opened
    | AuthRejected(message: string)
    | PermissionDenied(message: string)
    | PortalFailure(message: string)
    | StartCrashed(message: string)

  /** What the outside does during one collection, database exceptions included. */
  datatype Script = Script(
    start: SessionStart,
    stream: Stream,
    flushFault: Option<nat>,
    markFault: bool)

  datatype CollectSummary = CollectSummary(tally: Tally, failed: bool, error: Option<string>)

  /** A collection returns its summary, or lets an exception out. */
  datatype Collected = Returned(summary: CollectSummary) | Raised

  const DEFAULT_ERROR := "collection failed"

  // ---- Batching --------------------------------------------------------------------------

  /** `len(batch) >= size` with a batch that starts empty: sizes below one act as one. */
  function Effective(size: int): (b: nat)
    ensures b >= 1
  {
    if size < 1 then 1 else size
  }

  /** Machines still waiting in the batch after n machines. */
  function Waiting(n: nat, size: int): (w: nat)
    ensures w < Effective(size) && w <= n
  {
    if n == 0 then 0
    else if Waiting(n - 1, size) + 1 >= size then 0
    else Waiting(n - 1, size) + 1
  }

  /** Batches flushed after n machines. */
  function Flushes(n: nat, size: int): nat {
    if n == 0 then 0
    else Flushes(n - 1, size) + if Waiting(n - 1, size) + 1 >= size then 1 else 0
  }

  /** The batches flushed are full ones, and less than one batch waits. */
  lemma {:induction false} FlushedInFullBatches(n: nat, size: int)
    ensures n == Flushes(n, size) * Effective(size) + Waiting(n, size)
  {
    if n > 0 {
      FlushedInFullBatches(n - 1, size);
      OneMore(Flushes(n - 1, size), Effective(size));
    }
  }

  lemma OneMore(q: int, b: int)
    ensures (q + 1) * b == q * b + b
  {
  }

  /** So both are quotient and remainder; a size below one flushes every machine by itself. */
  lemma FlushesAreTheQuotient(n: nat, size: int)
    ensures Flushes(n, size) == if size >= 1 then n / size else n
    ensures Waiting(n, size) == if size >= 1 then n % size else 0
  {
    FlushedInFullBatches(n, size);
    Quotient(n, if size >= 1 then size else 1, Flushes(n, size), Waiting(n, size));
  }

  lemma Quotient(n: nat, b: nat, q: int, w: int)
    requires b > 0 && n == q * b + w && 0 <= w < b
    ensures n / b == q && n % b == w
  {
    var d := n / b - q;
    assert n == n / b * b + n % b;
    assert d * b == w - n % b;
    Multiples(d, b);
  }

  lemma Multiples(d: int, b: nat)
    requires b > 0
    ensures d >= 1 ==> d * b >= b
    ensures d <= -1 ==> d * b <= 0 - b
  {
  }

  /** Machines in the table when the stream has ended; a lost login drops the waiting batch. */
  function Persisted(stream: Stream, size: int): (n: nat)
    ensures n <= |stream.vms|
  {
    if stream.end.Exhausted? then |stream.vms| else |stream.vms| - Waiting(|stream.vms|, size)
  }

  function AllFlushes(stream: Stream, size: int): nat {
    var n := |stream.vms|;
    Flushes(n, size) + if stream.end.Exhausted? && Waiting(n, size) > 0 then 1 else 0
  }

  // ---- What a collection should do -------------------------------------------------------

  /** The verdict of a collection that no unexpected exception leaves. */
  function VerdictOf(start: SessionStart, stream: Stream, at: Instant): Verdict
    requires !start.StartCrashed? && (start.Opened? ==> !stream.end.Crashed?)
  {
    match start
    case AuthRejected(m) => FailedWith(m, CredentialError)
    case PermissionDenied(m) => FailedWith(m, PermissionError)
    case PortalFailure(m) => FailedWith(m, Unreachable)
    case Opened =>
      match stream.end
      case AuthLost(m) => FailedWith(m, CredentialError)
      case Exhausted =>
        if stream.outcomes != [] && stream.outcomes[0].failed
        then FailedWith(ErrorText(stream.outcomes[0].error), Unreachable)
        else Succeeded(at)
  }

  /** Python's `outcome.error or ...`. */
  function ErrorText(error: Option<string>): string {
    if error.Some? && error.value != "" then error.value else DEFAULT_ERROR
  }

  /** An exception the service does not know leaves the collection. */
  predicate Raises(script: Script, size: int) {
    || script.start.StartCrashed?
    || (script.start.Opened? && script.flushFault.Some? && script.flushFault.value < AllFlushes(script.stream, size))
    || (script.start.Opened? && script.stream.end.Crashed?)
    || script.markFault
  }

  /** The observations a returning collection has written. */
  function Written(script: Script, size: int, at: Instant): seq<Observation> {
    if script.start.Opened? then Stamped(script.stream.vms[..Persisted(script.stream, size)], at) else []
  }

  function SummaryOf(rows: Rows, script: Script, size: int, at: Instant): CollectSummary
    requires !Raises(script, size)
  {
    match VerdictOf(script.start, script.stream, at)
    case Succeeded(_) => CollectSummary(TallyOf(rows, Written(script, size, at)), false, None)
    case FailedWith(error, _) =>
      if script.start.Opened? && script.stream.end.Exhausted?
      then CollectSummary(TallyOf(rows, Written(script, size, at)), true, script.stream.outcomes[0].error)
      else CollectSummary(NOTHING, true, Some(error))
  }

  // ---- The same, told from the script alone ----------------------------------------------------

  /** The reader's first outcome, if it reported one, is a failure. */
  predicate ReportsFailure(stream: Stream) {
    |stream.outcomes| > 0 && stream.outcomes[0].failed
  }

  /** How many batches the stream makes: the full ones, and the rest if the stream ends normally. */
  function BatchCount(stream: Stream, size: int): nat {
    var n := |stream.vms|;
    if size < 1 then n else n / size + if stream.end.Exhausted? && n % size > 0 then 1 else 0
  }

  /** How many machines stay: all, only those of the full batches after a lost login, none if no session opened. */
  function Kept(script: Script, size: int): nat {
    var n := |script.stream.vms|;
    if !script.start.Opened? then 0
    else if script.stream.end.Exhausted? || size < 1 then n
    else n - n % size
  }

  /** Something nobody catches: outside the known failures, at a flush that there is, or in writing the verdict. */
  predicate Surprised(script: Script, size: int) {
    || script.start.StartCrashed? || script.markFault
    || (script.start.Opened?
        && (script.stream.end.Crashed?
            || (script.flushFault.Some? && script.flushFault.value < BatchCount(script.stream, size))))
  }

  lemma RaisesIffSurprised(script: Script, size: int)
    ensures Raises(script, size) <==> Surprised(script, size)
  {
    hide Flushes, Waiting;
    FlushesAreTheQuotient(|script.stream.vms|, size);
  }

  lemma WrittenAreTheKept(script: Script, size: int, at: Instant)
    ensures Kept(script, size) <= |script.stream.vms|
    ensures Written(script, size, at) == Stamped(script.stream.vms[..Kept(script, size)], at)
  {
    hide Flushes, Waiting;
    FlushesAreTheQuotient(|script.stream.vms|, size);
  }

  /** What the verdict is, start by start and end by end. */
  lemma VerdictTold(start: SessionStart, stream: Stream, at: Instant)
    requires !start.StartCrashed? && (start.Opened? ==> !stream.end.Crashed?)
    ensures var v := VerdictOf(start, stream, at);
            && (v.Succeeded? <==> start.Opened? && stream.end.Exhausted? && !ReportsFailure(stream))
            && (v.Succeeded? ==> v.at == at)
            && (start.AuthRejected? ==> v == FailedWith(start.message, CredentialError))
            && (start.PermissionDenied? ==> v == FailedWith(start.message, PermissionError))
            && (start.PortalFailure? ==> v == FailedWith(start.message, Unreachable))
            && (start.Opened? && stream.end.AuthLost? ==> v == FailedWith(stream.end.message, CredentialError))
            && (start.Opened? && stream.end.Exhausted? && ReportsFailure(stream) ==>
                  v.FailedWith? && v.status == Unreachable
                  && (match stream.outcomes[0].error
                      case Some(text) => v.error == if text == "" then DEFAULT_ERROR else text
                      case None => v.error == DEFAULT_ERROR))
  {
  }

  /** What the summary says: the counts only after a stream read to its end, the reader's own words if it failed. */
  lemma SummaryTold(rows: Rows, script: Script, size: int, at: Instant)
    requires !Raises(script, size)
    ensures var summary, stream := SummaryOf(rows, script, size, at), script.stream;
            && (summary.failed <==> !(script.start.Opened? && stream.end.Exhausted? && !ReportsFailure(stream)))
            && summary.tally == (if script.start.Opened? && stream.end.Exhausted?
                                 then TallyOf(rows, Stamped(stream.vms, at)) else NOTHING)
            && (!summary.failed ==> summary.error == None)
            && (script.start.Opened? && stream.end.Exhausted? && ReportsFailure(stream) ==>
                  summary.error == stream.outcomes[0].error)
  {
    hide TallyOf, Flushes, Waiting, AllFlushes;
    assert script.stream.vms[..|script.stream.vms|] == script.stream.vms;
  }

  /**
   The summary counts what was written, except after a login lost in mid-stream: then it counts nothing, though
   the full batches before it have been written. It is wrong exactly if there was a full batch.
   */
  lemma SummaryCountsTheWritten(rows: Rows, script: Script, size: int, at: Instant)
    requires !Raises(script, size)
    ensures SummaryOf(rows, script, size, at).tally == TallyOf(rows, Written(script, size, at)) <==>
            !(script.start.Opened? && script.stream.end.AuthLost? && |script.stream.vms| >= Effective(size))
  {
    hide TallyOf, Waiting, Flushes;
    NothingTallied(rows, Written(script, size, at));
    SomethingPersisted(|script.stream.vms|, size);
  }

  /** One machine, batches of one, then the login is lost: the machine is written, and counted nowhere. */
  lemma LostLoginCountsNothing(vm: VirtualMachine, message: string, at: Instant)
    ensures var script := Script(Opened, Stream([vm], AuthLost(message), []), None, false);
            && !Raises(script, 1)
            && Written(script, 1, at) == [Observation(vm, at)]
            && SummaryOf(map[], script, 1, at).tally == NOTHING
            && TallyOf(map[], Written(script, 1, at)).Total() == 1
  {
    hide TallyOf;
    TallyTotal(map[], [Observation(vm, at)]);
    assert Waiting(1, 1) == 0;
  }

  lemma NothingTallied(rows: Rows, run: seq<Observation>)
    ensures TallyOf(rows, run) == NOTHING <==> run == []
  {
    TallyTotal(rows, run);
  }

  lemma SomethingPersisted(n: nat, size: int)
    ensures n - Waiting(n, size) > 0 <==> n >= Effective(size)
  {
    hide Waiting, Flushes;
    FlushedInFullBatches(n, size);
    var q, b := Flushes(n, size), Effective(size);
    if q > 0 {
      OneMore(q - 1, b);
      assert (q - 1) * b >= 0;
    }
  }

  // ---- The service -----------------------------------------------------------------------

  class Service {
    const connections: ConnectionRepository
    const vms: Repository
    const batchSize: int
    var sessionsClosed: nat

    constructor (connections: ConnectionRepository, vms: Repository, batchSize: int)
      ensures this.connections == connections && this.vms == vms && this.batchSize == batchSize && sessionsClosed == 0
    {
      this.connections, this.vms, this.batchSize, sessionsClosed := connections, vms, batchSize, 0;
    }

    method Collect(id: ConnectionId, script: Script, observedAt: Instant) returns (result: Collected)
      requires vms.Valid()
      modifies this, connections, vms
      ensures vms.Valid()
      ensures sessionsClosed == old(sessionsClosed) + if script.start.Opened? then 1 else 0
      ensures result.Raised? <==> Raises(script, batchSize)
      ensures result.Returned? ==>
                && result.summary == SummaryOf(old(RowsOf(vms.vms)), script, batchSize, observedAt)
                && RowsOf(vms.vms) == Replay(old(RowsOf(vms.vms)), Written(script, batchSize, observedAt))
                && KeepsIds(old(vms.vms), vms.vms)
                && connections.rows ==
                   WithVerdict(old(connections.rows), id, VerdictOf(script.start, script.stream, observedAt))
    {
      hide Replay, TallyOf, RowsOf, KeepsIds, KeysUnique, Waiting, Flushes, AllFlushes, WithVerdict;
      NothingWritten(vms.vms);
      match script.start {
        case StartCrashed(_) =>
          return Raised;
        case AuthRejected(message) =>
          result := Fail(id, message, CredentialError, script.markFault);
          return;
        case PermissionDenied(message) =>
          result := Fail(id, message, PermissionError, script.markFault);
          return;
        case PortalFailure(message) =>
          result := Fail(id, message, Unreachable, script.markFault);
          return;
        case Opened =>
      }
      var consumed := Consume(id, script.stream, script.flushFault, observedAt);
      sessionsClosed := sessionsClosed + 1;
      if consumed.None? {
        return Raised;
      }
      match script.stream.end {
        case Crashed(_) =>
          return Raised;
        case AuthLost(message) =>
          result := Fail(id, message, CredentialError, script.markFault);
          return;
        case Exhausted =>
      }
      if script.markFault {
        return Raised;
      }
      var outcomes := script.stream.outcomes;
      if outcomes != [] && outcomes[0].failed {
        connections.MarkFailure(id, ErrorText(outcomes[0].error), Unreachable);
        return Returned(CollectSummary(consumed.value, true, outcomes[0].error));
      }
      connections.MarkSuccess(id, observedAt);
      return Returned(CollectSummary(consumed.value, false, None));
    }

    /** The failure branches: record the verdict, report an empty summary. */
    method Fail(id: ConnectionId, message: string, status: ConnectionStatus, markFault: bool)
      returns (result: Collected)
      modifies connections
      ensures result.Raised? <==> markFault
      ensures result.Returned? ==>
                && result.summary == CollectSummary(NOTHING, true, Some(message))
                && connections.rows == WithVerdict(old(connections.rows), id, FailedWith(message, status))
    {
      if markFault {
        return Raised;
      }
      connections.MarkFailure(id, message, status);
      return Returned(CollectSummary(NOTHING, true, Some(message)));
    }

    /** Reads the stream to its end; None means the database raised during a flush. */
    method Consume(id: ConnectionId, stream: Stream, flushFault: Option<nat>, observedAt: Instant)
      returns (counted: Option<Tally>)
      requires vms.Valid()
      modifies vms
      ensures vms.Valid()
      ensures counted.None? <==> flushFault.Some? && flushFault.value < AllFlushes(stream, batchSize)
      ensures counted.Some? ==>
                Wrote(old(vms.vms), vms.vms, stream.vms, Persisted(stream, batchSize), observedAt, counted.value)
    {
      hide Wrote;
      var tally, flushes, batch := FlushFullBatches(id, stream.vms, flushFault, observedAt);
      if tally.None? || batch == [] || !stream.end.Exhausted? {
        return tally;
      }
      if flushFault == Some(flushes) {
        return None;
      }
      var total := Flush(id, batch, observedAt, tally.value, old(vms.vms), stream.vms, |stream.vms| - |batch|);
      return Some(total);
    }

    /** The batching loop; leaves with what waits in the batch. */
    method FlushFullBatches(id: ConnectionId, machines: seq<VirtualMachine>, flushFault: Option<nat>,
                            observedAt: Instant)
      returns (counted: Option<Tally>, flushes: nat, batch: seq<VirtualMachine>)
      requires vms.Valid()
      modifies vms
      ensures vms.Valid()
      ensures counted.None? <==> flushFault.Some? && flushFault.value < Flushes(|machines|, batchSize)
      ensures counted.Some? ==>
                && flushes == Flushes(|machines|, batchSize)
                && |batch| == Waiting(|machines|, batchSize)
                && batch == machines[|machines| - |batch|..]
                && Wrote(old(vms.vms), vms.vms, machines, |machines| - |batch|, observedAt, counted.value)
    {
      hide *;
      ghost var first := vms.vms;
      counted, flushes, batch := Some(NOTHING), 0, [];
      LoopStarts(vms, machines, batchSize, flushFault, observedAt);
      var i := 0;
      while i < |machines| && counted.Some?
        invariant i <= |machines| && vms.Valid()
        invariant Loop(first, vms.vms, machines, i, counted, flushes, batch, batchSize, flushFault, observedAt)
      {
        counted, flushes, batch := Take(id, flushFault, observedAt, counted.value, flushes, batch, first, machines, i);
        i := i + 1;
      }
      LoopEnds(first, vms.vms, machines, i, counted, flushes, batch, batchSize, flushFault, observedAt);
    }

    /** One turn of the loop: append, and flush when the batch is full. */
    method Take(id: ConnectionId, flushFault: Option<nat>, observedAt: Instant, tally: Tally, flushesBefore: nat,
                waiting: seq<VirtualMachine>, ghost first: VmTable, machines: seq<VirtualMachine>, i: nat)
      returns (counted: Option<Tally>, flushes: nat, batch: seq<VirtualMachine>)
      requires vms.Valid() && i < |machines|
      requires Loop(first, vms.vms, machines, i, Some(tally), flushesBefore, waiting, batchSize, flushFault, observedAt)
      modifies vms
      ensures vms.Valid()
      ensures Loop(first, vms.vms, machines, i + 1, counted, flushes, batch, batchSize, flushFault, observedAt)
    {
      hide Wrote, Repository.Valid;
      counted, flushes, batch := Some(tally), flushesBefore, waiting + [machines[i]];
      assert batch == machines[i + 1 - |batch|..i + 1];
      if |batch| >= batchSize {
        if flushFault == Some(flushes) {
          return None, flushes, batch;
        }
        var total := Flush(id, batch, observedAt, tally, first, machines, i + 1 - |batch|);
        return Some(total), flushes + 1, [];
      }
    }

    /** Upserts a batch, the machines from the given one on, and adds its counts to the totals. */
    method Flush(id: ConnectionId, batch: seq<VirtualMachine>, observedAt: Instant, tally: Tally,
                 ghost first: VmTable, ghost machines: seq<VirtualMachine>, ghost from: nat) returns (total: Tally)
      requires vms.Valid()
      requires from + |batch| <= |machines| && batch == machines[from..from + |batch|]
      requires Wrote(first, vms.vms, machines, from, observedAt, tally)
      modifies vms
      ensures vms.Valid()
      ensures Wrote(first, vms.vms, machines, from + |batch|, observedAt, total)
    {
      hide Wrote, Replay, TallyOf, RowsOf, KeysUnique, IndexAgrees, KeepsIds;
      ghost var before := vms.vms;
      var result := vms.UpsertVirtualMachines(id, batch, observedAt);
      MoreWritten(first, before, vms.vms, machines, from, batch, observedAt, tally, result.value);
      return tally.Plus(result.value);
    }
  }

  /** From one table to the other, the first n machines have been upserted and counted, and every row kept its id. */
  ghost predicate Wrote(first: VmTable, now: VmTable, machines: seq<VirtualMachine>, n: nat, at: Instant, tally: Tally)
  {
    && KeysUnique(first) && KeysUnique(now) && n <= |machines|
    && KeepsIds(first, now)
    && RowsOf(now) == Replay(RowsOf(first), Stamped(machines[..n], at))
    && tally == TallyOf(RowsOf(first), Stamped(machines[..n], at))
  }

  /** One more batch after the first machines. */
  lemma MoreWritten(first: VmTable, before: VmTable, now: VmTable, machines: seq<VirtualMachine>, from: nat,
                    batch: seq<VirtualMachine>, at: Instant, tally: Tally, added: Tally)
    requires Wrote(first, before, machines, from, at, tally) && KeysUnique(now) && KeepsIds(before, now)
    requires from + |batch| <= |machines| && batch == machines[from..from + |batch|]
    requires RowsOf(now) == Replay(RowsOf(before), Stamped(batch, at))
    requires added == TallyOf(RowsOf(before), Stamped(batch, at))
    ensures Wrote(first, now, machines, from + |batch|, at, tally.Plus(added))
  {
    IdsStillKept(first, before, now);
    hide Replay, TallyOf, Tally.Plus, RowsOf, KeysUnique, KeepsIds;
    var rows, done := RowsOf(first), machines[..from];
    assert machines[..from + |batch|] == done + batch;
    StampedAppend(done, batch, at);
    ReplayInPieces(rows, Stamped(done, at), Stamped(batch, at));
    TallyInPieces(rows, Stamped(done, at), Stamped(batch, at));
  }

  lemma IdsStillKept(first: VmTable, before: VmTable, now: VmTable)
    requires KeysUnique(first) && KeysUnique(before) && KeysUnique(now)
    requires KeepsIds(first, before) && KeepsIds(before, now)
    ensures KeepsIds(first, now)
  {
    hide KeysUnique;
  }

  /**
   After i machines: the last of them wait in the batch, the others have been flushed and counted;
   or the database has raised during one of the flushes.
   */
  ghost predicate Loop(first: VmTable, now: VmTable, machines: seq<VirtualMachine>, i: nat, counted: Option<Tally>,
                       flushes: nat, batch: seq<VirtualMachine>, size: int, flushFault: Option<nat>, at: Instant)
  {
    match counted
    case None => flushFault.Some? && flushFault.value < Flushes(i, size)
    case Some(tally) =>
      && |batch| <= i <= |machines|
      && batch == machines[i - |batch|..i]
      && |batch| == Waiting(i, size)
      && flushes == Flushes(i, size)
      && (flushFault.Some? ==> flushFault.value >= flushes)
      && Wrote(first, now, machines, i - |batch|, at, tally)
  }

  lemma NothingWritten(vms: VmTable)
    requires KeysUnique(vms)
    ensures Replay(RowsOf(vms), []) == RowsOf(vms) && KeepsIds(vms, vms)
  {
  }

  lemma LoopStarts(repository: Repository, machines: seq<VirtualMachine>, size: int,
                   flushFault: Option<nat>, at: Instant)
    requires repository.Valid()
    ensures Loop(repository.vms, repository.vms, machines, 0, Some(NOTHING), 0, [], size, flushFault, at)
  {
    assert Stamped(machines[..0], at) == [];
  }

  lemma LoopEnds(first: VmTable, now: VmTable, machines: seq<VirtualMachine>, i: nat, counted: Option<Tally>,
                 flushes: nat, batch: seq<VirtualMachine>, size: int, flushFault: Option<nat>, at: Instant)
    requires Loop(first, now, machines, i, counted, flushes, batch, size, flushFault, at)
    requires i <= |machines| && (i == |machines| || counted.None?)
    ensures counted.None? <==> flushFault.Some? && flushFault.value < Flushes(|machines|, size)
    ensures counted.Some? ==>
              && flushes == Flushes(|machines|, size)
              && |batch| == Waiting(|machines|, size)
              && |batch| <= |machines| && batch == machines[|machines| - |batch|..]
              && Wrote(first, now, machines, |machines| - |batch|, at, counted.value)
  {
    hide Wrote, Waiting, Flushes;
    FlushesGrow(i, |machines|, size);
  }

  lemma {:induction false} FlushesGrow(i: nat, n: nat, size: int)
    requires i <= n
    ensures Flushes(i, size) <= Flushes(n, size)
    decreases n - i
  {
    if i < n {
      FlushesGrow(i, n - 1, size);
    }
  }
}
