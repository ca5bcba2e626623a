/**
 A collection from request to verdict, and any history of them: src/api/routes/connections.py:136-264,
 with connection removal from src/application/connection_service.py:126-143.
 */
module CollectionRun {
  import opened Common
  import opened Domain
  import opened Inventory
  import opened Streams
  import opened Connections
  import opened VmRepository
  import opened CollectService
  import History
  import VCenterReader
  import Accounts

  /** The committed tables, read as maps. */
  datatype Portal = Portal(rows: Rows, connections: ConnectionTable)

  /** One background run, with every point at which an unexpected exception may strike. */
  datatype Run = Run(
    id: ConnectionId,
    script: Script,
    at: Instant,
    message: string,
    loadFault: bool,
    commitFault: bool,
    logFault: bool,
    recordFault: bool)
  {
    predicate FailsBeforeCommit(size: int) {
      loadFault || Raises(script, size) || commitFault
    }
  }

  // ---- What a run should do --------------------------------------------------------------

  /** The verdict left for an exception nobody expected, if the database can take it. */
  function Recorded(p: Portal, run: Run): Portal {
    if run.recordFault then p
    else p.(connections := WithVerdict(p.connections, run.id, FailedWith(run.message, CollectionError)))
  }

  function Committed(p: Portal, run: Run, size: int): Portal
    requires !run.FailsBeforeCommit(size)
  {
    Portal(Replay(p.rows, Written(run.script, size, run.at)),
           WithVerdict(p.connections, run.id, VerdictOf(run.script.start, run.script.stream, run.at)))
  }

  function RunOnce(p: Portal, run: Run, size: int): Portal {
    if run.id !in p.connections then p
    else if run.FailsBeforeCommit(size) then Recorded(p, run)
    else if run.logFault then Recorded(Committed(p, run, size), run)
    else Committed(p, run, size)
  }

  // ---- Histories ---------------------------------------------------------------------------

  datatype Event =
    | Register(registered: ConnectionId, kind: ConnectionKind, displayName: string)
    | Attempt(attempted: ConnectionId, now: Instant)
    | Collect(run: Run, batchSize: int)
    | Remove(actor: Accounts.AccessScope, removed: ConnectionId)

  datatype RemoveError = NotAllowed | NotFound | HasMachines

  predicate HasActiveMachines(rows: Rows, id: ConnectionId) {
    exists k | k in rows :: k.0 == id && rows[k].lifecycle == Active
  }

  function Apply(p: Portal, e: Event): Portal {
    match e
    case Register(id, kind, name) =>
      if id in p.connections then p
      else p.(connections := p.connections[id := ConnectionRow(kind, name, StatusActive, None, None, None)])
    case Attempt(id, now) => p.(connections := WithAttempt(p.connections, id, now))
    case Collect(run, size) => RunOnce(p, run, size)
    case Remove(actor, id) =>
      if !actor.Has(Accounts.ConnectionManage) || HasActiveMachines(p.rows, id) then p
      else p.(connections := p.connections - {id})
  }

  function ApplyAll(p: Portal, events: seq<Event>): Portal {
    if events == [] then p else Apply(ApplyAll(p, events[..|events| - 1]), events[|events| - 1])
  }

  // ---- The database ------------------------------------------------------------------------

  class Database {
    var vms: VmTable
    var identities: set<IdentityRow>
    var connections: ConnectionTable

    ghost predicate Valid()
      reads this
    {
      KeysUnique(vms) && IndexAgrees(vms, identities)
    }

    ghost function State(): Portal
      reads this
      requires Valid()
    {
      Portal(RowsOf(vms), connections)
    }

    constructor (connections: ConnectionTable)
      ensures Valid() && State() == Portal(map[], connections)
    {
      vms, identities, this.connections := map[], {}, connections;
    }

    /** The request: record the attempt, or report that there is no such connection. */
    method RecordAttempt(id: ConnectionId, now: Instant) returns (found: bool)
      requires Valid()
      modifies `connections
      ensures Valid() && found == (id in old(connections))
      ensures State() == old(State()).(connections := WithAttempt(old(connections), id, now))
      ensures found ==>
                && id in connections
                && connections == old(connections)[id := connections[id]]
                && connections[id] == old(connections)[id].(lastAttemptAt := Some(now), lastError := None)
      ensures !found ==> connections == old(connections)
    {
      if id !in connections {
        return false;
      }
      var session := new ConnectionRepository(connections);
      session.MarkAttempt(id, now);
      connections := session.rows;
      return true;
    }

    /** The background run: a session of its own, published by the commit and dropped by the rollback. */
    method CollectOnce(run: Run, batchSize: int)
      requires Valid()
      modifies this
      ensures Valid() && KeepsIds(old(vms), vms)
      ensures State() == RunOnce(old(State()), run, batchSize)
    {
      hide Raises, Written, VerdictOf, SummaryOf, KeysUnique, IndexAgrees, WithVerdict;
      if run.id !in connections {
        return;
      }
      var sessionConnections := new ConnectionRepository(connections);
      var sessionVms := new Repository(vms, identities);
      var service := new Service(sessionConnections, sessionVms, batchSize);
      if run.loadFault {
        MarkUnexpectedFailure(run);
        return;
      }
      var collected := service.Collect(run.id, run.script, run.at);
      if collected.Raised? || run.commitFault {
        MarkUnexpectedFailure(run);
        return;
      }
      vms, identities, connections := sessionVms.vms, sessionVms.identities, sessionConnections.rows;
      if run.logFault {
        MarkUnexpectedFailure(run);
      }
    }

    method AddConnection(id: ConnectionId, kind: ConnectionKind, displayName: string)
      requires Valid()
      modifies `connections
      ensures Valid() && State() == Apply(old(State()), Register(id, kind, displayName))
      ensures id !in old(connections) ==>
                connections == old(connections)[id := ConnectionRow(kind, displayName, StatusActive, None, None, None)]
      ensures id in old(connections) ==> connections == old(connections)
    {
      if id !in connections {
        connections := connections[id := ConnectionRow(kind, displayName, StatusActive, None, None, None)];
      }
    }

    /** Permission, existence, no active machines: in this order; only then the connection goes. */
    method RemoveConnection(actor: Accounts.AccessScope, id: ConnectionId) returns (raised: Option<RemoveError>)
      requires Valid()
      modifies `connections
      ensures raised == if actor.role != Accounts.Admin then Some(NotAllowed)
                        else if id !in old(connections) then Some(NotFound)
                        else if exists r <- vms :: vms[r].columns.connectionId == id && vms[r].lifecycle == Active
                        then Some(HasMachines)
                        else None
      ensures Valid() && State() == Apply(old(State()), Remove(actor, id))
      ensures connections == if raised == None then old(connections) - {id} else old(connections)
    {
      hide KeysUnique, IndexAgrees, RowsOf, ActiveRows, HasActiveMachines;
      ActiveInTable(vms, id);
      if !actor.Has(Accounts.ConnectionManage) {
        return Some(NotAllowed);
      }
      if id !in connections {
        assert connections - {id} == connections;
        return Some(NotFound);
      }
      ActiveRowsTold(vms, id);
      var count := |ActiveRows(vms, id)|;
      if count > 0 {
        return Some(HasMachines);
      }
      connections := connections - {id};
      return None;
    }

    method Handle(e: Event)
      requires Valid()
      modifies this
      ensures Valid() && KeepsIds(old(vms), vms)
      ensures State() == Apply(old(State()), e)
    {
      hide RunOnce, KeysUnique, IndexAgrees, WithAttempt;
      match e {
        case Register(id, kind, name) => AddConnection(id, kind, name);
        case Attempt(id, now) => var _ := RecordAttempt(id, now);
        case Collect(run, size) => CollectOnce(run, size);
        case Remove(actor, id) => var _ := RemoveConnection(actor, id);
      }
    }

    /** Any history: the tables hold what the events say, and every machine has kept its row id. */
    method HandleAll(events: seq<Event>)
      requires Valid()
      modifies this
      ensures Valid() && KeepsIds(old(vms), vms)
      ensures State() == ApplyAll(old(State()), events)
    {
      hide Apply, KeysUnique, IndexAgrees;
      for i := 0 to |events|
        invariant Valid() && KeepsIds(old(vms), vms)
        invariant State() == ApplyAll(old(State()), events[..i])
      {
        assert events[..i + 1][..i] == events[..i];
        Handle(events[i]);
      }
      assert events[..|events|] == events;
    }

    method MarkUnexpectedFailure(run: Run)
      requires Valid()
      modifies `connections
      ensures Valid() && State() == Recorded(old(State()), run)
    {
      if !run.recordFault {
        var session := new ConnectionRepository(connections);
        session.MarkFailure(run.id, run.message, CollectionError);
        connections := session.rows;
      }
    }
  }

  function ActiveRows(vms: VmTable, id: ConnectionId): set<ResourceId> {
    set r | r in vms && vms[r].columns.connectionId == id && vms[r].lifecycle == Active
  }

  lemma ActiveRowsTold(vms: VmTable, id: ConnectionId)
    ensures ActiveRows(vms, id) != {} <==>
            exists r <- vms :: vms[r].columns.connectionId == id && vms[r].lifecycle == Active
  {
    if r :| r in vms && vms[r].columns.connectionId == id && vms[r].lifecycle == Active {
      assert r in ActiveRows(vms, id);
    }
  }

  /** The rows of the table and those of the map hold the same active machines. */
  lemma ActiveInTable(vms: VmTable, id: ConnectionId)
    requires KeysUnique(vms)
    ensures HasActiveMachines(RowsOf(vms), id) <==>
            ActiveRows(vms, id) != {}
  {
    if r :| r in ActiveRows(vms, id) {
      var k := vms[r].columns.Key();
      assert k in RowsOf(vms) && RowsOf(vms)[k] == vms[r];
    }
    if k :| k in RowsOf(vms) && k.0 == id && RowsOf(vms)[k].lifecycle == Active {
      assert IdOf(vms)[k] in ActiveRows(vms, id);
    }
  }

  // ---- One verdict for each run ----------------------------------------------------------

  predicate LooksSuccessful(row: ConnectionRow, at: Instant) {
    row.status == StatusActive && row.lastError == None && row.lastSuccessAt == Some(at)
  }

  predicate LooksFailed(row: ConnectionRow) {
    row.status != StatusActive && row.lastError.Some?
  }

  /** An exception that nobody expected, before or after the commit. */
  predicate Unexpected(run: Run, size: int) {
    run.loadFault || run.commitFault || run.logFault || Surprised(run.script, size)
  }

  /** Nothing struck, the session opened, the stream was read to its end, and the reader reported no failure. */
  predicate Clean(run: Run, size: int) {
    && !Unexpected(run, size)
    && run.script.start.Opened? && run.script.stream.end.Exhausted? && !ReportsFailure(run.script.stream)
  }

  /** Wherever an exception strikes, a run that can write ends in one of two verdicts,
      and success means nothing struck. */
  lemma SingleVerdict(p: Portal, run: Run, size: int)
    requires run.id in p.connections && !run.recordFault
    ensures run.id in RunOnce(p, run, size).connections
    ensures var row := RunOnce(p, run, size).connections[run.id];
            && (Clean(run, size) ==> LooksSuccessful(row, run.at))
            && (!Clean(run, size) ==> LooksFailed(row))
  {
    hide Replay, Raises;
    RaisesIffSurprised(run.script, size);
  }

  /** Which failure it shows, and in whose words; the other columns stay. */
  lemma VerdictShown(p: Portal, run: Run, size: int)
    requires run.id in p.connections && !run.recordFault
    ensures run.id in RunOnce(p, run, size).connections
    ensures var before, row := p.connections[run.id], RunOnce(p, run, size).connections[run.id];
            && (row.status == StatusActive <==> Clean(run, size))
            && row.lastError ==
                 (if Unexpected(run, size) then Some(run.message)
                  else if !run.script.start.Opened? then Some(run.script.start.message)
                  else match run.script.stream.end
                       case AuthLost(m) => Some(m)
                       case Exhausted =>
                         if !ReportsFailure(run.script.stream) then None
                         else
                           match run.script.stream.outcomes[0].error
                           case Some(text) => Some(if text == "" then "collection failed" else text)
                           case None => Some("collection failed"))
            && (Unexpected(run, size) ==> row.status == CollectionError)
            && (!Unexpected(run, size) ==>
                  && (run.script.start.AuthRejected? ==> row.status == CredentialError)
                  && (run.script.start.PermissionDenied? ==> row.status == PermissionError)
                  && (run.script.start.PortalFailure? ==> row.status == Unreachable)
                  && (run.script.start.Opened? && run.script.stream.end.AuthLost? ==> row.status == CredentialError)
                  && (run.script.start.Opened? && run.script.stream.end.Exhausted? && !Clean(run, size) ==>
                        row.status == Unreachable))
            && row == before.(status := row.status, lastError := row.lastError, lastSuccessAt := row.lastSuccessAt)
            && row.lastSuccessAt ==
                 if Clean(run.(logFault := false), size) then Some(run.at) else before.lastSuccessAt
  {
    hide Replay, Raises;
    RaisesIffSurprised(run.script, size);
  }

  /** A connection that is gone, or a failure that could not be recorded, leaves no trace of its own. */
  lemma NoTrace(p: Portal, run: Run, size: int)
    ensures run.id !in p.connections ==> RunOnce(p, run, size) == p
    ensures run.recordFault ==>
              RunOnce(p, run, size) ==
              if Unexpected(run.(logFault := false), size) then p
              else RunOnce(p, run.(logFault := false, recordFault := false), size)
  {
    hide Replay, Raises, Written;
    RaisesIffSurprised(run.script, size);
  }

  /** And which machines: none after an exception before the commit, else those kept, in order. */
  lemma MachinesShown(p: Portal, run: Run, size: int)
    requires run.id in p.connections
    ensures Kept(run.script, size) <= |run.script.stream.vms|
    ensures RunOnce(p, run, size).rows ==
            if Unexpected(run.(logFault := false), size) then p.rows
            else Replay(p.rows, Stamped(run.script.stream.vms[..Kept(run.script, size)], run.at))
  {
    hide Replay, Raises, Written;
    RaisesIffSurprised(run.script, size);
    WrittenAreTheKept(run.script, size, run.at);
  }

  /** A run writes to no other connection. */
  lemma OtherConnectionsUntouched(p: Portal, run: Run, size: int, other: ConnectionId)
    requires other != run.id
    ensures other in RunOnce(p, run, size).connections <==> other in p.connections
    ensures other in p.connections ==> RunOnce(p, run, size).connections[other] == p.connections[other]
  {
    hide Replay;
  }

  /** An unexpected exception leaves the machines exactly as they were, if it comes before the commit. */
  lemma FaultBeforeCommitChangesNoRow(p: Portal, run: Run, size: int)
    requires run.FailsBeforeCommit(size)
    ensures RunOnce(p, run, size).rows == p.rows
  {
  }

  /** Once the commit is through, the machines stay collected, though the run is then recorded as failed. */
  lemma FaultAfterCommitKeepsRows(p: Portal, run: Run, size: int)
    requires run.id in p.connections && !run.FailsBeforeCommit(size) && run.logFault && !run.recordFault
    ensures RunOnce(p, run, size).rows == Replay(p.rows, Written(run.script, size, run.at))
    ensures LooksFailed(RunOnce(p, run, size).connections[run.id])
  {
    hide Replay;
  }

  /**
   When the machines are exactly as before: on a clock that has moved on since the stored rows were seen, if and only
   if the run fails before its commit, or has written nothing. An exception after the commit is no reason.
   */
  lemma TableUnchangedIff(p: Portal, run: Run, size: int)
    requires run.id in p.connections
    requires forall k <- p.rows :: p.rows[k].lastSeenAt != run.at
    ensures RunOnce(p, run, size).rows == p.rows <==>
            run.FailsBeforeCommit(size) || Written(run.script, size, run.at) == []
  {
    hide Written, VerdictOf, Raises;
    if !run.FailsBeforeCommit(size) && Written(run.script, size, run.at) != [] {
      WrittenAt(run.script, size, run.at);
      LastOneIsSeen(p.rows, Written(run.script, size, run.at));
    }
  }

  lemma WrittenAt(script: Script, size: int, at: Instant)
    ensures forall o <- Written(script, size, at) :: o.at == at
  {
  }

  lemma LastOneIsSeen(rows: Rows, run: seq<Observation>)
    requires run != []
    ensures var o := run[|run| - 1]; o.Key() in Replay(rows, run) && Replay(rows, run)[o.Key()].lastSeenAt == o.at
  {
    hide ToColumns;
  }

  /** One machine is collected and committed, then the log call raises: the run looks failed, the machine is there. */
  lemma LateFaultChangesTheTable(vm: VirtualMachine, row: ConnectionRow, at: Instant, message: string)
    ensures var script := Script(Opened, Stream([vm], Exhausted, [Outcome(1, false, None)]), None, false);
            var run := Run(vm.connectionId, script, at, message, false, false, true, false);
            var after := RunOnce(Portal(map[], map[vm.connectionId := row]), run, 1);
            && after.rows == Observe(map[], Observation(vm, at)) && after.rows != map[]
            && vm.connectionId in after.connections && LooksFailed(after.connections[vm.connectionId])
  {
    hide Observe;
    var run := [Observation(vm, at)];
    assert run[..0] == [] && [vm][..1] == [vm];
    assert Stamped([vm], at) == run;
    assert Replay(map[], run) == Observe(map[], run[0]);
    History.ObservedIsKnown(map[], run[0]);
  }

  // ---- What every history keeps ----------------------------------------------------------

  /** Readers put the id of the connection they read into every machine. */
  ghost predicate OwnMachines(e: Event) {
    e.Collect? ==> forall vm <- e.run.script.stream.vms :: vm.connectionId == e.run.id
  }

  /** A recorded error goes with a status other than active, machines are active,
      and each belongs to a known connection. */
  ghost predicate Sound(p: Portal) {
    && (forall id <- p.connections :: p.connections[id].lastError.Some? ==> p.connections[id].status != StatusActive)
    && (forall k <- p.rows :: p.rows[k].lifecycle == Active && k.0 in p.connections)
  }

  lemma ReplayOwnRows(rows: Rows, run: seq<Observation>, id: ConnectionId)
    requires forall k <- rows :: rows[k].lifecycle == Active
    requires forall o <- run :: o.vm.connectionId == id
    ensures forall k <- Replay(rows, run) :: Replay(rows, run)[k].lifecycle == Active && (k in rows || k.0 == id)
    decreases |run|
  {
    hide ToColumns;
    if run != [] {
      ReplayOwnRows(rows, run[..|run| - 1], id);
    }
  }

  lemma ApplySound(p: Portal, e: Event)
    requires Sound(p) && OwnMachines(e)
    ensures Sound(Apply(p, e))
  {
    hide Replay;
    if e.Collect? && e.run.id in p.connections && !e.run.FailsBeforeCommit(e.batchSize) {
      ReplayOwnRows(p.rows, Written(e.run.script, e.batchSize, e.run.at), e.run.id);
    }
  }

  lemma {:induction false} AlwaysSound(events: seq<Event>)
    requires forall e <- events :: OwnMachines(e)
    ensures Sound(ApplyAll(Portal(map[], map[]), events))
    decreases |events|
  {
    if events != [] {
      AlwaysSound(events[..|events| - 1]);
      ApplySound(ApplyAll(Portal(map[], map[]), events[..|events| - 1]), events[|events| - 1]);
    }
  }

  /** Whatever succeeds or fails, no machine is lost and each keeps the time it was first seen. */
  lemma {:induction false} MachinesStay(p: Portal, events: seq<Event>)
    ensures forall k <- p.rows :: k in ApplyAll(p, events).rows
              && ApplyAll(p, events).rows[k].firstSeenAt == p.rows[k].firstSeenAt
    decreases |events|
  {
    hide Replay;
    if events != [] {
      var e, q := events[|events| - 1], ApplyAll(p, events[..|events| - 1]);
      MachinesStay(p, events[..|events| - 1]);
      if e.Collect? && e.run.id in q.connections && !e.run.FailsBeforeCommit(e.batchSize) {
        History.RowsStay(q.rows, Written(e.run.script, e.batchSize, e.run.at));
      }
    }
  }

  // ---- Pages and batches -----------------------------------------------------------------

  /**
   From the server to the table: however the server cuts its machines into pages and the service into
   batches, a clean collection writes every machine in order, counts each once, and reports their number.
   */
  lemma PageAndBatchSizeIrrelevant(rows: Rows, vms: seq<VirtualMachine>,
                                   server: VCenterReader.Chain, batchSize: int, at: Instant)
    requires VCenterReader.Failure(server) == None
    requires |VCenterReader.Objects(server)| == |vms|
    requires forall i | 0 <= i < |vms| :: VCenterReader.Objects(server)[i] == Mappable(vms[i])
    ensures var stream := VCenterReader.StreamOf(VCenterReader.Objects(server), VCenterReader.Failure(server));
            var script := Script(Opened, stream, None, false);
            && !Raises(script, batchSize)
            && VerdictOf(Opened, stream, at) == Succeeded(at)
            && Written(script, batchSize, at) == Stamped(vms, at)
            && SummaryOf(rows, script, batchSize, at) == CollectSummary(TallyOf(rows, Stamped(vms, at)), false, None)
            && TallyOf(rows, Stamped(vms, at)).Total() == |vms|
            && |stream.outcomes| == 1 && stream.outcomes[0].collectedCount == |vms|
  {
    hide TallyOf, VCenterReader.Objects;
    MappedPrefix(VCenterReader.Objects(server), vms);
    assert vms[..|vms|] == vms;
    TallyTotal(rows, Stamped(vms, at));
  }

  /** One batch or many: the same rows and the same counts as one machine at a time. */
  lemma {:induction false} OneAtATime(rows: Rows, vms: seq<VirtualMachine>, at: Instant, n: nat)
    requires n < |vms|
    ensures Replay(rows, Stamped(vms[..n + 1], at)) ==
            Observe(Replay(rows, Stamped(vms[..n], at)), Observation(vms[n], at))
  {
    assert Stamped(vms[..n + 1], at)[..n] == Stamped(vms[..n], at);
  }
}
