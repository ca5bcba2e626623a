/**
 Whole runs, interleaved: requests, background collections, late failures, new and removed connections, in any order
 of their commits (src/api/routes/connections.py:106-264). The admission guard and the sessions are those of module
 AdmissionGuard; here each of them also writes its connection's row, and the machines and connections together are
 compared with the history of module CollectionRun, in which one run follows the other.
 */
module InterleavedRuns {
  import opened Common
  import opened Domain
  import opened Inventory
  import opened Connections
  import CollectService
  import Accounts
  import Runs = CollectionRun
  import Guard = AdmissionGuard

  type TaskId = Guard.TaskId

  /** What an admitted collection is about to do. */
  datatype Stage =
    | Running(run: Runs.Run, size: int)           // its session is open
    | Failing(run: Runs.Run, size: int)           // rolled back, the failure not recorded yet
    | Late(run: Runs.Run, size: int, index: nat)  // committed as this event, the late failure not recorded yet

  /** The log says which history the tables should show: the runs in the order of their commits. */
  datatype World = World(
    server: Guard.Server,
    connections: ConnectionTable,
    stages: map<TaskId, Stage>,
    log: seq<Runs.Event>)

  const START := World(Guard.IDLE, map[], map[], [])

  const EMPTY := Runs.Portal(map[], map[])

  datatype Move =
    | Request(t: TaskId, id: ConnectionId, setupRaises: bool)
    | OpenFails(t: TaskId)
    | Open(t: TaskId, now: Instant)
    | Begin(t: TaskId, run: Runs.Run, size: int, cipherRaises: bool)
    | Flush(t: TaskId, n: nat)
    | Commit(t: TaskId)
    | Abort(t: TaskId)
    | Record(t: TaskId, works: bool)
    | Release(t: TaskId)
    | Register(id: ConnectionId, kind: ConnectionKind, displayName: string)
    | Remove(actor: Accounts.AccessScope, id: ConnectionId)

  // ---- Moves -----------------------------------------------------------------------------

  function Serve(w: World, a: Guard.Action): World {
    w.(server := Guard.Step(w.server, a))
  }

  function Tables(w: World): Runs.Portal {
    Runs.Portal(w.server.committed, w.connections)
  }

  /** The verdict of an exception nobody expected. */
  function Failure(rows: ConnectionTable, run: Runs.Run): ConnectionTable {
    WithVerdict(rows, run.id, FailedWith(run.message, CollectionError))
  }

  function ToWrite(run: Runs.Run, size: int): (obs: seq<Observation>)
    ensures |obs| <= |run.script.stream.vms|
  {
    CollectService.Written(run.script, size, run.at)
  }

  function OpenMove(w: World, t: TaskId, now: Instant): World {
    if t !in w.server.tasks || !w.server.tasks[t].phase.Opening? then w
    else
      var id := w.server.tasks[t].id;
      Serve(w, Guard.OpenSucceeds(t)).(connections := WithAttempt(w.connections, id, now),
                                       log := w.log + [Runs.Attempt(id, now)])
  }

  ghost predicate CanBegin(w: World, t: TaskId, run: Runs.Run, size: int) {
    && t in w.server.tasks && w.server.tasks[t].phase.Scheduled? && t !in w.stages
    && run.id == w.server.tasks[t].id && Runs.OwnMachines(Runs.Collect(run, size))
  }

  ghost function BeginMove(w: World, t: TaskId, run: Runs.Run, size: int, cipherRaises: bool): World {
    if !CanBegin(w, t, run, size) then w
    else if cipherRaises then Serve(w, Guard.Begin(t, true))
    else Serve(w, Guard.Begin(t, false)).(stages := w.stages[t := Running(run, size)])
  }

  predicate IsRunning(w: World, t: TaskId) {
    t in w.stages && w.stages[t].Running? && t in w.server.tasks && w.server.tasks[t].phase.Collecting?
  }

  /** The next n machines of the run are upserted. */
  function FlushMove(w: World, t: TaskId, n: nat): World {
    if !IsRunning(w, t) then w
    else
      var run, k := w.stages[t].run, |w.server.tasks[t].phase.done|;
      if k + n > |ToWrite(run, w.stages[t].size)| then w
      else Serve(w, Guard.Flush(t, run.script.stream.vms[k..k + n], run.at))
  }

  predicate CanCommit(w: World, t: TaskId) {
    && IsRunning(w, t)
    && var Running(run, size) := w.stages[t];
       && w.server.tasks[t].phase.done == ToWrite(run, size)
       && !run.FailsBeforeCommit(size)
       && run.id in w.connections
  }

  /** The commit publishes machines and verdict; only the log call after it can still fail. */
  function CommitMove(w: World, t: TaskId): World {
    if !CanCommit(w, t) then w
    else
      var Running(run, size) := w.stages[t];
      var verdict := CollectService.VerdictOf(run.script.start, run.script.stream, run.at);
      Serve(w, Guard.Commit(t)).(
        connections := WithVerdict(w.connections, run.id, verdict),
        stages := if run.logFault then w.stages[t := Late(run, size, |w.log|)] else w.stages - {t},
        log := w.log + [Runs.Collect(run.(logFault := false), size)])
  }

  /** Any exception before the commit, a removed connection included: the session is rolled back. */
  function AbortMove(w: World, t: TaskId): World {
    if !IsRunning(w, t) then w
    else
      var Running(run, size) := w.stages[t];
      Serve(w, Guard.RollBack(t)).(stages := w.stages[t := Failing(run, size)])
  }

  /** The second session, if it works: a failed run enters the log, a committed one is corrected there. */
  function RecordMove(w: World, t: TaskId, works: bool): World {
    if t !in w.stages || w.stages[t].Running? then w
    else if !works then w.(stages := w.stages - {t})
    else
      match w.stages[t]
      case Failing(run, size) =>
        var failed := run.(commitFault := true, recordFault := false);
        w.(connections := Failure(w.connections, run), stages := w.stages - {t},
           log := w.log + [Runs.Collect(failed, size)])
      case Late(run, size, i) =>
        if i >= |w.log| then w
        else
          var failed := run.(logFault := true, recordFault := false);
          w.(connections := Failure(w.connections, run), stages := w.stages - {t},
             log := w.log[i := Runs.Collect(failed, size)])
  }

  /** Connection ids are drawn, never used twice. */
  function RegisterMove(w: World, id: ConnectionId, kind: ConnectionKind, name: string): World {
    if id in w.connections || id in w.server.running then w
    else
      var e := Runs.Register(id, kind, name);
      w.(connections := Runs.Apply(Tables(w), e).connections, log := w.log + [e])
  }

  function RemoveMove(w: World, actor: Accounts.AccessScope, id: ConnectionId): World {
    var e := Runs.Remove(actor, id);
    w.(connections := Runs.Apply(Tables(w), e).connections, log := w.log + [e])
  }

  ghost function Apply(w: World, m: Move): World {
    match m
    case Request(t, id, setupRaises) => Serve(w, Guard.Request(t, id, setupRaises))
    case OpenFails(t) => Serve(w, Guard.OpenFails(t))
    case Open(t, now) => OpenMove(w, t, now)
    case Begin(t, run, size, cipherRaises) => BeginMove(w, t, run, size, cipherRaises)
    case Flush(t, n) => FlushMove(w, t, n)
    case Commit(t) => CommitMove(w, t)
    case Abort(t) => AbortMove(w, t)
    case Record(t, works) => RecordMove(w, t, works)
    case Release(t) => if t in w.stages then w else Serve(w, Guard.Release(t))
    case Register(id, kind, name) => RegisterMove(w, id, kind, name)
    case Remove(actor, id) => RemoveMove(w, actor, id)
  }

  ghost function ApplyAll(w: World, moves: seq<Move>): World {
    if moves == [] then w else Apply(ApplyAll(w, moves[..|moves| - 1]), moves[|moves| - 1])
  }

  // ---- Late failures -----------------------------------------------------------------------

  /** The event writes to the row of another connection, or takes a connection away. */
  predicate Foreign(e: Runs.Event, id: ConnectionId) {
    match e
    case Register(r, _, _) => r != id
    case Attempt(a, _) => a != id
    case Collect(run, _) => run.id != id
    case Remove(_, _) => true
  }

  function Noted(p: Runs.Portal, run: Runs.Run): Runs.Portal {
    p.(connections := Failure(p.connections, run))
  }

  /** A failure verdict may be written before or after any foreign event. */
  lemma ForeignCommutes(p: Runs.Portal, e: Runs.Event, run: Runs.Run)
    requires Foreign(e, run.id)
    ensures Runs.Apply(Noted(p, run), e) == Noted(Runs.Apply(p, e), run)
  {
    match e
    case Register(r, kind, name) =>
    case Attempt(a, now) =>
      AttemptCommutes(p.connections, run, a, now);
    case Collect(other, size) =>
      CollectCommutes(p, run, other, size);
    case Remove(actor, r) =>
      hide Runs.HasActiveMachines;
  }

  lemma AttemptCommutes(rows: ConnectionTable, run: Runs.Run, a: ConnectionId, now: Instant)
    requires a != run.id
    ensures WithAttempt(Failure(rows, run), a, now) == Failure(WithAttempt(rows, a, now), run)
  {
  }

  lemma VerdictsCommute(rows: ConnectionTable, run: Runs.Run, id: ConnectionId, verdict: Verdict)
    requires id != run.id
    ensures WithVerdict(Failure(rows, run), id, verdict) == Failure(WithVerdict(rows, id, verdict), run)
  {
  }

  lemma CollectCommutes(p: Runs.Portal, run: Runs.Run, other: Runs.Run, size: int)
    requires other.id != run.id
    ensures Runs.RunOnce(Noted(p, run), other, size) == Noted(Runs.RunOnce(p, other, size), run)
  {
    assert other.id in Failure(p.connections, run) <==> other.id in p.connections;
    hide Replay, CollectService.Written, CollectService.VerdictOf, CollectService.Raises, WithVerdict, Failure;
    var failed := FailedWith(other.message, CollectionError);
    VerdictsCommute(p.connections, run, other.id, failed);
    if !other.FailsBeforeCommit(size) {
      var verdict := CollectService.VerdictOf(other.script.start, other.script.stream, other.at);
      VerdictsCommute(p.connections, run, other.id, verdict);
      VerdictsCommute(WithVerdict(p.connections, other.id, verdict), run, other.id, failed);
    }
  }

  ghost predicate ForeignFrom(log: seq<Runs.Event>, i: nat, id: ConnectionId) {
    forall j | i <= j < |log| :: Foreign(log[j], id)
  }

  /** A late failure of the run at place i is, in the history, that run with a late failure. */
  lemma {:induction false} LateFailure(log: seq<Runs.Event>, i: nat, run: Runs.Run, size: int)
    requires i < |log| && log[i] == Runs.Collect(run.(logFault := false), size)
    requires !run.FailsBeforeCommit(size) && ForeignFrom(log, i + 1, run.id)
    ensures Runs.ApplyAll(EMPTY, log[i := Runs.Collect(run.(logFault := true, recordFault := false), size)]) ==
            Noted(Runs.ApplyAll(EMPTY, log), run)
    decreases |log|
  {
    hide Runs.Apply;
    var late := Runs.Collect(run.(logFault := true, recordFault := false), size);
    var init, last := log[..|log| - 1], log[|log| - 1];
    if i == |init| {
      assert log[i := late][..i] == init;
      RunWithLateFailure(Runs.ApplyAll(EMPTY, init), run, size);
    } else {
      assert log[i := late][..|init|] == init[i := late];
      LateFailure(init, i, run, size);
      ForeignCommutes(Runs.ApplyAll(EMPTY, init), last, run);
    }
  }

  lemma RunWithLateFailure(p: Runs.Portal, run: Runs.Run, size: int)
    requires !run.FailsBeforeCommit(size)
    ensures Runs.Apply(p, Runs.Collect(run.(logFault := true, recordFault := false), size)) ==
            Noted(Runs.Apply(p, Runs.Collect(run.(logFault := false), size)), run)
  {
    hide Replay, CollectService.Written, CollectService.VerdictOf, CollectService.Raises;
  }

  // ---- Invariant ---------------------------------------------------------------------------

  /** A collection is where its task is, and what it has written or committed is what the run says. */
  ghost predicate StageSound(stage: Stage, task: Guard.Task, log: seq<Runs.Event>) {
    && stage.run.id == task.id && Runs.OwnMachines(Runs.Collect(stage.run, stage.size))
    && match stage
       case Running(run, size) => task.phase.Collecting? && task.phase.done <= ToWrite(run, size)
       case Failing(_, _) => task.phase.Closing?
       case Late(run, size, i) =>
         && task.phase.Closing? && !run.FailsBeforeCommit(size)
         && i < |log| && log[i] == Runs.Collect(run.(logFault := false), size)
         && ForeignFrom(log, i + 1, run.id)
  }

  ghost predicate StagesSound(w: World) {
    forall t <- w.stages :: t in w.server.tasks && StageSound(w.stages[t], w.server.tasks[t], w.log)
  }

  ghost predicate Shown(w: World) {
    Tables(w) == Runs.ApplyAll(EMPTY, w.log) && forall e <- w.log :: Runs.OwnMachines(e)
  }

  ghost predicate Sound(w: World) {
    Guard.Guarded(w.server) && Guard.Serial(w.server) && StagesSound(w) && Shown(w)
  }

  /** A step of the server moves no other task. */
  lemma OthersStay(s: Guard.Server, a: Guard.Action)
    ensures forall u <- s.tasks | u != a.t :: u in Guard.Step(s, a).tasks && Guard.Step(s, a).tasks[u] == s.tasks[u]
  {
    hide Guard.AfterFlush;
  }

  lemma ServerStaysSound(w: World, a: Guard.Action)
    requires Sound(w)
    ensures Guard.Guarded(Guard.Step(w.server, a)) && Guard.Serial(Guard.Step(w.server, a))
  {
    hide Guard.Guarded, Guard.Serial, Guard.Step;
    Guard.StepGuarded(w.server, a);
    Guard.StepSerial(w.server, a);
  }

  lemma OneMoreEvent(log: seq<Runs.Event>, e: Runs.Event)
    ensures Runs.ApplyAll(EMPTY, log + [e]) == Runs.Apply(Runs.ApplyAll(EMPTY, log), e)
  {
    hide Runs.Apply;
    assert (log + [e])[..|log|] == log;
  }

  lemma DistinctTasks(w: World, t: TaskId, u: TaskId)
    requires Guard.Guarded(w.server) && t in w.server.tasks && u in w.server.tasks && t != u
    ensures w.server.tasks[t].id != w.server.tasks[u].id
  {
  }

  lemma StageAfterEvent(stage: Stage, task: Guard.Task, log: seq<Runs.Event>, e: Runs.Event)
    requires StageSound(stage, task, log) && Foreign(e, task.id)
    ensures StageSound(stage, task, log + [e])
  {
  }

  lemma StageAfterCorrection(stage: Stage, task: Guard.Task, log: seq<Runs.Event>, i: nat, e: Runs.Event)
    requires StageSound(stage, task, log) && i < |log|
    requires e.Collect? && log[i].Collect? && log[i].run.id == e.run.id != task.id
    ensures StageSound(stage, task, log[i := e])
  {
  }

  /** What the other tasks keep when task t moves on and its connection's event, if any, enters the log. */
  ghost predicate OnlyMoves(w: World, after: World, t: TaskId) {
    && (forall u <- w.server.tasks | u != t :: u in after.server.tasks && after.server.tasks[u] == w.server.tasks[u])
    && (forall u <- after.stages | u != t :: u in w.stages && after.stages[u] == w.stages[u])
    && (t in after.stages ==>
          t in after.server.tasks && StageSound(after.stages[t], after.server.tasks[t], after.log))
  }

  /** The event, if any, by which the log has grown is foreign to the connections of all other tasks. */
  ghost predicate GrowsFor(w: World, after: World, t: TaskId) {
    || after.log == w.log
    || exists e ::
         after.log == w.log + [e] && forall u <- w.server.tasks | u != t :: Foreign(e, w.server.tasks[u].id)
  }

  lemma StagesStaySound(w: World, after: World, t: TaskId)
    requires StagesSound(w) && OnlyMoves(w, after, t) && GrowsFor(w, after, t)
    ensures StagesSound(after)
  {
    hide StageSound;
    forall u <- after.stages
      ensures u in after.server.tasks && StageSound(after.stages[u], after.server.tasks[u], after.log)
    {
      if u != t && after.log != w.log {
        var e :| after.log == w.log + [e] && forall v <- w.server.tasks | v != t :: Foreign(e, w.server.tasks[v].id);
        StageAfterEvent(w.stages[u], w.server.tasks[u], w.log, e);
      }
    }
  }

  /** A step of the server, with what the collection itself has written, leaves the world sound. */
  lemma ServedSound(w: World, after: World, a: Guard.Action)
    requires Sound(w) && after.server == Guard.Step(w.server, a)
    requires forall u <- after.stages | u != a.t :: u in w.stages && after.stages[u] == w.stages[u]
    requires a.t in after.stages ==>
               a.t in after.server.tasks && StageSound(after.stages[a.t], after.server.tasks[a.t], after.log)
    requires GrowsFor(w, after, a.t) && Shown(after)
    ensures Sound(after)
  {
    hide Guard.Guarded, Guard.Serial, Guard.Step, StageSound, Shown, GrowsFor;
    ServerStaysSound(w, a);
    OthersStay(w.server, a);
    StagesStaySound(w, after, a.t);
  }

  /** Tables and log after one more event. */
  lemma ShownAfterEvent(w: World, after: World, e: Runs.Event)
    requires Shown(w) && Runs.OwnMachines(e) && after.log == w.log + [e] && Tables(after) == Runs.Apply(Tables(w), e)
    ensures Shown(after)
  {
    hide Runs.Apply, Runs.OwnMachines;
    OneMoreEvent(w.log, e);
  }

  // ---- Every move keeps it -------------------------------------------------------------------

  /** Guard actions that write nothing: an admission, an end, a release. */
  lemma QuietSound(w: World, a: Guard.Action)
    requires Sound(w) && (a.Request? || a.OpenFails? || a.Release? || a == Guard.Begin(a.t, true))
    requires a.t in w.stages ==> !a.Release?
    ensures Sound(Serve(w, a))
  {
    var after := Serve(w, a);
    Guard.OtherActions(w.server, a);
    if a.t in w.stages {
      assert StageSound(w.stages[a.t], w.server.tasks[a.t], w.log);
      assert after.server == w.server;
    }
    hide Guard.Guarded, Guard.Serial, Guard.Step, StageSound, Runs.ApplyAll;
    ServedSound(w, after, a);
  }

  lemma OpenSound(w: World, t: TaskId, now: Instant)
    requires Sound(w)
    ensures Sound(OpenMove(w, t, now))
  {
    hide Guard.Guarded, Guard.Serial, Guard.Step, StageSound, Runs.ApplyAll;
    if t in w.server.tasks && w.server.tasks[t].phase.Opening? {
      var after, a, e := OpenMove(w, t, now), Guard.OpenSucceeds(t), Runs.Attempt(w.server.tasks[t].id, now);
      Guard.OtherActions(w.server, a);
      StagesAreBusy(w);
      EventOfTask(w, t, e);
      assert after.log == w.log + [e];
      ShownAfterEvent(w, after, e);
      ServedSound(w, after, a);
    }
  }

  lemma StagesAreBusy(w: World)
    requires StagesSound(w)
    ensures forall t <- w.stages :: w.server.tasks[t].phase.Collecting? || w.server.tasks[t].phase.Closing?
  {
    forall t <- w.stages ensures w.server.tasks[t].phase.Collecting? || w.server.tasks[t].phase.Closing? {
      assert StageSound(w.stages[t], w.server.tasks[t], w.log);
    }
  }

  /** An event that is foreign to every connection but a task's own is foreign to all other tasks. */
  lemma EventOfTask(w: World, t: TaskId, e: Runs.Event)
    requires Guard.Guarded(w.server) && t in w.server.tasks
    requires forall id | id != w.server.tasks[t].id :: Foreign(e, id)
    ensures forall u <- w.server.tasks | u != t :: Foreign(e, w.server.tasks[u].id)
  {
  }

  lemma BeginSound(w: World, t: TaskId, run: Runs.Run, size: int, cipherRaises: bool)
    requires Sound(w)
    ensures Sound(BeginMove(w, t, run, size, cipherRaises))
  {
    hide Guard.Guarded, Guard.Serial, Guard.Step, StageSound, Runs.ApplyAll, Runs.OwnMachines;
    if CanBegin(w, t, run, size) {
      if cipherRaises {
        QuietSound(w, Guard.Begin(t, true));
      } else {
        var a := Guard.Begin(t, false);
        Guard.OtherActions(w.server, a);
        BeginStage(w, t, run, size);
        ServedSound(w, BeginMove(w, t, run, size, false), a);
      }
    }
  }

  lemma BeginStage(w: World, t: TaskId, run: Runs.Run, size: int)
    requires CanBegin(w, t, run, size)
    ensures var tasks := Guard.Step(w.server, Guard.Begin(t, false)).tasks;
            t in tasks && StageSound(Running(run, size), tasks[t], w.log)
  {
    hide Runs.OwnMachines, ToWrite;
  }

  lemma FlushSound(w: World, t: TaskId, n: nat)
    requires Sound(w)
    ensures Sound(FlushMove(w, t, n))
  {
    hide Guard.Guarded, Guard.Serial, Guard.Step, StageSound, Runs.ApplyAll, ToWrite;
    if FlushMove(w, t, n) != w {
      var run, k := w.stages[t].run, |w.server.tasks[t].phase.done|;
      var vms := run.script.stream.vms[k..k + n];
      FlushStage(w, t, n);
      FlushEffect(w.server, t, vms, run.at);
      ServedSound(w, FlushMove(w, t, n), Guard.Flush(t, vms, run.at));
    }
  }

  lemma FlushStage(w: World, t: TaskId, n: nat)
    requires StagesSound(w) && FlushMove(w, t, n) != w
    ensures var after, run, k := FlushMove(w, t, n), w.stages[t].run, |w.server.tasks[t].phase.done|;
            && (forall vm <- run.script.stream.vms[k..k + n] :: vm.connectionId == w.server.tasks[t].id)
            && t in after.server.tasks && StageSound(w.stages[t], after.server.tasks[t], w.log)
  {
    hide Guard.Step, ToWrite;
    var run, size, k := w.stages[t].run, w.stages[t].size, |w.server.tasks[t].phase.done|;
    assert StageSound(w.stages[t], w.server.tasks[t], w.log);
    NextWritten(run, size, k, n);
    FlushEffect(w.server, t, run.script.stream.vms[k..k + n], run.at);
    assert w.server.tasks[t].phase.done == ToWrite(run, size)[..k];
  }

  /** The next machines of a run are the next observations it has to write. */
  lemma NextWritten(run: Runs.Run, size: int, k: nat, n: nat)
    requires k + n <= |ToWrite(run, size)|
    ensures Stamped(run.script.stream.vms[k..k + n], run.at) == ToWrite(run, size)[k..k + n]
  {
    var next, all := run.script.stream.vms[k..k + n], ToWrite(run, size);
    forall i | 0 <= i < n ensures Stamped(next, run.at)[i] == all[k..k + n][i] {
      assert next[i] == run.script.stream.vms[k + i] && all[k..k + n][i] == all[k + i];
    }
  }

  lemma FlushEffect(s: Guard.Server, t: TaskId, vms: seq<VirtualMachine>, at: Instant)
    requires t in s.tasks && s.tasks[t].phase.Collecting? && forall vm <- vms :: vm.connectionId == s.tasks[t].id
    ensures var after := Guard.Step(s, Guard.Flush(t, vms, at));
            && t in after.tasks && after.tasks[t].id == s.tasks[t].id && after.tasks[t].phase.Collecting?
            && after.tasks[t].phase.done == s.tasks[t].phase.done + Stamped(vms, at)
            && after.committed == s.committed
  {
    hide Guard.AfterFlush;
  }

  lemma CommitSound(w: World, t: TaskId)
    requires Sound(w)
    ensures Sound(CommitMove(w, t))
  {
    hide Guard.Guarded, Guard.Serial, Guard.Step, StageSound;
    hide Runs.ApplyAll, Runs.Apply, ToWrite, Runs.Run.FailsBeforeCommit;
    if CanCommit(w, t) {
      var after, e := CommitMove(w, t), Runs.Collect(w.stages[t].run.(logFault := false), w.stages[t].size);
      CommitStage(w, t);
      CommittedRun(w, t);
      EventOfTask(w, t, e);
      assert after.log == w.log + [e];
      ShownAfterEvent(w, after, e);
      ServedSound(w, after, Guard.Commit(t));
    }
  }

  lemma CommitStage(w: World, t: TaskId)
    requires StagesSound(w) && CanCommit(w, t)
    ensures var Running(run, size) := w.stages[t];
            run.id == w.server.tasks[t].id && Runs.OwnMachines(Runs.Collect(run, size))
    ensures var after := CommitMove(w, t);
            && t in after.server.tasks
            && (t in after.stages ==> StageSound(after.stages[t], after.server.tasks[t], after.log))
  {
    assert StageSound(w.stages[t], w.server.tasks[t], w.log);
    hide CollectService.VerdictOf, CollectService.Raises, CollectService.Written, WithVerdict;
  }

  /** A commit does to the tables what the run as a whole does. */
  lemma CommittedRun(w: World, t: TaskId)
    requires Guard.Serial(w.server) && CanCommit(w, t)
    ensures var Running(run, size) := w.stages[t];
            Tables(CommitMove(w, t)) == Runs.Apply(Tables(w), Runs.Collect(run.(logFault := false), size))
  {
    var Running(run, size) := w.stages[t];
    CommitEffect(w.server, t);
    CleanRun(Tables(w), run, size);
    hide Replay, Guard.Step, Guard.Serial, Runs.Apply, WithVerdict, Runs.Run.FailsBeforeCommit, ToWrite;
  }

  lemma CommitEffect(s: Guard.Server, t: TaskId)
    requires Guard.Serial(s) && t in s.tasks && s.tasks[t].phase.Collecting?
    ensures Guard.Step(s, Guard.Commit(t)).committed == Replay(s.committed, s.tasks[t].phase.done)
  {
    hide Guard.SessionSerial, Guard.AfterFlush, Replay;
    assert Guard.SessionSerial(s, s.tasks[t]);
    Guard.SessionMeans(s, t);
    hide Guard.Serial;
  }

  lemma CleanRun(p: Runs.Portal, run: Runs.Run, size: int)
    requires run.id in p.connections && !run.FailsBeforeCommit(size)
    ensures Runs.Apply(p, Runs.Collect(run.(logFault := false), size)) ==
            Runs.Portal(Replay(p.rows, ToWrite(run, size)),
                        WithVerdict(p.connections, run.id,
                                    CollectService.VerdictOf(run.script.start, run.script.stream, run.at)))
  {
    hide Replay, CollectService.Raises, CollectService.Written, WithVerdict;
  }

  lemma AbortSound(w: World, t: TaskId)
    requires Sound(w)
    ensures Sound(AbortMove(w, t))
  {
    hide Guard.Guarded, Guard.Serial, Guard.Step, StageSound, Runs.ApplyAll;
    if IsRunning(w, t) {
      AbortStage(w, t);
      Guard.OtherActions(w.server, Guard.RollBack(t));
      ServedSound(w, AbortMove(w, t), Guard.RollBack(t));
    }
  }

  lemma AbortStage(w: World, t: TaskId)
    requires StagesSound(w) && IsRunning(w, t)
    ensures var after := AbortMove(w, t);
            t in after.server.tasks && StageSound(after.stages[t], after.server.tasks[t], after.log)
  {
    assert StageSound(w.stages[t], w.server.tasks[t], w.log);
    hide CollectService.Written;
  }

  lemma RecordSound(w: World, t: TaskId, works: bool)
    requires Sound(w)
    ensures Sound(RecordMove(w, t, works))
  {
    if t in w.stages && !w.stages[t].Running? {
      if !works {
        hide Guard.Guarded, Guard.Serial, StageSound, Runs.ApplyAll;
        StagesStaySound(w, RecordMove(w, t, works), t);
      } else if w.stages[t].Failing? {
        RecordFailing(w, t);
      } else {
        RecordLate(w, t);
      }
    }
  }

  lemma RecordFailing(w: World, t: TaskId)
    requires Sound(w) && t in w.stages && w.stages[t].Failing?
    ensures Sound(RecordMove(w, t, true))
  {
    hide Guard.Guarded, Guard.Serial, StageSound, Runs.ApplyAll, Runs.Apply, Runs.OwnMachines;
    var after := RecordMove(w, t, true);
    var run, size := w.stages[t].run, w.stages[t].size;
    var e := Runs.Collect(run.(commitFault := true, recordFault := false), size);
    FailingStage(w, t);
    FailedRun(Tables(w), run, size);
    EventOfTask(w, t, e);
    assert after.log == w.log + [e];
    StagesStaySound(w, after, t);
    ShownAfterEvent(w, after, e);
  }

  lemma FailingStage(w: World, t: TaskId)
    requires StagesSound(w) && t in w.stages
    ensures var run, size := w.stages[t].run, w.stages[t].size;
            run.id == w.server.tasks[t].id
            && Runs.OwnMachines(Runs.Collect(run.(commitFault := true, recordFault := false), size))
  {
    assert StageSound(w.stages[t], w.server.tasks[t], w.log);
  }

  /** In the history, a run that failed before its commit leaves its verdict and nothing else. */
  lemma FailedRun(p: Runs.Portal, run: Runs.Run, size: int)
    ensures Runs.Apply(p, Runs.Collect(run.(commitFault := true, recordFault := false), size)) == Noted(p, run)
  {
  }

  lemma RecordLate(w: World, t: TaskId)
    requires Sound(w) && t in w.stages && w.stages[t].Late?
    ensures Sound(RecordMove(w, t, true))
  {
    var after := RecordMove(w, t, true);
    var Late(run, size, i) := w.stages[t];
    assert StageSound(w.stages[t], w.server.tasks[t], w.log);
    LateFailure(w.log, i, run, size);
    var e := after.log[i];
    forall u <- after.stages ensures StageSound(after.stages[u], after.server.tasks[u], after.log) {
      DistinctTasks(w, t, u);
      StageAfterCorrection(w.stages[u], w.server.tasks[u], w.log, i, e);
    }
    assert Runs.OwnMachines(w.log[i]);
  }

  lemma RegisterSound(w: World, id: ConnectionId, kind: ConnectionKind, name: string)
    requires Sound(w)
    ensures Sound(RegisterMove(w, id, kind, name))
  {
    if id !in w.connections && id !in w.server.running {
      var after, e := RegisterMove(w, id, kind, name), Runs.Register(id, kind, name);
      forall u <- w.server.tasks ensures Foreign(e, w.server.tasks[u].id) {
        assert w.server.tasks[u].id in Guard.LiveIds(w.server);
      }
      NewEventSound(w, after, e);
    }
  }

  lemma RemoveSound(w: World, actor: Accounts.AccessScope, id: ConnectionId)
    requires Sound(w)
    ensures Sound(RemoveMove(w, actor, id))
  {
    hide Runs.HasActiveMachines;
    NewEventSound(w, RemoveMove(w, actor, id), Runs.Remove(actor, id));
  }

  /** A request that writes no machine, and is foreign to every task. */
  lemma NewEventSound(w: World, after: World, e: Runs.Event)
    requires Sound(w) && Runs.OwnMachines(e) && forall u <- w.server.tasks :: Foreign(e, w.server.tasks[u].id)
    requires Runs.Apply(Tables(w), e).rows == w.server.committed
    requires after == w.(connections := Runs.Apply(Tables(w), e).connections, log := w.log + [e])
    ensures Sound(after)
  {
    hide Guard.Guarded, Guard.Serial, StageSound, Runs.ApplyAll, Runs.Apply;
    ShownAfterEvent(w, after, e);
    forall u <- after.stages ensures StageSound(after.stages[u], after.server.tasks[u], after.log) {
      StageAfterEvent(w.stages[u], w.server.tasks[u], w.log, e);
    }
  }

  lemma MoveSound(w: World, m: Move)
    requires Sound(w)
    ensures Sound(Apply(w, m))
  {
    hide Sound;
    match m
    case Request(t, id, setupRaises) => QuietSound(w, Guard.Request(t, id, setupRaises));
    case OpenFails(t) => QuietSound(w, Guard.OpenFails(t));
    case Open(t, now) => OpenSound(w, t, now);
    case Begin(t, run, size, cipherRaises) => BeginSound(w, t, run, size, cipherRaises);
    case Flush(t, n) => FlushSound(w, t, n);
    case Commit(t) => CommitSound(w, t);
    case Abort(t) => AbortSound(w, t);
    case Record(t, works) => RecordSound(w, t, works);
    case Release(t) =>
      if t !in w.stages {
        QuietSound(w, Guard.Release(t));
      }
    case Register(id, kind, name) => RegisterSound(w, id, kind, name);
    case Remove(actor, id) => RemoveSound(w, actor, id);
  }

  // ---- Serial runs -------------------------------------------------------------------------

  lemma {:induction false} AlwaysSound(moves: seq<Move>)
    ensures Sound(ApplyAll(START, moves))
    decreases |moves|
  {
    hide Sound, Apply;
    if moves == [] {
      StartIsSound();
    } else {
      AlwaysSound(moves[..|moves| - 1]);
      MoveSound(ApplyAll(START, moves[..|moves| - 1]), moves[|moves| - 1]);
    }
  }

  lemma StartIsSound()
    ensures Sound(START)
  {
    Guard.IdleIsSerial();
  }

  /**
   However requests, collections, late failures, registrations and removals are interleaved, machines and connections
   are always those of whole runs, one after the other in the order of their commits: no run shows half, and none
   undoes another. So whatever holds after every serial history holds in every interleaving.
   */
  lemma InterleavedRunsAreSerial(moves: seq<Move>)
    ensures var w := ApplyAll(START, moves);
            && Tables(w) == Runs.ApplyAll(EMPTY, w.log)
            && Runs.Sound(Tables(w))
  {
    AlwaysSound(moves);
    Runs.AlwaysSound(ApplyAll(START, moves).log);
  }

  // ---- The way of one run ----------------------------------------------------------------------

  function WithTask(w: World, t: TaskId, id: ConnectionId, phase: Guard.Phase): World {
    w.(server := Guard.With(w.server, t, id, phase))
  }

  ghost predicate FreeFor(w: World, t: TaskId, run: Runs.Run, size: int) {
    && t !in w.server.tasks && t !in w.stages && run.id !in w.server.running && run.id in w.connections
    && Runs.OwnMachines(Runs.Collect(run, size))
  }

  /** From the request to the open session: the attempt is recorded and nothing else. */
  lemma WayIn(w: World, t: TaskId, run: Runs.Run, size: int, now: Instant)
    requires FreeFor(w, t, run, size)
    ensures var began := Apply(Apply(Apply(w, Request(t, run.id, false)), Open(t, now)), Begin(t, run, size, false));
            began == WithTask(w, t, run.id, Guard.Collecting(map[], [])).(
                       connections := WithAttempt(w.connections, run.id, now),
                       stages := w.stages[t := Running(run, size)],
                       log := w.log + [Runs.Attempt(run.id, now)])
  {
    Guard.WayIn(w.server, t, run.id);
    hide Guard.Step, Runs.OwnMachines;
    assert Apply(w, Request(t, run.id, false)) == WithTask(w, t, run.id, Guard.Opening);
  }

  /** A run nothing strikes: flushed, committed and released, the tables are those after attempt and run. */
  lemma WholeWay(w: World, t: TaskId, run: Runs.Run, size: int, now: Instant)
    requires FreeFor(w, t, run, size) && !run.FailsBeforeCommit(size) && !run.logFault
    ensures var began := Apply(Apply(Apply(w, Request(t, run.id, false)), Open(t, now)), Begin(t, run, size, false));
            var end := Apply(Apply(Apply(began, Flush(t, |ToWrite(run, size)|)), Commit(t)), Release(t));
            && Tables(end) == Runs.Apply(Runs.Apply(Tables(w), Runs.Attempt(run.id, now)), Runs.Collect(run, size))
            && end.log == w.log + [Runs.Attempt(run.id, now), Runs.Collect(run, size)]
            && end.stages == w.stages && end.server.running == w.server.running && end.server.tasks == w.server.tasks
  {
    WayIn(w, t, run, size, now);
    var began := Apply(Apply(Apply(w, Request(t, run.id, false)), Open(t, now)), Begin(t, run, size, false));
    AllFlushed(w, began, t, run, size);
    var flushed := Apply(began, Flush(t, |ToWrite(run, size)|));
    hide Apply, FreeFor, ToWrite;
    CommittedAndReleased(w, flushed, t, run, size, now);
  }

  lemma AllFlushed(w: World, began: World, t: TaskId, run: Runs.Run, size: int)
    requires FreeFor(w, t, run, size)
    requires began.server == Guard.With(w.server, t, run.id, Guard.Collecting(map[], []))
    requires t in began.stages && began.stages[t] == Running(run, size)
    ensures Apply(began, Flush(t, |ToWrite(run, size)|)) ==
            began.(server := Guard.With(w.server, t, run.id,
              Guard.Collecting(Guard.AfterFlush(w.server, map[], ToWrite(run, size)), ToWrite(run, size))))
  {
    var n := |ToWrite(run, size)|;
    NextWritten(run, size, 0, n);
    var vms := run.script.stream.vms[0..n];
    assert ToWrite(run, size)[0..n] == ToWrite(run, size);
    Guard.WayThrough(w.server, t, run.id, vms, run.at);
    hide Guard.Step, Guard.AfterFlush, ToWrite;
  }

  lemma CommittedAndReleased(w: World, flushed: World, t: TaskId, run: Runs.Run, size: int, now: Instant)
    requires t !in w.server.tasks && t !in w.stages && run.id !in w.server.running && run.id in w.connections
    requires !run.FailsBeforeCommit(size) && !run.logFault
    requires flushed == World(
               Guard.With(w.server, t, run.id,
                 Guard.Collecting(Guard.AfterFlush(w.server, map[], ToWrite(run, size)), ToWrite(run, size))),
               WithAttempt(w.connections, run.id, now), w.stages[t := Running(run, size)],
               w.log + [Runs.Attempt(run.id, now)])
    ensures var end := Apply(Apply(flushed, Commit(t)), Release(t));
            && Tables(end) == Runs.Apply(Runs.Apply(Tables(w), Runs.Attempt(run.id, now)), Runs.Collect(run, size))
            && end.log == w.log + [Runs.Attempt(run.id, now), Runs.Collect(run, size)]
            && end.stages == w.stages && end.server.running == w.server.running && end.server.tasks == w.server.tasks
  {
    hide Guard.Step, Guard.AfterFlush, ToWrite, Replay, Runs.Run.FailsBeforeCommit, Runs.Apply;
    hide WithVerdict, CommitMove, CanCommit;
    var obs := ToWrite(run, size);
    var own := Guard.AfterFlush(w.server, map[], obs);
    Guard.WayOut(w.server, t, run.id, own, obs);
    ReadyToCommit(flushed, t, run, size);
    CommitTaken(flushed, t, run, size);
    TablesAfterRun(w, run, size, now);
    hide WithAttempt;
    assert w.stages[t := Running(run, size)] - {t} == w.stages;
  }

  lemma ReadyToCommit(w: World, t: TaskId, run: Runs.Run, size: int)
    requires t in w.stages && w.stages[t] == Running(run, size) && t in w.server.tasks && run.id in w.connections
    requires w.server.tasks[t].phase.Collecting? && w.server.tasks[t].phase.done == ToWrite(run, size)
    requires !run.FailsBeforeCommit(size)
    ensures CanCommit(w, t)
  {
    hide ToWrite, Runs.Run.FailsBeforeCommit;
  }

  lemma CommitTaken(w: World, t: TaskId, run: Runs.Run, size: int)
    requires t in w.stages && w.stages[t] == Running(run, size) && CanCommit(w, t) && !run.logFault
    ensures var verdict := CollectService.VerdictOf(run.script.start, run.script.stream, run.at);
            CommitMove(w, t) ==
            World(Guard.Step(w.server, Guard.Commit(t)), WithVerdict(w.connections, run.id, verdict),
                  w.stages - {t}, w.log + [Runs.Collect(run, size)])
  {
    hide Guard.Step, WithVerdict, CollectService.VerdictOf, CanCommit, CollectService.Raises;
    assert CanCommit(w, t);
    assert run.(logFault := false) == run;
  }

  lemma TablesAfterRun(w: World, run: Runs.Run, size: int, now: Instant)
    requires run.id in w.connections && !run.FailsBeforeCommit(size) && !run.logFault
    ensures var obs := ToWrite(run, size);
            var verdict := CollectService.VerdictOf(run.script.start, run.script.stream, run.at);
            Runs.Apply(Runs.Apply(Tables(w), Runs.Attempt(run.id, now)), Runs.Collect(run, size)) ==
            Runs.Portal(w.server.committed + Guard.AfterFlush(w.server, map[], obs),
                        WithVerdict(WithAttempt(w.connections, run.id, now), run.id, verdict))
  {
    var obs := ToWrite(run, size);
    Guard.FlushIsReplay(w.server, map[], obs);
    assert w.server.committed + map[] == w.server.committed;
    assert run.(logFault := false) == run;
    CleanRun(Runs.Apply(Tables(w), Runs.Attempt(run.id, now)), run, size);
    hide Guard.AfterFlush, ToWrite, Replay, Runs.Run.FailsBeforeCommit, WithVerdict;
  }

  /** A run that fails after its commit waits to be corrected; recording the failure marks its connection. */
  lemma LateWay(w: World, t: TaskId)
    requires Sound(w) && CanCommit(w, t) && w.stages[t].run.logFault
    ensures var run, committed := w.stages[t].run, CommitMove(w, t);
            && t in committed.stages && committed.stages[t].Late? && committed.stages[t].run == run
            && Tables(RecordMove(committed, t, true)) == Noted(Tables(committed), run)
            && RecordMove(committed, t, true).stages == w.stages - {t}
            && Tables(RecordMove(committed, t, false)) == Tables(committed)
  {
    hide Guard.Guarded, Guard.Serial, Guard.Step, StageSound, Runs.ApplyAll, WithVerdict, Failure, ToWrite;
    hide Runs.Run.FailsBeforeCommit;
    var run, committed := w.stages[t].run, CommitMove(w, t);
    assert committed.stages - {t} == w.stages - {t};
  }

  /** Registrations and removals write to the tables what they write in the history. */
  lemma RequestsTold(w: World, id: ConnectionId, kind: ConnectionKind, name: string, actor: Accounts.AccessScope)
    ensures id !in w.connections && id !in w.server.running ==>
              Tables(RegisterMove(w, id, kind, name)) == Runs.Apply(Tables(w), Runs.Register(id, kind, name))
    ensures Tables(RemoveMove(w, actor, id)) == Runs.Apply(Tables(w), Runs.Remove(actor, id))
  {
    hide Runs.HasActiveMachines;
  }

  /** A run an exception strikes before its commit: the machines stay, and the failure is recorded. */
  lemma WayOfFailure(w: World, t: TaskId, run: Runs.Run, size: int, now: Instant)
    requires FreeFor(w, t, run, size)
    ensures var began := Apply(Apply(Apply(w, Request(t, run.id, false)), Open(t, now)), Begin(t, run, size, false));
            var end := Apply(Apply(Apply(began, Abort(t)), Record(t, true)), Release(t));
            && Tables(end) == Noted(Runs.Apply(Tables(w), Runs.Attempt(run.id, now)), run)
            && end.stages == w.stages && end.server == w.server
  {
    var began := Apply(Apply(Apply(w, Request(t, run.id, false)), Open(t, now)), Begin(t, run, size, false));
    WayIn(w, t, run, size, now);
    Guard.WaysBack(w.server, t, run.id, map[], []);
    hide Apply, Runs.OwnMachines, Guard.Step, WithAttempt;
    RolledBack(w, began, t, run, size);
  }

  lemma RolledBack(w: World, began: World, t: TaskId, run: Runs.Run, size: int)
    requires t !in w.server.tasks && t !in w.stages && run.id !in w.server.running
    requires began.server == Guard.With(w.server, t, run.id, Guard.Collecting(map[], []))
    requires began.stages == w.stages[t := Running(run, size)]
    ensures var end := Apply(Apply(Apply(began, Abort(t)), Record(t, true)), Release(t));
            end.server == w.server && end.stages == w.stages && end.connections == Failure(began.connections, run)
  {
    hide Apply, Guard.Step, Failure;
    var aborted := began.(server := Guard.With(w.server, t, run.id, Guard.Closing),
                          stages := w.stages[t := Failing(run, size)]);
    AbortTaken(w, began, t, run, size);
    FailureRecorded(w, aborted, t, run, size);
  }

  lemma AbortTaken(w: World, began: World, t: TaskId, run: Runs.Run, size: int)
    requires t !in w.server.tasks && run.id !in w.server.running
    requires began.server == Guard.With(w.server, t, run.id, Guard.Collecting(map[], []))
    requires began.stages == w.stages[t := Running(run, size)]
    ensures Apply(began, Abort(t)) ==
            began.(server := Guard.With(w.server, t, run.id, Guard.Closing),
                   stages := w.stages[t := Failing(run, size)])
  {
    Guard.WaysBack(w.server, t, run.id, map[], []);
    hide Guard.Step;
  }

  lemma FailureRecorded(w: World, aborted: World, t: TaskId, run: Runs.Run, size: int)
    requires t !in w.server.tasks && t !in w.stages && run.id !in w.server.running
    requires aborted.server == Guard.With(w.server, t, run.id, Guard.Closing)
    requires aborted.stages == w.stages[t := Failing(run, size)]
    ensures var end := Apply(Apply(aborted, Record(t, true)), Release(t));
            end.server == w.server && end.stages == w.stages && end.connections == Failure(aborted.connections, run)
  {
    Guard.WaysBack(w.server, t, run.id, map[], []);
    hide Guard.Step, Failure;
    assert w.stages[t := Failing(run, size)] - {t} == w.stages;
  }
}
