/**
 The in-process set of running collections and the background tasks it admits, interleaved at their awaits:
 src/api/routes/connections.py:51-59, 136-214. One action is what one task does between two awaits; only a flush, which
 awaits the database several times for each machine, counts as one action as well (see FlushAcrossCommit).
 */
module AdmissionGuard {
  import opened Common
  import opened Domain
  import opened Inventory
  import History

  type TaskId = nat

  /** Where an admitted task stands. */
  datatype Phase =
    | Opening                                      // recording the attempt, still inside the request
    | Scheduled                                    // handed to the background
    | Collecting(own: Rows, done: seq<Observation>) // what this session has written and observed so far
    | Closing                                      // committed or rolled back, not yet released

  datatype Task = Task(id: ConnectionId, phase: Phase)

  /** The last two fields are history: ids that no task will release, and what was committed, in order. */
  datatype Server = Server(
    running: set<ConnectionId>,
    tasks: map<TaskId, Task>,
    committed: Rows,
    leaked: set<ConnectionId>,
    log: seq<Observation>)

  const IDLE_ID: ConnectionId := "00000000-0000-0000-0000-000000000000"

  const IDLE := Server({}, map[], map[], {}, [])

  datatype Action =
    | Request(t: TaskId, id: ConnectionId, setupRaises: bool)
    | OpenFails(t: TaskId)
    | OpenSucceeds(t: TaskId)
    | Begin(t: TaskId, cipherRaises: bool)
    | Flush(t: TaskId, vms: seq<VirtualMachine>, at: Instant)
    | Commit(t: TaskId)
    | RollBack(t: TaskId)
    | Release(t: TaskId)

  /** What a session sees: its own rows over the committed ones. */
  function Seen(s: Server, own: Rows): Rows {
    s.committed + own
  }

  /** A flush writes the rows of the machines it observed. */
  function AfterFlush(s: Server, own: Rows, obs: seq<Observation>): Rows {
    own + (map k | k in History.KeysOf(obs) && k in Replay(Seen(s, own), obs) :: Replay(Seen(s, own), obs)[k])
  }

  function Admit(s: Server, t: TaskId, id: ConnectionId, setupRaises: bool): Server {
    if t in s.tasks || id in s.running then s
    else if setupRaises then s.(running := s.running + {id}, leaked := s.leaked + {id})
    else s.(running := s.running + {id}, tasks := s.tasks[t := Task(id, Opening)])
  }

  /** The collection ends and takes its id out of the set. */
  function Discarded(s: Server, t: TaskId): Server
    requires t in s.tasks
  {
    s.(running := s.running - {s.tasks[t].id}, tasks := s.tasks - {t})
  }

  function MovedTo(s: Server, t: TaskId, phase: Phase): Server
    requires t in s.tasks
  {
    s.(tasks := s.tasks[t := s.tasks[t].(phase := phase)])
  }

  /** One action; an action whose task is not at the right point does nothing. */
  function Step(s: Server, a: Action): Server {
    if a.Request? then Admit(s, a.t, a.id, a.setupRaises)
    else if a.t !in s.tasks then s
    else
      var task := s.tasks[a.t];
      match (a, task.phase)
      case (OpenFails(t), Opening) => Discarded(s, t)
      case (OpenSucceeds(t), Opening) => MovedTo(s, t, Scheduled)
      case (Begin(t, cipherRaises), Scheduled) =>
        if cipherRaises then s.(tasks := s.tasks - {t}, leaked := s.leaked + {task.id})
        else MovedTo(s, t, Collecting(map[], []))
      case (Flush(t, vms, at), Collecting(own, done)) =>
        if forall vm <- vms :: vm.connectionId == task.id
        then MovedTo(s, t, Collecting(AfterFlush(s, own, Stamped(vms, at)), done + Stamped(vms, at)))
        else s
      case (Commit(t), Collecting(own, done)) =>
        MovedTo(s, t, Closing).(committed := s.committed + own, log := s.log + done)
      case (RollBack(t), Collecting(_, _)) => MovedTo(s, t, Closing)
      case (Release(t), Closing) => Discarded(s, t)
      case _ => s
  }

  function Execute(s: Server, actions: seq<Action>): Server {
    if actions == [] then s else Step(Execute(s, actions[..|actions| - 1]), actions[|actions| - 1])
  }

  // ---- Admission -------------------------------------------------------------------------

  function LiveIds(s: Server): set<ConnectionId> {
    set t | t in s.tasks :: s.tasks[t].id
  }

  /** The set holds exactly the connections of live tasks, one task each, and the leaked ids. */
  ghost predicate Guarded(s: Server) {
    && s.running == LiveIds(s) + s.leaked
    && LiveIds(s) !! s.leaked
    && (forall t <- s.tasks, u <- s.tasks :: s.tasks[t].id == s.tasks[u].id ==> t == u)
  }

  lemma RemovedTask(s: Server, t: TaskId)
    requires Guarded(s) && t in s.tasks
    ensures LiveIds(s.(tasks := s.tasks - {t})) == LiveIds(s) - {s.tasks[t].id}
  {
    var after := s.(tasks := s.tasks - {t});
    forall id <- LiveIds(s) - {s.tasks[t].id} ensures id in LiveIds(after) {
      var u :| u in s.tasks && s.tasks[u].id == id;
      assert u in after.tasks;
    }
  }

  lemma MovedTask(s: Server, t: TaskId, phase: Phase)
    requires t in s.tasks
    ensures LiveIds(MovedTo(s, t, phase)) == LiveIds(s)
  {
    var after := MovedTo(s, t, phase);
    forall id <- LiveIds(s) ensures id in LiveIds(after) {
      var u :| u in s.tasks && s.tasks[u].id == id;
      assert u in after.tasks;
    }
  }

  lemma NewTask(s: Server, t: TaskId, id: ConnectionId)
    requires t !in s.tasks
    ensures LiveIds(s.(tasks := s.tasks[t := Task(id, Opening)])) == LiveIds(s) + {id}
  {
    var after := s.(tasks := s.tasks[t := Task(id, Opening)]);
    assert t in after.tasks;
    forall i <- LiveIds(s) ensures i in LiveIds(after) {
      var u :| u in s.tasks && s.tasks[u].id == i;
      assert u in after.tasks;
    }
  }

  lemma StepGuarded(s: Server, a: Action)
    requires Guarded(s)
    ensures Guarded(Step(s, a))
  {
    if a.t !in s.tasks {
      NewTask(s, a.t, if a.Request? then a.id else IDLE_ID);
    } else {
      StepOfTask(s, a);
      hide Step;
      var after := Step(s, a);
      RemovedTask(s, a.t);
      if a.t in after.tasks {
        MovedTask(s, a.t, after.tasks[a.t].phase);
      }
    }
  }

  /** A task moves on, or ends and is released, or ends and leaks. */
  lemma StepOfTask(s: Server, a: Action)
    requires a.t in s.tasks
    ensures var after := Step(s, a);
            if a.t in after.tasks then
              && after.running == s.running && after.leaked == s.leaked
              && after.tasks == MovedTo(s, a.t, after.tasks[a.t].phase).tasks
            else
              && after.tasks == s.tasks - {a.t}
              && (|| (after.leaked == s.leaked && after.running == s.running - {s.tasks[a.t].id})
                  || (after.running == s.running && after.leaked == s.leaked + {s.tasks[a.t].id}))
  {
    hide AfterFlush;
  }

  lemma {:induction false} AlwaysGuarded(actions: seq<Action>)
    ensures Guarded(Execute(IDLE, actions))
    decreases |actions|
  {
    if actions != [] {
      AlwaysGuarded(actions[..|actions| - 1]);
      StepGuarded(Execute(IDLE, actions[..|actions| - 1]), actions[|actions| - 1]);
    }
  }

  lemma {:induction false} StaysGuarded(s: Server, actions: seq<Action>)
    requires Guarded(s)
    ensures Guarded(Execute(s, actions)) && s.leaked <= Execute(s, actions).leaked
    decreases |actions|
  {
    hide Guarded, AfterFlush;
    if actions != [] {
      StaysGuarded(s, actions[..|actions| - 1]);
      StepGuarded(Execute(s, actions[..|actions| - 1]), actions[|actions| - 1]);
    }
  }

  /** An id is in the set exactly when one task for it is live, or it has leaked; never two tasks. */
  lemma InSetMeansOneTask(actions: seq<Action>, id: ConnectionId)
    ensures var s := Execute(IDLE, actions);
            && (id in s.running <==> id in s.leaked || exists t <- s.tasks :: s.tasks[t].id == id)
            && (id in s.leaked ==> forall t <- s.tasks :: s.tasks[t].id != id)
            && (forall t <- s.tasks, u <- s.tasks :: s.tasks[t].id == id && s.tasks[u].id == id ==> t == u)
  {
    AlwaysGuarded(actions);
    var s := Execute(IDLE, actions);
    forall t <- s.tasks ensures s.tasks[t].id in LiveIds(s) {
    }
  }

  /** A connection nobody collects is admitted, collected, published and released: the whole way of one task. */
  lemma WholeWay(s: Server, t: TaskId, id: ConnectionId, vms: seq<VirtualMachine>, at: Instant)
    requires t !in s.tasks && id !in s.running && forall vm <- vms :: vm.connectionId == id
    ensures Execute(s, [Request(t, id, false), OpenSucceeds(t), Begin(t, false),
                        Flush(t, vms, at), Commit(t), Release(t)]) ==
            s.(committed := Replay(s.committed, Stamped(vms, at)), log := s.log + Stamped(vms, at))
  {
    hide Replay, AfterFlush, Execute, Step;
    var obs := Stamped(vms, at);
    SixSteps(s, [Request(t, id, false), OpenSucceeds(t), Begin(t, false), Flush(t, vms, at), Commit(t), Release(t)]);
    WayIn(s, t, id);
    WayThrough(s, t, id, vms, at);
    WayOut(s, t, id, AfterFlush(s, map[], obs), obs);
    FlushIsReplay(s, map[], obs);
    assert s.committed + map[] == s.committed;
  }

  /** The server with one more task. */
  function With(s: Server, t: TaskId, id: ConnectionId, phase: Phase): Server {
    s.(running := s.running + {id}, tasks := s.tasks[t := Task(id, phase)])
  }

  lemma WayIn(s: Server, t: TaskId, id: ConnectionId)
    requires t !in s.tasks && id !in s.running
    ensures Step(s, Request(t, id, false)) == With(s, t, id, Opening)
    ensures Step(With(s, t, id, Opening), OpenSucceeds(t)) == With(s, t, id, Scheduled)
    ensures Step(With(s, t, id, Scheduled), Begin(t, false)) == With(s, t, id, Collecting(map[], []))
  {
  }

  /** A request that finds no connection, and a collection that is rolled back, leave the server as it was. */
  lemma WaysBack(s: Server, t: TaskId, id: ConnectionId, own: Rows, done: seq<Observation>)
    requires t !in s.tasks && id !in s.running
    ensures Step(With(s, t, id, Opening), OpenFails(t)) == s
    ensures Step(With(s, t, id, Collecting(own, done)), RollBack(t)) == With(s, t, id, Closing)
    ensures Step(With(s, t, id, Closing), Release(t)) == s
  {
    var closing := With(s, t, id, Closing);
    assert closing.tasks - {t} == s.tasks && closing.running - {id} == s.running;
    var opening := With(s, t, id, Opening);
    assert opening.tasks - {t} == s.tasks && opening.running - {id} == s.running;
  }

  lemma WayThrough(s: Server, t: TaskId, id: ConnectionId, vms: seq<VirtualMachine>, at: Instant)
    requires t !in s.tasks && id !in s.running && forall vm <- vms :: vm.connectionId == id
    ensures Step(With(s, t, id, Collecting(map[], [])), Flush(t, vms, at)) ==
            With(s, t, id, Collecting(AfterFlush(s, map[], Stamped(vms, at)), Stamped(vms, at)))
  {
    SameFlush(s, With(s, t, id, Collecting(map[], [])), map[], Stamped(vms, at));
    hide AfterFlush;
    assert [] + Stamped(vms, at) == Stamped(vms, at);
  }

  lemma WayOut(s: Server, t: TaskId, id: ConnectionId, own: Rows, done: seq<Observation>)
    requires t !in s.tasks && id !in s.running
    ensures var closing := With(s, t, id, Closing).(committed := s.committed + own, log := s.log + done);
            && Step(With(s, t, id, Collecting(own, done)), Commit(t)) == closing
            && Step(closing, Release(t)) == s.(committed := s.committed + own, log := s.log + done)
  {
    var closing := With(s, t, id, Closing).(committed := s.committed + own, log := s.log + done);
    assert closing.tasks - {t} == s.tasks && closing.running - {id} == s.running;
  }

  lemma SameFlush(s: Server, r: Server, own: Rows, obs: seq<Observation>)
    requires s.committed == r.committed
    ensures AfterFlush(r, own, obs) == AfterFlush(s, own, obs)
  {
  }

  lemma SixSteps(s: Server, way: seq<Action>)
    requires |way| == 6
    ensures Execute(s, way) == Step(Step(Step(Step(Step(Step(s, way[0]), way[1]), way[2]), way[3]), way[4]), way[5])
  {
    hide Step;
    assert way[..6] == way;
    forall i | 0 <= i < 6 ensures Execute(s, way[..i + 1]) == Step(Execute(s, way[..i]), way[i]) {
      assert way[..i + 1][..i] == way[..i];
    }
    assert Execute(s, way[..0]) == s;
    assert Execute(s, way[..0 + 1]) == Step(s, way[0]);
    assert Execute(s, way[..1 + 1]) == Step(Step(s, way[0]), way[1]);
    assert Execute(s, way[..2 + 1]) == Step(Step(Step(s, way[0]), way[1]), way[2]);
    assert Execute(s, way[..3 + 1]) == Step(Step(Step(Step(s, way[0]), way[1]), way[2]), way[3]);
    assert Execute(s, way[..4 + 1]) == Step(Step(Step(Step(Step(s, way[0]), way[1]), way[2]), way[3]), way[4]);
    assert Execute(s, way[..5 + 1]) == Execute(s, way);
  }

  /** This action loses the id it admitted or was to release. */
  predicate Leaks(s: Server, a: Action) {
    match a
    case Request(t, id, setupRaises) => t !in s.tasks && id !in s.running && setupRaises
    case Begin(t, cipherRaises) => t in s.tasks && s.tasks[t].phase.Scheduled? && cipherRaises
    case _ => false
  }

  ghost predicate NoneLeaks(actions: seq<Action>) {
    forall i | 0 <= i < |actions| :: !Leaks(Execute(IDLE, actions[..i]), actions[i])
  }

  /** When no task is live the set is empty, exactly if no exception has struck outside the two try blocks. */
  lemma EmptyAtRestUnlessLeaked(actions: seq<Action>)
    requires Execute(IDLE, actions).tasks == map[]
    ensures Execute(IDLE, actions).running == {} <==> NoneLeaks(actions)
  {
    AlwaysGuarded(actions);
    LeakedIffSomeActionLeaks(actions);
  }

  /** One request whose setup raises: nobody is at work, and the connection is taken. */
  lemma SetupFailureLeaks(id: ConnectionId)
    ensures var s := Execute(IDLE, [Request(0, id, true)]); s.tasks == map[] && s.running == {id}
  {
    var actions := [Request(0, id, true)];
    assert actions[..0] == [];
    assert Execute(IDLE, actions) == Step(IDLE, actions[0]);
  }

  /** A background collection that cannot even set up: the same. */
  lemma BackgroundSetupFailureLeaks(s: Server, t: TaskId, id: ConnectionId)
    requires t !in s.tasks && id !in s.running
    ensures var after := Step(With(s, t, id, Scheduled), Begin(t, true));
            after.tasks == s.tasks && after.running == s.running + {id}
  {
    assert With(s, t, id, Scheduled).tasks - {t} == s.tasks;
  }

  lemma {:induction false} LeakedIffSomeActionLeaks(actions: seq<Action>)
    ensures Execute(IDLE, actions).leaked == {} <==> NoneLeaks(actions)
    decreases |actions|
  {
    hide Step, Leaks, NoneLeaks;
    if actions == [] {
      NothingLeaksAtFirst();
    } else {
      var init, a := actions[..|actions| - 1], actions[|actions| - 1];
      LeakedIffSomeActionLeaks(init);
      LeakStep(Execute(IDLE, init), a);
      NoneLeaksStep(init, a);
      assert actions == init + [a];
    }
  }

  lemma NothingLeaksAtFirst()
    ensures NoneLeaks([]) && Execute(IDLE, []).leaked == {}
  {
  }

  lemma NoneLeaksStep(init: seq<Action>, a: Action)
    ensures NoneLeaks(init + [a]) <==> NoneLeaks(init) && !Leaks(Execute(IDLE, init), a)
  {
    hide Execute, Leaks;
    var actions := init + [a];
    assert forall i | 0 <= i < |actions| :: actions[..i] == if i < |init| then init[..i] else init;
    if NoneLeaks(actions) {
      assert !Leaks(Execute(IDLE, actions[..|init|]), actions[|init|]);
      assert forall i | 0 <= i < |init| ::
        Leaks(Execute(IDLE, init[..i]), init[i]) == Leaks(Execute(IDLE, actions[..i]), actions[i]);
    }
  }

  lemma LeakStep(s: Server, a: Action)
    ensures Step(s, a).leaked == {} <==> s.leaked == {} && !Leaks(s, a)
  {
    hide AfterFlush;
  }

  /** A leaked connection is never collected again: whatever happens, no task for it is ever admitted. */
  lemma LeakIsForever(s: Server, actions: seq<Action>, id: ConnectionId)
    requires Guarded(s) && id in s.leaked
    ensures id in Execute(s, actions).running && id !in LiveIds(Execute(s, actions))
  {
    StaysGuarded(s, actions);
  }

  // ---- Interleaved sessions are serial ---------------------------------------------------

  /** Rows under keys a run does not observe are carried along by it. */
  lemma {:induction false} ReplayFrame(rows: Rows, extra: Rows, run: seq<Observation>)
    requires extra.Keys !! History.KeysOf(run)
    ensures Replay(rows + extra, run) == Replay(rows, run) + extra
    decreases |run|
  {
    if run != [] {
      hide Observe;
      var init, o := run[..|run| - 1], run[|run| - 1];
      assert run == init + [o];
      assert History.KeysOf(init) <= History.KeysOf(run) && o.Key() in History.KeysOf(run);
      ReplayFrame(rows, extra, init);
      ObserveFrame(Replay(rows, init), extra, o);
    }
  }

  lemma ObserveFrame(rows: Rows, extra: Rows, o: Observation)
    requires o.Key() !in extra
    ensures Observe(rows + extra, o) == Observe(rows, o) + extra
  {
    hide Refreshed, ToColumns;
  }

  /** Writing back the observed keys is the whole effect of a run. */
  lemma FlushIsReplay(s: Server, own: Rows, obs: seq<Observation>)
    ensures Seen(s, AfterFlush(s, own, obs)) == Replay(Seen(s, own), obs)
  {
    hide Replay;
    var before := Seen(s, own);
    History.RowsStay(before, obs);
    forall k <- Replay(before, obs)
      ensures k !in History.KeysOf(obs) ==> k in before && Replay(before, obs)[k] == before[k]
    {
      if k !in History.KeysOf(obs) {
        History.OthersUntouched(before, obs, k);
      }
    }
  }

  /**
   Between the awaits of a flush other tasks may commit. As their rows have other keys, it makes no difference: a flush
   cut anywhere, with such a commit in the gap, writes what it writes in one piece, and so may count as one action.
   */
  lemma FlushAcrossCommit(s: Server, own: Rows, a: seq<Observation>, b: seq<Observation>, other: Rows)
    requires other.Keys !! own.Keys && other.Keys !! History.KeysOf(a) && other.Keys !! History.KeysOf(b)
    ensures AfterFlush(s.(committed := s.committed + other), AfterFlush(s, own, a), b) == AfterFlush(s, own, a + b)
  {
    var first, between, seen := AfterFlush(s, own, a), s.(committed := s.committed + other), Seen(s, own);
    hide Replay, AfterFlush, Seen;
    FlushRows(s, own, a);
    FlushRows(s, own, a + b);
    FlushRows(between, first, b);
    KeysOfBoth(a, b);
    ReplayInPieces(seen, a, b);
    SeenAcrossCommit(s, own, a, b, other);
    LaterKeysOnly(Replay(seen, a), b);
    hide WrittenBack;
    WrittenTwice(own, first, AfterFlush(between, first, b), AfterFlush(s, own, a + b),
                 History.KeysOf(a), History.KeysOf(b), Replay(seen, a), Replay(seen, a + b), other);
  }

  /** The rows of a session after writing these keys back as it now sees them. */
  ghost predicate WrittenBack(after: Rows, own: Rows, keys: set<VmKey>, seen: Rows) {
    && after.Keys == own.Keys + keys && keys <= seen.Keys
    && forall k <- after :: after[k] == if k in keys then seen[k] else own[k]
  }

  lemma WrittenTwice(own: Rows, first: Rows, second: Rows, whole: Rows, a: set<VmKey>, b: set<VmKey>,
                     one: Rows, two: Rows, other: Rows)
    requires WrittenBack(first, own, a, one) && WrittenBack(second, first, b, two + other)
    requires WrittenBack(whole, own, a + b, two) && other.Keys !! b
    requires forall k <- one | k !in b :: k in two && two[k] == one[k]
    ensures second == whole
  {
  }

  lemma LaterKeysOnly(rows: Rows, run: seq<Observation>)
    ensures forall k <- rows | k !in History.KeysOf(run) :: k in Replay(rows, run) && Replay(rows, run)[k] == rows[k]
  {
    forall k <- rows | k !in History.KeysOf(run) ensures k in Replay(rows, run) && Replay(rows, run)[k] == rows[k] {
      History.OthersUntouched(rows, run, k);
    }
  }

  lemma SeenAcrossCommit(s: Server, own: Rows, a: seq<Observation>, b: seq<Observation>, other: Rows)
    requires other.Keys !! own.Keys && other.Keys !! History.KeysOf(a) && other.Keys !! History.KeysOf(b)
    ensures var first := AfterFlush(s, own, a);
            Replay(Seen(s.(committed := s.committed + other), first), b) == Replay(Replay(Seen(s, own), a), b) + other
  {
    var first := AfterFlush(s, own, a);
    FlushRows(s, own, a);
    FlushIsReplay(s, own, a);
    hide Replay, AfterFlush;
    DisjointWritesCommute(s.committed, other, first);
    ReplayFrame(Seen(s, first), other, b);
  }

  lemma FlushRows(s: Server, own: Rows, obs: seq<Observation>)
    ensures WrittenBack(AfterFlush(s, own, obs), own, History.KeysOf(obs), Replay(Seen(s, own), obs))
    ensures AfterFlush(s, own, obs).Keys == own.Keys + History.KeysOf(obs)
  {
    hide Replay;
    History.RowsStay(Seen(s, own), obs);
  }

  lemma KeysOfBoth(a: seq<Observation>, b: seq<Observation>)
    ensures History.KeysOf(a + b) == History.KeysOf(a) + History.KeysOf(b)
  {
  }

  ghost predicate OwnKeys(rows: Rows, id: ConnectionId) {
    forall k <- rows :: k.0 == id
  }

  /** The session has written exactly what its observations make of the committed rows, all its own. */
  ghost predicate SessionSerial(s: Server, task: Task) {
    match task.phase
    case Collecting(own, done) =>
      && OwnKeys(own, task.id)
      && (forall o <- done :: o.vm.connectionId == task.id)
      && Seen(s, own) == Replay(s.committed, done)
    case _ => true
  }

  ghost predicate Serial(s: Server) {
    && s.committed == Replay(map[], s.log)
    && (forall t <- s.tasks :: SessionSerial(s, s.tasks[t]))
  }

  /** Another connection's commit does not disturb a session. */
  lemma ForeignCommit(s: Server, task: Task, other: Rows, id: ConnectionId, log: seq<Observation>)
    requires SessionSerial(s, task) && OwnKeys(other, id) && id != task.id
    ensures SessionSerial(s.(committed := s.committed + other, log := log), task)
  {
    if task.phase.Collecting? {
      hide Replay;
      var own, done := task.phase.own, task.phase.done;
      assert other.Keys !! own.Keys;
      assert other.Keys !! History.KeysOf(done);
      ReplayFrame(s.committed, other, done);
      DisjointWritesCommute(s.committed, other, own);
    }
  }

  lemma DisjointWritesCommute(rows: Rows, a: Rows, b: Rows)
    requires a.Keys !! b.Keys
    ensures rows + a + b == rows + b + a
  {
  }

  lemma CommitSerial(s: Server, t: TaskId)
    requires Guarded(s) && Serial(s) && t in s.tasks && s.tasks[t].phase.Collecting?
    ensures Serial(Step(s, Commit(t)))
  {
    hide Replay, SessionSerial;
    var own, done := s.tasks[t].phase.own, s.tasks[t].phase.done;
    assert SessionSerial(s, s.tasks[t]);
    SessionMeans(s, t);
    ReplayInPieces(map[], s.log, done);
    var after := Step(s, Commit(t));
    forall u <- after.tasks ensures SessionSerial(after, after.tasks[u]) {
      if u == t {
        ClosingIsSerial(after, after.tasks[u]);
      } else {
        assert SessionSerial(s, s.tasks[u]);
        ForeignCommit(s, s.tasks[u], own, s.tasks[t].id, s.log + done);
        SessionReadsCommitted(s.(committed := s.committed + own, log := s.log + done), after, after.tasks[u]);
      }
    }
  }

  lemma SessionMeans(s: Server, t: TaskId)
    requires t in s.tasks && s.tasks[t].phase.Collecting? && SessionSerial(s, s.tasks[t])
    ensures OwnKeys(s.tasks[t].phase.own, s.tasks[t].id)
    ensures s.committed + s.tasks[t].phase.own == Replay(s.committed, s.tasks[t].phase.done)
  {
  }

  lemma ClosingIsSerial(s: Server, task: Task)
    requires !task.phase.Collecting?
    ensures SessionSerial(s, task)
  {
  }

  lemma SessionReadsCommitted(s: Server, r: Server, task: Task)
    requires s.committed == r.committed
    ensures SessionSerial(s, task) <==> SessionSerial(r, task)
  {
  }

  lemma FlushSerial(s: Server, t: TaskId, vms: seq<VirtualMachine>, at: Instant)
    requires Serial(s) && t in s.tasks && s.tasks[t].phase.Collecting?
    ensures Serial(Step(s, Flush(t, vms, at)))
  {
    hide Replay;
    var task := s.tasks[t];
    var own, done, obs := task.phase.own, task.phase.done, Stamped(vms, at);
    assert SessionSerial(s, task);
    if forall vm <- vms :: vm.connectionId == task.id {
      FlushIsReplay(s, own, obs);
      ReplayInPieces(s.committed, done, obs);
      assert OwnKeys(AfterFlush(s, own, obs), task.id);
    }
  }

  /** An action other than a flush or a commit leaves every session as it was, or opens an empty one. */
  lemma OtherActions(s: Server, a: Action)
    requires !a.Flush? && !a.Commit?
    ensures Step(s, a).committed == s.committed && Step(s, a).log == s.log
    ensures forall t <- Step(s, a).tasks ::
              || (t in s.tasks && Step(s, a).tasks[t] == s.tasks[t])
              || !Step(s, a).tasks[t].phase.Collecting?
              || Step(s, a).tasks[t].phase == Collecting(map[], [])
  {
  }

  lemma StepSerial(s: Server, a: Action)
    requires Guarded(s) && Serial(s)
    ensures Serial(Step(s, a))
  {
    hide Replay, AfterFlush;
    if a.t in s.tasks && s.tasks[a.t].phase.Collecting? && a.Commit? {
      CommitSerial(s, a.t);
    } else if a.t in s.tasks && s.tasks[a.t].phase.Collecting? && a.Flush? {
      FlushSerial(s, a.t, a.vms, a.at);
    } else if !a.Commit? && !a.Flush? {
      OtherActionSerial(s, a);
    }
  }

  lemma OtherActionSerial(s: Server, a: Action)
    requires Serial(s) && !a.Commit? && !a.Flush?
    ensures Serial(Step(s, a))
  {
    hide Replay, Step;
    OtherActions(s, a);
    NothingReplayed(s.committed);
  }

  lemma NothingReplayed(rows: Rows)
    ensures Replay(rows, []) == rows && rows + map[] == rows
  {
  }

  /**
   However any number of requests and background tasks are interleaved, the committed table is the one that
   results from the committed collections running one after the other, in the order of their commits.
   */
  lemma {:induction false} InterleavingIsSerial(actions: seq<Action>)
    ensures Execute(IDLE, actions).committed == Replay(map[], Execute(IDLE, actions).log)
    ensures Serial(Execute(IDLE, actions))
    decreases |actions|
  {
    hide Serial, Guarded;
    if actions == [] {
      IdleIsSerial();
    } else {
      var s := Execute(IDLE, actions[..|actions| - 1]);
      InterleavingIsSerial(actions[..|actions| - 1]);
      AlwaysGuarded(actions[..|actions| - 1]);
      StepSerial(s, actions[|actions| - 1]);
    }
    SerialMeans(Execute(IDLE, actions));
  }

  lemma IdleIsSerial()
    ensures Serial(IDLE)
  {
  }

  lemma SerialMeans(s: Server)
    requires Serial(s)
    ensures s.committed == Replay(map[], s.log)
  {
  }

  // ---- The set in the program ------------------------------------------------------------

  class RunningCollections {
    var ids: set<ConnectionId>

    constructor ()
      ensures ids == IDLE.running
    {
      ids := {};
    }

    /** No await between the test and the registration: one atomic step. */
    method TryAdmit(id: ConnectionId, ghost s: Server, ghost t: TaskId) returns (admitted: bool)
      requires ids == s.running && t !in s.tasks
      modifies this
      ensures ids == Step(s, Request(t, id, false)).running
      ensures admitted <==> t in Step(s, Request(t, id, false)).tasks
      ensures admitted <==> id !in old(ids)
      ensures ids == old(ids) + {id}
    {
      if id in ids {
        return false;
      }
      ids := ids + {id};
      return true;
    }

    method Discard(id: ConnectionId, ghost s: Server, ghost t: TaskId)
      requires ids == s.running && t in s.tasks && s.tasks[t].id == id
      modifies this
      ensures ids == Discarded(s, t).running
      ensures ids == old(ids) - {id}
    {
      ids := ids - {id};
    }
  }
}
