/**
 Several workers start at once on an empty database and each tries to create the first administrator:
 src/main.py:44-80. One step is what one worker does between two awaits of the database.
 */
module Bootstrap {
  import opened Common
  import opened Accounts
  import Lockout

  datatype Worker =
    | Starting              // about to count the accounts
    | Adding(id: UserId)    // saw none, about to insert its row
    | Added(id: UserId)     // inserted, not yet committed
    | Finished

  /** The committed accounts and every worker's progress. */
  datatype Startup = Startup(users: map<UserId, UserRow>, workers: seq<Worker>)

  function AdminRow(name: string): UserRow {
    UserRow(Normalized(name), Admin, Active, None, None, Lockout.LockState(0, None))
  }

  ghost predicate NameTaken(s: Startup, name: string) {
    exists u <- s.users :: s.users[u].username == Normalized(name)
  }

  /** Another session holds an uncommitted row under the name, so an insert has to wait for it. */
  ghost predicate NameHeld(s: Startup) {
    exists w | 0 <= w < |s.workers| :: s.workers[w].Added?
  }

  ghost predicate CanStep(s: Startup, w: nat, name: string) {
    && w < |s.workers| && !s.workers[w].Finished?
    && (s.workers[w].Adding? && !NameTaken(s, name) ==> !NameHeld(s))
  }

  /** One step of worker w; id is the identifier it draws. */
  ghost function Step(s: Startup, w: nat, id: UserId, name: string): Startup {
    if !CanStep(s, w, name) then s
    else
      match s.workers[w]
      case Starting => s.(workers := s.workers[w := if s.users != map[] then Finished else Adding(id)])
      case Adding(i) => s.(workers := s.workers[w := if NameTaken(s, name) then Finished else Added(i)])
      case Added(i) => Startup(s.users[i := AdminRow(name)], s.workers[w := Finished])
  }

  datatype Turn = Turn(worker: nat, id: UserId)

  ghost function Interleave(s: Startup, turns: seq<Turn>, name: string): Startup {
    if turns == [] then s
    else Step(Interleave(s, turns[..|turns| - 1], name), turns[|turns| - 1].worker, turns[|turns| - 1].id, name)
  }

  function Fresh(n: nat): Startup {
    Startup(map[], seq(n, _ => Starting))
  }

  // ---- Invariant -------------------------------------------------------------------------

  /** No account and at most one uncommitted, or exactly the administrator; nobody has given up on an empty table. */
  ghost predicate AtMostOne(s: Startup, name: string) {
    && (s.users == map[] || exists i :: s.users == map[i := AdminRow(name)])
    && (s.users != map[] ==> !NameHeld(s))
    && (forall v, w | 0 <= v < |s.workers| && 0 <= w < |s.workers|
          && s.workers[v].Added? && s.workers[w].Added? :: v == w)
    && (s.users == map[] ==> forall w | 0 <= w < |s.workers| :: !s.workers[w].Finished?)
  }

  lemma StepKeepsAtMostOne(s: Startup, w: nat, id: UserId, name: string)
    requires AtMostOne(s, name)
    ensures AtMostOne(Step(s, w, id, name), name)
    ensures |Step(s, w, id, name).workers| == |s.workers|
  {
    var after := Step(s, w, id, name);
    if CanStep(s, w, name) {
      if s.workers[w].Added? {
        assert NameHeld(s);
        assert after.users == map[s.workers[w].id := AdminRow(name)];
        assert s.workers[w].id in after.users;
      } else if s.users != map[] {
        assert NameTaken(s, name) by {
          var i :| s.users == map[i := AdminRow(name)];
          assert i in s.users;
        }
        assert !NameHeld(after);
      }
    }
  }

  lemma {:induction false} AlwaysAtMostOne(n: nat, turns: seq<Turn>, name: string)
    ensures AtMostOne(Interleave(Fresh(n), turns, name), name)
    ensures |Interleave(Fresh(n), turns, name).workers| == n
    decreases |turns|
  {
    if turns != [] {
      AlwaysAtMostOne(n, turns[..|turns| - 1], name);
      StepKeepsAtMostOne(Interleave(Fresh(n), turns[..|turns| - 1], name),
                         turns[|turns| - 1].worker, turns[|turns| - 1].id, name);
    }
  }

  // ---- Progress --------------------------------------------------------------------------

  ghost predicate AllFinished(s: Startup) {
    forall w | 0 <= w < |s.workers| :: s.workers[w].Finished?
  }

  /** While somebody is not finished, somebody can go on: no worker waits for a worker that waits. */
  lemma NoDeadlock(s: Startup, name: string)
    requires !AllFinished(s)
    ensures exists w :: CanStep(s, w, name)
  {
    if NameHeld(s) {
      var w :| 0 <= w < |s.workers| && s.workers[w].Added?;
      assert CanStep(s, w, name);
    } else {
      var w :| 0 <= w < |s.workers| && !s.workers[w].Finished?;
      assert CanStep(s, w, name);
    }
  }

  function StepsLeft(workers: seq<Worker>): nat {
    if workers == [] then 0
    else StepsLeft(workers[..|workers| - 1]) +
         match workers[|workers| - 1] case Starting => 3 case Adding(_) => 2 case Added(_) => 1 case Finished => 0
  }

  lemma {:induction false} StepsLeftDrop(workers: seq<Worker>, w: nat, next: Worker)
    requires w < |workers|
    requires StepsLeft([next]) < StepsLeft([workers[w]])
    ensures StepsLeft(workers[w := next]) < StepsLeft(workers)
    decreases |workers|
  {
    var init, last := workers[..|workers| - 1], workers[|workers| - 1];
    if w == |init| {
      assert workers[w := next][..|init|] == init;
      assert [next][..0] == [] && [last][..0] == [];
    } else {
      assert workers[w := next][..|init|] == init[w := next];
      StepsLeftDrop(init, w, next);
    }
  }

  /** Every step that can be taken brings the end nearer, so every interleaving ends. */
  lemma StepsRunOut(s: Startup, w: nat, id: UserId, name: string)
    requires CanStep(s, w, name)
    ensures StepsLeft(Step(s, w, id, name).workers) < StepsLeft(s.workers)
  {
    var next := Step(s, w, id, name).workers[w];
    assert [next][..0] == [] && [s.workers[w]][..0] == [];
    StepsLeftDrop(s.workers, w, next);
  }

  /** However the workers are interleaved, once they are finished there is one account: an active administrator. */
  lemma OneAdministrator(n: nat, turns: seq<Turn>, name: string)
    requires n > 0 && AllFinished(Interleave(Fresh(n), turns, name))
    ensures exists i :: Interleave(Fresh(n), turns, name).users == map[i := AdminRow(name)]
  {
    AlwaysAtMostOne(n, turns, name);
    var s := Interleave(Fresh(n), turns, name);
    assert s.workers[0].Finished?;
  }

  /** From the first start-up on, through every history of account operations, some active administrator is left. */
  lemma AdministratorFromTheStart(n: nat, turns: seq<Turn>, name: string,
                                  connections: set<ConnectionId>, ops: seq<Operation>)
    requires n > 0 && AllFinished(Interleave(Fresh(n), turns, name))
    ensures var s := Store(Interleave(Fresh(n), turns, name).users, {}, connections);
            && ActiveAdmins(ApplyAll(s, ops)) != {}
            && exists root :: Consistent(ApplyAll(s, ops), root)
  {
    OneAdministrator(n, turns, name);
    var users := Interleave(Fresh(n), turns, name).users;
    var root :| users == map[root := AdminRow(name)];
    var s := Store(users, {}, connections);
    assert root in s.users && s.users[root] == AdminRow(name);
    assert root in ActiveAdmins(s);
    AdministratorsNeverRunOut(s, ops);
    NormalizedIsLowercase(name);
    AlwaysConsistent(s, ops, root);
  }
}
