/**
 The account repositories and services, step by step: src/infrastructure/repository/user_repo.py,
 src/application/user_service.py and the login of src/application/auth_service.py. Each call is proved to do
 what module Accounts says of it.
 */
module AccountServices {
  import opened Common
  import opened Accounts
  import Lockout

  /** The call did what is said of the operation: the same tables, or the same exception. */
  ghost predicate Did(s: Store, op: Operation, after: Store, raised: Option<AccountError>) {
    match Perform(s, op)
    case Ok(t) => raised == None && after == t
    case Err(e) => raised == Some(e)
  }

  /** dict.fromkeys: each id once, in order of first appearance. */
  function Deduplicated(ids: seq<ConnectionId>): (r: seq<ConnectionId>)
    ensures forall c :: c in r <==> c in ids
    ensures forall i, j | 0 <= i < j < |r| :: r[i] != r[j]
  {
    if ids == [] then []
    else
      var init := Deduplicated(ids[..|ids| - 1]);
      if ids[|ids| - 1] in init then init else init + [ids[|ids| - 1]]
  }

  class Services {
    var users: map<UserId, UserRow>
    var scopes: set<(UserId, ConnectionId)>
    var connections: set<ConnectionId>

    ghost function State(): Store
      reads this
    {
      Store(users, scopes, connections)
    }

    constructor (s: Store)
      ensures State() == s
    {
      users, scopes, connections := s.users, s.scopes, s.connections;
    }

    // ---- Repositories --------------------------------------------------------------------

    method CountActiveAdmins(exclude: UserId) returns (n: nat)
      ensures n == |ActiveAdmins(State()) - {exclude}|
      ensures n == 0 <==> IsLastAdmin(State(), exclude)
    {
      var others := set u | u in users && users[u].role == Admin && users[u].status == Active && u != exclude;
      assert others == ActiveAdmins(State()) - {exclude};
      return |others|;
    }

    method SetStatus(u: UserId, status: UserStatus, approvedBy: Option<string>, rejectReason: Option<string>)
      requires u in users
      modifies `users
      ensures users == old(users)[u := old(users)[u].(
                status := status,
                approvedBy := if status == Active && approvedBy.Some? then approvedBy else old(users)[u].approvedBy,
                rejectReason := if status == Rejected then rejectReason else old(users)[u].rejectReason)]
    {
      var row := users[u];
      row := row.(status := status);
      if status == Active && approvedBy.Some? {
        row := row.(approvedBy := approvedBy);
      }
      if status == Rejected {
        row := row.(rejectReason := rejectReason);
      }
      users := users[u := row];
    }

    method SetRole(u: UserId, role: Role)
      requires u in users
      modifies `users
      ensures users == old(users)[u := old(users)[u].(role := role)]
    {
      users := users[u := users[u].(role := role)];
    }

    /** Delete all, then add each once, so no row repeats; an unknown connection is an integrity error. */
    method Replace(u: UserId, ids: seq<ConnectionId>) returns (raised: Option<AccountError>)
      modifies `scopes
      ensures match ReplaceScopes(old(State()), u, ids)
              case Ok(after) => raised == None && State() == after
              case Err(e) => raised == Some(e)
    {
      ghost var before := State();
      scopes := set p | p in scopes && p.0 != u;
      var unique := Deduplicated(ids);
      for i := 0 to |unique|
        invariant scopes == (set p | p in before.scopes && p.0 != u) + (set c | c in unique[..i] :: (u, c))
      {
        assert unique[i] !in unique[..i];
        assert (u, unique[i]) !in scopes;
        assert unique[..i + 1] == unique[..i] + [unique[i]];
        scopes := scopes + {(u, unique[i])};
      }
      assert unique[..|unique|] == unique;
      if exists c | c in unique :: c !in connections {
        return Some(IntegrityViolation);
      }
      assert scopes == WithScopes(before, u, set c | c in ids).scopes;
      return None;
    }

    method RegisterFailure(u: UserId, now: Instant, policy: Lockout.Policy)
      requires u in users
      modifies `users
      ensures users == old(users)[u := old(users)[u].(login := Lockout.AfterFailure(old(users)[u].login, now, policy))]
    {
      var login := users[u].login;
      login := login.(failed := login.failed + 1);
      if login.failed >= policy.maxAttempts {
        login := login.(lockedUntil := Some(now + policy.lockout));
        login := login.(failed := 0);
      }
      users := users[u := users[u].(login := login)];
    }

    method ResetFailures(u: UserId)
      requires u in users
      modifies `users
      ensures users == old(users)[u := old(users)[u].(login := Lockout.LockState(0, None))]
    {
      users := users[u := users[u].(login := Lockout.LockState(0, None))];
    }

    // ---- Services ------------------------------------------------------------------------

    method Register(name: string, policyOk: bool, newId: UserId) returns (raised: Option<AccountError>)
      modifies `users
      ensures Did(old(State()), Operation.Register(name, policyOk, newId), State(), raised)
    {
      var normalized := Normalized(name);
      if !IsUsername(normalized) {
        return Some(Invalid("username"));
      }
      if !policyOk {
        return Some(Invalid("password"));
      }
      var existing := set u | u in users && users[u].username == normalized;
      assert existing == NamedUsers(State(), normalized);
      if existing != {} {
        return None;
      }
      if newId in users {
        return Some(IntegrityViolation);
      }
      users := users[newId := UserRow(normalized, Viewer, Pending, None, None, Lockout.LockState(0, None))];
      return None;
    }

    method Approve(actor: AccessScope, target: UserId, role: Role, ids: seq<ConnectionId>)
      returns (raised: Option<AccountError>)
      modifies `users, `scopes
      ensures Did(old(State()), Operation.Approve(actor, target, role, ids), State(), raised)
    {
      raised := CheckTarget(actor, target, false, Some(Active));
      if raised.Some? {
        return;
      }
      SetStatus(target, Active, Some(actor.username), None);
      SetRole(target, role);
      raised := Replace(target, if role == Admin then [] else ids);
    }

    method Reject(actor: AccessScope, target: UserId, reason: Option<string>) returns (raised: Option<AccountError>)
      modifies `users
      ensures Did(old(State()), Operation.Reject(actor, target, reason), State(), raised)
    {
      raised := CheckTarget(actor, target, false, Some(Rejected));
      if raised.None? {
        SetStatus(target, Rejected, None, reason);
      }
    }

    method Disable(actor: AccessScope, target: UserId) returns (raised: Option<AccountError>)
      modifies `users
      ensures Did(old(State()), Operation.Disable(actor, target), State(), raised)
    {
      raised := CheckTarget(actor, target, true, Some(Disabled));
      if raised.Some? {
        return;
      }
      if users[target].role == Admin {
        var others := CountActiveAdmins(target);
        if others == 0 {
          return Some(LastAdmin);
        }
      }
      SetStatus(target, Disabled, None, None);
    }

    method Enable(actor: AccessScope, target: UserId) returns (raised: Option<AccountError>)
      modifies `users
      ensures Did(old(State()), Operation.Enable(actor, target), State(), raised)
    {
      raised := CheckTarget(actor, target, false, Some(Active));
      if raised.None? {
        SetStatus(target, Active, Some(actor.username), None);
      }
    }

    method ChangeRole(actor: AccessScope, target: UserId, role: Role) returns (raised: Option<AccountError>)
      modifies `users, `scopes
      ensures Did(old(State()), Operation.ChangeRole(actor, target, role), State(), raised)
    {
      raised := CheckTarget(actor, target, true, None);
      if raised.Some? {
        return;
      }
      if users[target].role == Admin && role != Admin {
        var others := CountActiveAdmins(target);
        if others == 0 {
          return Some(LastAdmin);
        }
      }
      SetRole(target, role);
      if role == Admin {
        raised := Replace(target, []);
      }
    }

    method SetScopes(actor: AccessScope, target: UserId, ids: seq<ConnectionId>) returns (raised: Option<AccountError>)
      modifies `scopes
      ensures Did(old(State()), Operation.SetScopes(actor, target, ids), State(), raised)
    {
      raised := CheckTarget(actor, target, false, None);
      if raised.Some? {
        return;
      }
      if users[target].role == Admin {
        return Some(Invalid("role"));
      }
      raised := Replace(target, ids);
    }

    /** Permission, existence, not oneself, allowed transition: in this order. */
    method CheckTarget(actor: AccessScope, target: UserId, notSelf: bool, next: Option<UserStatus>)
      returns (raised: Option<AccountError>)
      ensures raised == Guards(State(), actor, target, notSelf, next)
      ensures raised.None? ==> target in users
    {
      if !actor.Has(UserManage) {
        return Some(PermissionDenied);
      }
      if target !in users {
        return Some(NotFound);
      }
      if notSelf && actor.userId == target {
        return Some(Invalid("user_id"));
      }
      if next.Some? && next.value !in AllowedTransitions(users[target].status) {
        return Some(Invalid("status"));
      }
      return None;
    }

    method Login(name: string, attempt: Lockout.Attempt, policy: Lockout.Policy)
      returns (verdict: Option<Lockout.Verdict>)
      requires UsernamesUnique(State())
      modifies `users
      ensures verdict.None? <==> NamedUsers(old(State()), Normalized(name)) == {}
      ensures verdict.None? ==> State() == old(State())
      ensures forall u <- NamedUsers(old(State()), Normalized(name)) ::
                && State() == PerformLogin(old(State()), u, attempt, policy)
                && verdict == Some(LoginVerdict(old(State()), u, attempt))
      ensures State() == Apply(old(State()), Operation.LoginCall(name, attempt, policy))
    {
      var named := set u | u in users && users[u].username == Normalized(name);
      assert named == NamedUsers(State(), Normalized(name));
      if named == {} {
        return None;
      }
      var u :| u in named;
      assert named == {u};
      var row := users[u];
      if row.login.lockedUntil.Some? && row.login.lockedUntil.value > attempt.checkAt {
        assert users == users[u := row];
        return Some(Lockout.Locked);
      }
      if !attempt.passwordOk {
        RegisterFailure(u, attempt.countAt, policy);
        return Some(Lockout.WrongPassword);
      }
      if row.status != Active {
        assert users == users[u := row];
        return Some(Lockout.StatusRefused);
      }
      ResetFailures(u);
      return Some(Lockout.Admitted);
    }

    // ---- One request ---------------------------------------------------------------------

    /** The session of a request: committed when the handler returns, rolled back when it raises. */
    method Request(op: Operation) returns (raised: Option<AccountError>)
      requires UsernamesUnique(State()) && !op.LoginCall?
      modifies this
      ensures State() == Apply(old(State()), op)
      ensures raised.None? <==> Perform(old(State()), op).Ok?
    {
      var usersBefore, scopesBefore := users, scopes;
      match op {
        case Register(name, policyOk, newId) => raised := Register(name, policyOk, newId);
        case Approve(actor, target, role, ids) => raised := Approve(actor, target, role, ids);
        case Reject(actor, target, reason) => raised := Reject(actor, target, reason);
        case Disable(actor, target) => raised := Disable(actor, target);
        case Enable(actor, target) => raised := Enable(actor, target);
        case ChangeRole(actor, target, role) => raised := ChangeRole(actor, target, role);
        case SetScopes(actor, target, ids) => raised := SetScopes(actor, target, ids);
        case Login(name, attempt, policy) =>
          var verdict := Login(name, attempt, policy);
          raised := if verdict == Some(Lockout.Admitted) then None else Some(LoginRefused);
        case AddConnection(id) =>
          connections := connections + {id};
          raised := None;
        case RemoveConnection(id) =>
          connections := connections - {id};
          scopes := set p | p in scopes && p.1 != id;
          raised := None;
      }
      if raised.Some? {
        users, scopes := usersBefore, scopesBefore;
      }
    }
  }
}
