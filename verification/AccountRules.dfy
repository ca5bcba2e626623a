/**
 Who may do what, told from the accounts themselves: for each operation of module Accounts when it succeeds and what
 it then leaves, without the guards and tables that decide it (src/domain/auth.py:17-127,
 src/application/user_service.py:42-241, src/application/auth_service.py:42-74).
 */
module AccountRules {
  import opened Common
  import opened Accounts
  import Lockout

  // ---- Rights ------------------------------------------------------------------------------

  /** Everyone reads and exports, viewers change nothing, and all else is for administrators. */
  lemma RightsOfRoles(scope: AccessScope)
    ensures scope.Has(ResourceRead) && scope.Has(Export)
    ensures scope.Has(MetadataWrite) <==> scope.role != Viewer
    ensures scope.Has(ConnectionManage) <==> scope.role == Admin
    ensures scope.Has(CollectionTrigger) <==> scope.role == Admin
    ensures scope.Has(UserManage) <==> scope.role == Admin
    ensures scope.Has(AuditRead) <==> scope.role == Admin
  {
  }

  /** The scope a user asks with: all connections for an administrator, those of the scope rows for others. */
  lemma ReachOfScope(s: Store, u: UserId, c: ConnectionId)
    requires u in s.users
    ensures var scope := AccessScope(u, s.users[u].username, s.users[u].role, VisibleTo(s, u));
            && (scope.CanAccess(c) <==> s.users[u].role == Admin || (u, c) in s.scopes)
            && (scope.IsEmpty() <==> s.users[u].role != Admin && forall p <- s.scopes :: p.0 != u)
  {
    assert (u, c) in s.scopes ==> c in ScopeOf(s, u);
    if ScopeOf(s, u) == {} {
      forall p <- s.scopes ensures p.0 != u {
        assert p.0 == u ==> p.1 in ScopeOf(s, u);
      }
    }
  }

  // ---- Names -------------------------------------------------------------------------------

  /** The ASCII codes Python counts as whitespace. */
  predicate Blank(c: char) {
    9 <= c as int <= 13 || 28 <= c as int <= 32
  }

  predicate Blanks(s: string) {
    forall c <- s :: Blank(c)
  }

  /** Stripping takes blanks off both ends, and only blanks, until none is left there. */
  lemma {:induction false} StripTold(s: string) returns (left: string, right: string)
    ensures s == left + Strip(s) + right && Blanks(left) && Blanks(right)
    ensures Strip(s) != "" ==> !Blank(Strip(s)[0]) && !Blank(Strip(s)[|Strip(s)| - 1])
    decreases |s|
  {
    hide Blank, Strip, IsSpace;
    left, right := "", "";
    if s == "" || (!IsSpace(s[0]) && !IsSpace(s[|s| - 1])) {
      NothingStripped(s);
    } else if IsSpace(s[0]) {
      FrontStripped(s);
      left, right := StripTold(s[1..]);
      Regrouped([s[0]], left, Strip(s), right);
      left := [s[0]] + left;
    } else {
      BackStripped(s);
      left, right := StripTold(s[..|s| - 1]);
      Regrouped(left, Strip(s), right, [s[|s| - 1]]);
      right := right + [s[|s| - 1]];
    }
  }

  lemma Regrouped(a: string, b: string, c: string, d: string)
    ensures a + (b + c + d) == a + b + c + d == (a + b + c) + d == a + b + (c + d)
  {
  }

  lemma FrontStripped(s: string)
    requires s != "" && IsSpace(s[0])
    ensures Strip(s) == Strip(s[1..]) && Blank(s[0]) && s == [s[0]] + s[1..]
  {
    assert Strip(s) == Strip(s[1..]) by {
      hide IsSpace;
    }
    hide Strip;
    BlankIsSpace(s[0]);
  }

  lemma BackStripped(s: string)
    requires s != "" && !IsSpace(s[0]) && IsSpace(s[|s| - 1])
    ensures Strip(s) == Strip(s[..|s| - 1]) && Blank(s[|s| - 1]) && s == s[..|s| - 1] + [s[|s| - 1]]
  {
    assert Strip(s) == Strip(s[..|s| - 1]) by {
      hide IsSpace;
    }
    hide Strip;
    BlankIsSpace(s[|s| - 1]);
  }

  lemma NothingStripped(s: string)
    requires s == "" || (!IsSpace(s[0]) && !IsSpace(s[|s| - 1]))
    ensures Strip(s) == s == "" + s + ""
    ensures s != "" ==> !Blank(s[0]) && !Blank(s[|s| - 1])
  {
    if s != "" {
      BlankIsSpace(s[0]);
      BlankIsSpace(s[|s| - 1]);
    }
  }

  lemma BlankIsSpace(c: char)
    ensures IsSpace(c) <==> Blank(c)
  {
  }

  /** Lowercasing adds 32 to the code of each capital and changes nothing else. */
  lemma LowerTold(s: string, i: nat)
    requires i < |s|
    ensures Lower(s)[i] as int == s[i] as int + if 65 <= s[i] as int <= 90 then 32 else 0
  {
  }

  /** A username: 3 to 64 small letters, digits, dots, hyphens and underscores. */
  lemma UsernameTold(s: string)
    ensures IsUsername(s) <==>
            3 <= |s| <= 64
            && forall c <- s :: 97 <= c as int <= 122 || 48 <= c as int <= 57 || c as int in {45, 46, 95}
  {
  }

  // ---- Logins ------------------------------------------------------------------------------

  /** The answer of a login: the lock first, then the password, then the status. */
  lemma VerdictTold(s: Store, u: UserId, attempt: Lockout.Attempt)
    requires u in s.users
    ensures var row, verdict := s.users[u], LoginVerdict(s, u, attempt);
            var locked := row.login.lockedUntil.Some? && row.login.lockedUntil.value > attempt.checkAt;
            && (verdict == Lockout.Locked <==> locked)
            && (verdict == Lockout.WrongPassword <==> !locked && !attempt.passwordOk)
            && (verdict == Lockout.StatusRefused <==> !locked && attempt.passwordOk && row.status != Active)
            && (verdict == Lockout.Admitted <==> !locked && attempt.passwordOk && row.status == Active)
  {
  }

  /** A login succeeds exactly for an active account, an open lock and the right password; it clears the lock. */
  lemma LoginTold(s: Store, name: string, u: UserId, attempt: Lockout.Attempt, policy: Lockout.Policy)
    requires NamedUsers(s, Normalized(name)) == {u}
    ensures u in s.users
    ensures var op, row := Login(name, attempt, policy), s.users[u];
            && (Perform(s, op).Ok? <==>
                  && !(row.login.lockedUntil.Some? && row.login.lockedUntil.value > attempt.checkAt)
                  && attempt.passwordOk && row.status == Active)
            && Apply(s, op) ==
                 if Perform(s, op).Ok? then s.(users := s.users[u := row.(login := Lockout.LockState(0, None))]) else s
  {
    assert u in NamedUsers(s, Normalized(name));
  }

  /** The call alone: a wrong password counts one failure, or locks and starts counting anew. */
  lemma LoginCallTold(s: Store, name: string, u: UserId, attempt: Lockout.Attempt, policy: Lockout.Policy)
    requires NamedUsers(s, Normalized(name)) == {u}
    ensures u in s.users
    ensures var row, verdict := s.users[u], LoginVerdict(s, u, attempt);
            Apply(s, LoginCall(name, attempt, policy)) == s.(users := s.users[u := row.(login :=
              if verdict == Lockout.Admitted then Lockout.LockState(0, None)
              else if verdict != Lockout.WrongPassword then row.login
              else if row.login.failed < policy.maxAttempts - 1
                then Lockout.LockState(row.login.failed + 1, row.login.lockedUntil)
              else Lockout.LockState(0, Some(attempt.countAt + policy.lockout)))])
  {
    assert u in NamedUsers(s, Normalized(name));
  }

  lemma UnknownNameRefused(s: Store, name: string, attempt: Lockout.Attempt, policy: Lockout.Policy)
    requires forall u <- s.users :: s.users[u].username != Normalized(name)
    ensures Perform(s, Login(name, attempt, policy)) == Err(LoginRefused)
    ensures Apply(s, LoginCall(name, attempt, policy)) == s
  {
  }

  // ---- Registering ---------------------------------------------------------------------------

  /** A registration adds a waiting viewer, or says nothing about a name that is taken. */
  lemma RegisterTold(s: Store, name: string, policyOk: bool, newId: UserId)
    requires newId !in s.users
    ensures var result, username := Perform(s, Register(name, policyOk, newId)), Lower(Strip(name));
            var taken := exists u <- s.users :: s.users[u].username == username;
            && (result == Err(Invalid("username")) <==> !IsUsername(username))
            && (result == Err(Invalid("password")) <==> IsUsername(username) && !policyOk)
            && (IsUsername(username) && policyOk ==>
                  var row := UserRow(username, Viewer, Pending, None, None, Lockout.LockState(0, None));
                  result == Ok(if taken then s else s.(users := s.users[newId := row])))
  {
    hide IsUsername, Lower, Strip;
    var username := Lower(Strip(name));
    if u :| u in s.users && s.users[u].username == username {
      assert u in NamedUsers(s, username);
    }
  }

  // ---- Connections ---------------------------------------------------------------------------

  /** A connection comes and goes; with it go its scope rows, and nothing else changes. */
  lemma ConnectionsTold(s: Store, id: ConnectionId)
    ensures Apply(s, AddConnection(id)) == s.(connections := s.connections + {id})
    ensures var after := Apply(s, RemoveConnection(id));
            && after.users == s.users && after.connections == s.connections - {id}
            && forall p :: p in after.scopes <==> p in s.scopes && p.1 != id
  {
  }

  // ---- Administration ------------------------------------------------------------------------

  ghost predicate OtherActiveAdmin(s: Store, target: UserId) {
    exists a <- s.users :: a != target && s.users[a].role == Admin && s.users[a].status == Active
  }

  predicate IsAdministration(op: Operation) {
    op.Approve? || op.Reject? || op.Disable? || op.Enable? || op.ChangeRole? || op.SetScopes?
  }

  /** Every administrative operation asks first for an administrator, then for the account. */
  lemma FirstRefusals(s: Store, op: Operation)
    requires IsAdministration(op)
    ensures Perform(s, op) == Err(PermissionDenied) <==> op.actor.role != Admin
    ensures Perform(s, op) == Err(NotFound) <==> op.actor.role == Admin && op.target !in s.users
  {
    RightsOfRoles(op.actor);
    if op.actor.role == Admin && op.target in s.users {
      hide ReplaceScopes;
      LaterRefusals(s, op);
    }
  }

  lemma LaterRefusals(s: Store, op: Operation)
    requires IsAdministration(op) && op.actor.role == Admin && op.target in s.users
    ensures Perform(s, op).Err? ==> Perform(s, op).error != PermissionDenied && Perform(s, op).error != NotFound
  {
  }

  lemma LastAdminTold(s: Store, target: UserId)
    ensures IsLastAdmin(s, target) <==> !OtherActiveAdmin(s, target)
  {
    if a :| a in s.users && a != target && s.users[a].role == Admin && s.users[a].status == Active {
      assert a in ActiveAdmins(s);
    }
  }

  /** Approving: a waiting or disabled account, with a scope of known connections, or as administrator without one. */
  lemma ApproveTold(s: Store, actor: AccessScope, target: UserId, role: Role, ids: seq<ConnectionId>)
    requires actor.role == Admin && target in s.users
    ensures var result, row := Perform(s, Approve(actor, target, role, ids)), s.users[target];
            && (result.Ok? <==>
                  row.status in {Pending, Disabled} && (role == Admin || forall c <- ids :: c in s.connections))
            && (result == Err(Invalid("status")) <==> row.status !in {Pending, Disabled})
            && (result.Ok? ==>
                  && result.value.users ==
                       s.users[target := row.(status := Active, approvedBy := Some(actor.username), role := role)]
                  && forall p :: p in result.value.scopes <==>
                       if p.0 == target then role != Admin && p.1 in ids else p in s.scopes)
  {
  }

  /** Rejecting: a waiting account, with the reason given. */
  lemma RejectTold(s: Store, actor: AccessScope, target: UserId, reason: Option<string>)
    requires actor.role == Admin && target in s.users
    ensures Perform(s, Reject(actor, target, reason)) ==
            if s.users[target].status != Pending then Err(Invalid("status"))
            else Ok(s.(users := s.users[target := s.users[target].(status := Rejected, rejectReason := reason)]))
  {
  }

  /** Disabling: an active account of somebody else, unless it is the last active administrator. */
  lemma DisableTold(s: Store, actor: AccessScope, target: UserId)
    requires actor.role == Admin && target in s.users
    ensures var result, row := Perform(s, Disable(actor, target)), s.users[target];
            && (result == Err(Invalid("user_id")) <==> actor.userId == target)
            && (result == Err(Invalid("status")) <==> actor.userId != target && row.status != Active)
            && (result == Err(LastAdmin) <==>
                  actor.userId != target && row.status == Active && row.role == Admin && !OtherActiveAdmin(s, target))
            && (result.Ok? <==>
                  actor.userId != target && row.status == Active && (row.role == Admin ==> OtherActiveAdmin(s, target)))
            && (result.Ok? ==> result.value == s.(users := s.users[target := row.(status := Disabled)]))
  {
    LastAdminTold(s, target);
    hide IsLastAdmin, OtherActiveAdmin;
  }

  /** Changing a role: somebody else's, but not down from the last active administrator; promotion clears the scope. */
  lemma ChangeRoleTold(s: Store, actor: AccessScope, target: UserId, role: Role)
    requires actor.role == Admin && target in s.users
    ensures var result, row := Perform(s, ChangeRole(actor, target, role)), s.users[target];
            && (result == Err(Invalid("user_id")) <==> actor.userId == target)
            && (result == Err(LastAdmin) <==>
                  actor.userId != target && row.role == Admin && role != Admin && !OtherActiveAdmin(s, target))
            && (result.Ok? <==>
                  actor.userId != target && (row.role == Admin && role != Admin ==> OtherActiveAdmin(s, target)))
            && (result.Ok? ==>
                  && result.value.users == s.users[target := row.(role := role)]
                  && forall p :: p in result.value.scopes <==> p in s.scopes && (p.0 == target ==> role != Admin))
  {
    LastAdminTold(s, target);
    hide IsLastAdmin, OtherActiveAdmin;
  }

  /** Setting a scope: of anyone but an administrator, of known connections; it replaces the old one. */
  lemma SetScopesTold(s: Store, actor: AccessScope, target: UserId, ids: seq<ConnectionId>)
    requires actor.role == Admin && target in s.users
    ensures var result := Perform(s, SetScopes(actor, target, ids));
            && (result == Err(Invalid("role")) <==> s.users[target].role == Admin)
            && (result.Ok? <==> s.users[target].role != Admin && forall c <- ids :: c in s.connections)
            && (result.Ok? ==>
                  && result.value.users == s.users
                  && forall p :: p in result.value.scopes <==> if p.0 == target then p.1 in ids else p in s.scopes)
  {
  }
}
