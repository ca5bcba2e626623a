/**
 Accounts, roles and scopes: what each operation of src/application/user_service.py and the login of
 src/application/auth_service.py does to the tables. The imperative services are in module AccountServices.
 */
module Accounts {
  import opened Common
  import Domain
  import Lockout

  type ConnectionId = Domain.ConnectionId
  type UserId = nat

  datatype Role = Viewer | Operator | Admin
  datatype UserStatus = Pending | Active | Disabled | Rejected
  datatype Permission =
    ResourceRead | MetadataWrite | ConnectionManage | CollectionTrigger | UserManage | Export | AuditRead

  function RolePermissions(role: Role): set<Permission> {
    match role
    case Viewer => {ResourceRead, Export}
    case Operator => {ResourceRead, MetadataWrite, Export}
    case Admin => {ResourceRead, MetadataWrite, ConnectionManage, CollectionTrigger, UserManage, Export, AuditRead}
  }

  function AllowedTransitions(status: UserStatus): set<UserStatus> {
    match status
    case Pending => {Active, Rejected}
    case Active => {Disabled}
    case Disabled => {Active}
    case Rejected => {}
  }

  /** Who asks, and which connections they may see: None is all of them. */
  datatype AccessScope = AccessScope(userId: UserId, username: string, role: Role, allowed: Option<set<ConnectionId>>)
  {
    predicate Has(permission: Permission) {
      permission in RolePermissions(role)
    }

    predicate IsEmpty() {
      allowed == Some({})
    }

    predicate CanAccess(id: ConnectionId) {
      allowed.None? || id in allowed.value
    }
  }

  datatype UserRow = UserRow(
    username: string,
    role: Role,
    status: UserStatus,
    approvedBy: Option<string>,
    rejectReason: Option<string>,
    login: Lockout.LockState)

  datatype Store =
    Store(users: map<UserId, UserRow>, scopes: set<(UserId, ConnectionId)>, connections: set<ConnectionId>)

  /** Invalid names the field a ValidationError points at. */
  datatype AccountError =
    PermissionDenied | NotFound | Invalid(field: string) | LastAdmin | IntegrityViolation | LoginRefused

  // ---- Names -----------------------------------------------------------------------------

  function Normalized(name: string): string {
    Lower(Strip(name))
  }

  predicate IsUsernameChar(c: char) {
    'a' <= c <= 'z' || '0' <= c <= '9' || c == '.' || c == '_' || c == '-'
  }

  predicate IsUsername(s: string) {
    3 <= |s| <= 64 && forall c <- s :: IsUsernameChar(c)
  }

  predicate IsLowercase(s: string) {
    forall c <- s :: !('A' <= c <= 'Z')
  }

  // ---- Operations ------------------------------------------------------------------------

  /** LoginCall is the bare service call, whose caller keeps what it wrote; every other operation is a request. */
  datatype Operation =
    | Register(name: string, policyOk: bool, newId: UserId)
    | Approve(actor: AccessScope, target: UserId, role: Role, ids: seq<ConnectionId>)
    | Reject(actor: AccessScope, target: UserId, reason: Option<string>)
    | Disable(actor: AccessScope, target: UserId)
    | Enable(actor: AccessScope, target: UserId)
    | ChangeRole(actor: AccessScope, target: UserId, role: Role)
    | SetScopes(actor: AccessScope, target: UserId, ids: seq<ConnectionId>)
    | Login(name: string, attempt: Lockout.Attempt, policy: Lockout.Policy)
    | LoginCall(name: string, attempt: Lockout.Attempt, policy: Lockout.Policy)
    | AddConnection(id: ConnectionId)
    | RemoveConnection(id: ConnectionId)

  function ScopeOf(s: Store, u: UserId): set<ConnectionId> {
    set p | p in s.scopes && p.0 == u :: p.1
  }

  /** build_scope: administrators see everything, the others what they were granted. */
  function VisibleTo(s: Store, u: UserId): Option<set<ConnectionId>>
    requires u in s.users
  {
    if s.users[u].role == Admin then None else Some(ScopeOf(s, u))
  }

  function NamedUsers(s: Store, name: string): set<UserId> {
    set u | u in s.users && s.users[u].username == name
  }

  function ActiveAdmins(s: Store): set<UserId> {
    set u | u in s.users && s.users[u].role == Admin && s.users[u].status == Active
  }

  function WithScopes(s: Store, u: UserId, ids: set<ConnectionId>): Store {
    s.(scopes := (set p | p in s.scopes && p.0 != u) + (set c | c in ids :: (u, c)))
  }

  function WithUser(s: Store, u: UserId, row: UserRow): Store {
    s.(users := s.users[u := row])
  }

  /** Replacing a user's scope fails when an id names no connection. */
  function ReplaceScopes(s: Store, u: UserId, ids: seq<ConnectionId>): Result<Store, AccountError> {
    if forall c <- ids :: c in s.connections then Ok(WithScopes(s, u, set c | c in ids)) else Err(IntegrityViolation)
  }

  function PerformRegister(s: Store, name: string, policyOk: bool, newId: UserId): Result<Store, AccountError> {
    if !IsUsername(Normalized(name)) then Err(Invalid("username"))
    else if !policyOk then Err(Invalid("password"))
    else if NamedUsers(s, Normalized(name)) != {} then Ok(s)
    else if newId in s.users then Err(IntegrityViolation)
    else Ok(WithUser(s, newId, UserRow(Normalized(name), Viewer, Pending, None, None, Lockout.LockState(0, None))))
  }

  /** The guards that every administrative operation starts with. */
  function Guards(s: Store, actor: AccessScope, target: UserId, notSelf: bool, next: Option<UserStatus>)
    : Option<AccountError>
  {
    if !actor.Has(UserManage) then Some(PermissionDenied)
    else if target !in s.users then Some(NotFound)
    else if notSelf && actor.userId == target then Some(Invalid("user_id"))
    else if next.Some? && next.value !in AllowedTransitions(s.users[target].status) then Some(Invalid("status"))
    else None
  }

  predicate IsLastAdmin(s: Store, target: UserId) {
    ActiveAdmins(s) <= {target}
  }

  /** The account of that name; names are unique. */
  ghost function Named(s: Store, name: string): (u: UserId)
    requires NamedUsers(s, name) != {}
    ensures u in s.users && s.users[u].username == name
  {
    var u :| u in NamedUsers(s, name);
    u
  }

  function LoginVerdict(s: Store, u: UserId, attempt: Lockout.Attempt): Lockout.Verdict
    requires u in s.users
  {
    Lockout.VerdictOn(s.users[u].login, attempt.(statusOk := s.users[u].status == Active))
  }

  function PerformLogin(s: Store, u: UserId, attempt: Lockout.Attempt, policy: Lockout.Policy): Store
    requires u in s.users
  {
    var row := s.users[u];
    WithUser(s, u, row.(login := Lockout.After(row.login, attempt.(statusOk := row.status == Active), policy)))
  }

  /** What an operation does: the new tables, or the exception it raises. Any verdict but Admitted is an exception. */
  ghost function Perform(s: Store, op: Operation): Result<Store, AccountError> {
    match op
    case Register(name, policyOk, newId) => PerformRegister(s, name, policyOk, newId)
    case Approve(actor, target, role, ids) =>
      (match Guards(s, actor, target, false, Some(Active))
       case Some(e) => Err(e)
       case None =>
         var row := s.users[target].(status := Active, approvedBy := Some(actor.username), role := role);
         ReplaceScopes(WithUser(s, target, row), target, if role == Admin then [] else ids))
    case Reject(actor, target, reason) =>
      (match Guards(s, actor, target, false, Some(Rejected))
       case Some(e) => Err(e)
       case None => Ok(WithUser(s, target, s.users[target].(status := Rejected, rejectReason := reason))))
    case Disable(actor, target) =>
      (match Guards(s, actor, target, true, Some(Disabled))
       case Some(e) => Err(e)
       case None =>
         if s.users[target].role == Admin && IsLastAdmin(s, target) then Err(LastAdmin)
         else Ok(WithUser(s, target, s.users[target].(status := Disabled))))
    case Enable(actor, target) =>
      (match Guards(s, actor, target, false, Some(Active))
       case Some(e) => Err(e)
       case None => Ok(WithUser(s, target, s.users[target].(status := Active, approvedBy := Some(actor.username)))))
    case ChangeRole(actor, target, role) =>
      (match Guards(s, actor, target, true, None)
       case Some(e) => Err(e)
       case None =>
         if s.users[target].role == Admin && role != Admin && IsLastAdmin(s, target) then Err(LastAdmin)
         else
           var changed := WithUser(s, target, s.users[target].(role := role));
           if role == Admin then ReplaceScopes(changed, target, []) else Ok(changed))
    case SetScopes(actor, target, ids) =>
      (match Guards(s, actor, target, false, None)
       case Some(e) => Err(e)
       case None => if s.users[target].role == Admin then Err(Invalid("role")) else ReplaceScopes(s, target, ids))
    case Login(name, attempt, policy) =>
      if NamedUsers(s, Normalized(name)) == {} then Err(LoginRefused)
      else
        var u := Named(s, Normalized(name));
        if LoginVerdict(s, u, attempt).Admitted? then Ok(PerformLogin(s, u, attempt, policy)) else Err(LoginRefused)
    case LoginCall(name, attempt, policy) =>
      if NamedUsers(s, Normalized(name)) == {} then Err(LoginRefused)
      else Ok(PerformLogin(s, Named(s, Normalized(name)), attempt, policy))
    case AddConnection(id) => Ok(s.(connections := s.connections + {id}))
    case RemoveConnection(id) =>
      Ok(Store(s.users, (set p | p in s.scopes && p.1 != id), s.connections - {id}))
  }

  /** One request: an exception rolls the whole of it back, the counter of a refused login included. */
  ghost function Apply(s: Store, op: Operation): Store {
    match Perform(s, op) case Ok(after) => after case Err(_) => s
  }

  ghost function ApplyAll(s: Store, ops: seq<Operation>): Store {
    if ops == [] then s else Apply(ApplyAll(s, ops[..|ops| - 1]), ops[|ops| - 1])
  }

  // ---- Administrators never run out ------------------------------------------------------

  lemma ApplyKeepsAnAdmin(s: Store, op: Operation)
    requires ActiveAdmins(s) != {}
    ensures ActiveAdmins(Apply(s, op)) != {}
  {
    hide Lockout.After, Lockout.VerdictOn, Normalized, IsUsername;
    var after := Apply(s, op);
    var a :| a in ActiveAdmins(s);
    if a !in ActiveAdmins(after) {
      var b :| b in ActiveAdmins(s) && b != a;
      assert b in ActiveAdmins(after);
    }
  }

  /** Whoever asks for whatever, some active administrator is left. */
  lemma {:induction false} AdministratorsNeverRunOut(s: Store, ops: seq<Operation>)
    requires ActiveAdmins(s) != {}
    ensures ActiveAdmins(ApplyAll(s, ops)) != {}
    decreases |ops|
  {
    if ops != [] {
      AdministratorsNeverRunOut(s, ops[..|ops| - 1]);
      ApplyKeepsAnAdmin(ApplyAll(s, ops[..|ops| - 1]), ops[|ops| - 1]);
    }
  }

  // ---- What every history keeps ----------------------------------------------------------

  /** How one operation may change an account that was there. */
  ghost predicate Evolves(before: UserRow, after: UserRow) {
    && after.username == before.username
    && (after.status == before.status || after.status in AllowedTransitions(before.status))
    && (before.approvedBy.Some? ==> after.approvedBy.Some?)
    && (after.status != before.status && after.status == Active ==> after.approvedBy.Some?)
  }

  ghost predicate UsersEvolve(s: Store, after: Store, op: Operation) {
    && (forall u <- s.users :: u in after.users && Evolves(s.users[u], after.users[u]))
    && (forall u <- after.users :: u !in s.users ==>
          op.Register? && u == op.newId && NamedUsers(s, Normalized(op.name)) == {}
          && after.users[u].username == Normalized(op.name) && after.users[u].status == Pending)
  }

  lemma ApplyEvolves(s: Store, op: Operation)
    ensures UsersEvolve(s, Apply(s, op), op)
  {
    hide Lockout.After, Lockout.VerdictOn, Normalized, IsUsername;
  }

  /** Accounts are never deleted or renamed, and a rejection is final. */
  lemma {:induction false} AccountsStay(s: Store, ops: seq<Operation>)
    ensures s.users.Keys <= ApplyAll(s, ops).users.Keys
    ensures forall u <- s.users :: ApplyAll(s, ops).users[u].username == s.users[u].username
    ensures forall u <- s.users :: s.users[u].status == Rejected ==> ApplyAll(s, ops).users[u].status == Rejected
    decreases |ops|
  {
    hide Apply;
    if ops != [] {
      AccountsStay(s, ops[..|ops| - 1]);
      ApplyEvolves(ApplyAll(s, ops[..|ops| - 1]), ops[|ops| - 1]);
    }
  }

  ghost predicate UsernamesUnique(s: Store) {
    forall u <- s.users, v <- s.users :: s.users[u].username == s.users[v].username ==> u == v
  }

  /** Names are lowercase, and everyone let in was approved by somebody, but for the account created at start-up. */
  ghost predicate UsersSound(s: Store, root: UserId) {
    forall u <- s.users ::
      && IsLowercase(s.users[u].username)
      && (u != root && (s.users[u].status == Active || s.users[u].status == Disabled) ==> s.users[u].approvedBy.Some?)
  }

  /** Scopes belong to accounts that are not administrators and name connections that exist. */
  ghost predicate ScopesSound(s: Store) {
    forall p <- s.scopes :: p.0 in s.users && s.users[p.0].role != Admin && p.1 in s.connections
  }

  ghost predicate Consistent(s: Store, root: UserId) {
    UsernamesUnique(s) && UsersSound(s, root) && ScopesSound(s)
  }

  lemma LowerIsLowercase(s: string)
    ensures IsLowercase(Lower(s))
  {
  }

  lemma ApplyKeepsNames(s: Store, op: Operation, root: UserId)
    requires UsernamesUnique(s) && UsersSound(s, root)
    ensures UsernamesUnique(Apply(s, op)) && UsersSound(Apply(s, op), root)
  {
    hide Apply, Normalized, IsLowercase;
    ApplyEvolves(s, op);
    if op.Register? {
      NormalizedIsLowercase(op.name);
      assert forall u <- s.users :: s.users[u].username == Normalized(op.name) ==>
        u in NamedUsers(s, Normalized(op.name));
    }
  }

  lemma NormalizedIsLowercase(name: string)
    ensures IsLowercase(Normalized(name))
  {
    LowerIsLowercase(Strip(name));
  }

  lemma ApplyKeepsScopes(s: Store, op: Operation)
    requires ScopesSound(s)
    ensures ScopesSound(Apply(s, op))
  {
  }

  /** Usernames stay unique and lowercase, approvals and scopes sound, through every history. */
  lemma {:induction false} AlwaysConsistent(s: Store, ops: seq<Operation>, root: UserId)
    requires Consistent(s, root)
    ensures Consistent(ApplyAll(s, ops), root)
    decreases |ops|
  {
    hide Apply;
    if ops != [] {
      AlwaysConsistent(s, ops[..|ops| - 1], root);
      ApplyKeepsNames(ApplyAll(s, ops[..|ops| - 1]), ops[|ops| - 1], root);
      ApplyKeepsScopes(ApplyAll(s, ops[..|ops| - 1]), ops[|ops| - 1]);
    }
  }

  // ---- What a user may see ---------------------------------------------------------------

  /** The operation that, if it succeeds, sets a user's scope, and to what. */
  function Grant(op: Operation, u: UserId): Option<set<ConnectionId>> {
    match op
    case Approve(_, target, role, ids) =>
      if target == u then Some(if role == Admin then {} else set c | c in ids) else None
    case ChangeRole(_, target, role) => if target == u && role == Admin then Some({}) else None
    case SetScopes(_, target, ids) => if target == u then Some(set c | c in ids) else None
    case _ => None
  }

  ghost predicate Grants(s: Store, op: Operation, u: UserId) {
    Grant(op, u).Some? && Perform(s, op).Ok?
  }

  /** None of the operations sets the user's scope. */
  ghost predicate Ungranted(s: Store, ops: seq<Operation>, u: UserId) {
    forall i | 0 <= i < |ops| :: !Grants(ApplyAll(s, ops[..i]), ops[i], u)
  }

  lemma UngrantedInit(s: Store, ops: seq<Operation>, u: UserId)
    requires ops != [] && Ungranted(s, ops, u)
    ensures Ungranted(s, ops[..|ops| - 1], u) && !Grants(ApplyAll(s, ops[..|ops| - 1]), ops[|ops| - 1], u)
  {
    hide Grants, ApplyAll;
    var init := ops[..|ops| - 1];
    assert forall i | 0 <= i < |init| :: init[..i] == ops[..i];
  }

  function RemovedBy(ops: seq<Operation>): set<ConnectionId> {
    set op | op in ops && op.RemoveConnection? :: op.id
  }

  lemma GrantSetsScope(s: Store, op: Operation, u: UserId)
    requires Grants(s, op, u)
    ensures ScopeOf(Apply(s, op), u) == Grant(op, u).value
  {
    var ids := Grant(op, u).value;
    ScopeAfterGrant(s, u, ids);
    var after := Apply(s, op);
    assert after.scopes == WithScopes(s, u, ids).scopes;
  }

  lemma ScopeAfterGrant(s: Store, u: UserId, ids: set<ConnectionId>)
    ensures ScopeOf(WithScopes(s, u, ids), u) == ids
  {
    var after := WithScopes(s, u, ids);
    forall c <- ids ensures c in ScopeOf(after, u) {
      assert (u, c) in after.scopes;
    }
  }

  lemma ScopeKeptOtherwise(s: Store, op: Operation, u: UserId)
    requires !Grants(s, op, u)
    ensures ScopeOf(Apply(s, op), u) == if op.RemoveConnection? then ScopeOf(s, u) - {op.id} else ScopeOf(s, u)
  {
    var after := Apply(s, op);
    forall c <- ScopeOf(s, u) ensures (op.RemoveConnection? && c == op.id) || c in ScopeOf(after, u) {
      if !(op.RemoveConnection? && c == op.id) {
        assert (u, c) in after.scopes;
      }
    }
    assert forall p <- after.scopes :: p.0 == u ==> p in s.scopes;
  }

  /**
   A user's scope is the one set by the last successful grant, less the connections removed since:
   nothing else ever widens or narrows it.
   */
  lemma {:induction false} ScopeIsLastGrant(s: Store, grant: Operation, since: seq<Operation>, u: UserId)
    requires Grants(s, grant, u)
    requires Ungranted(Apply(s, grant), since, u)
    ensures ScopeOf(ApplyAll(Apply(s, grant), since), u) == Grant(grant, u).value - RemovedBy(since)
    decreases |since|
  {
    hide Apply, Grants, Grant, ScopeOf, Ungranted;
    if since == [] {
      GrantSetsScope(s, grant, u);
    } else {
      var init, last := since[..|since| - 1], since[|since| - 1];
      UngrantedInit(Apply(s, grant), since, u);
      ScopeIsLastGrant(s, grant, init, u);
      ScopeKeptOtherwise(ApplyAll(Apply(s, grant), init), last, u);
      RemovedByOneMore(init, last);
      assert since == init + [last];
    }
  }

  lemma RemovedByOneMore(ops: seq<Operation>, op: Operation)
    ensures RemovedBy(ops + [op]) == RemovedBy(ops) + if op.RemoveConnection? then {op.id} else {}
  {
    forall c | c in RemovedBy(ops) || (op.RemoveConnection? && c == op.id) ensures c in RemovedBy(ops + [op]) {
      if c in RemovedBy(ops) {
        var o :| o in ops && o.RemoveConnection? && o.id == c;
        assert o in ops + [op];
      } else {
        assert op in ops + [op];
      }
    }
  }

  /** A demoted administrator sees nothing until somebody grants something. */
  lemma {:induction false} DemotedSeesNothing(s: Store, u: UserId, ops: seq<Operation>)
    requires ScopesSound(s) && u in s.users && s.users[u].role == Admin
    requires Ungranted(s, ops, u)
    ensures u in ApplyAll(s, ops).users && ScopeOf(ApplyAll(s, ops), u) == {}
    ensures ApplyAll(s, ops).users[u].role != Admin ==> VisibleTo(ApplyAll(s, ops), u) == Some({})
    decreases |ops|
  {
    hide Apply, Grants, Ungranted;
    if ops != [] {
      var init := ops[..|ops| - 1];
      UngrantedInit(s, ops, u);
      DemotedSeesNothing(s, u, init);
      ApplyEvolves(ApplyAll(s, init), ops[|init|]);
      ScopeKeptOtherwise(ApplyAll(s, init), ops[|init|], u);
    }
  }

  // ---- Newcomers and enabling --------------------------------------------------------------

  ghost predicate SetsRole(s: Store, op: Operation, u: UserId) {
    (op.Approve? || op.ChangeRole?) && op.target == u && Perform(s, op).Ok?
  }

  ghost predicate RoleUnset(s: Store, ops: seq<Operation>, u: UserId) {
    forall i | 0 <= i < |ops| :: !SetsRole(ApplyAll(s, ops[..i]), ops[i], u)
  }

  lemma RoleUnsetInit(s: Store, ops: seq<Operation>, u: UserId)
    requires ops != [] && RoleUnset(s, ops, u)
    ensures RoleUnset(s, ops[..|ops| - 1], u) && !SetsRole(ApplyAll(s, ops[..|ops| - 1]), ops[|ops| - 1], u)
  {
    hide SetsRole, ApplyAll;
    var init := ops[..|ops| - 1];
    assert forall i | 0 <= i < |init| :: init[..i] == ops[..i];
  }

  lemma RoleKeptOtherwise(s: Store, op: Operation, u: UserId)
    requires u in s.users && !SetsRole(s, op, u)
    ensures Apply(s, op).users[u].role == s.users[u].role
  {
  }

  lemma AdministratorsAreGranted(s: Store, op: Operation, u: UserId)
    requires u in s.users && s.users[u].role != Admin && !Grants(s, op, u)
    ensures Apply(s, op).users[u].role != Admin
  {
  }

  /** The store right after somebody has registered as account u. */
  ghost predicate JustRegistered(s: Store, u: UserId) {
    && u in s.users && s.users[u].role == Viewer && s.users[u].status == Pending && ScopeOf(s, u) == {}
  }

  lemma {:induction false} NothingUntilGranted(s: Store, since: seq<Operation>, u: UserId)
    requires JustRegistered(s, u) && Ungranted(s, since, u)
    ensures var end := ApplyAll(s, since);
            u in end.users && end.users[u].role != Admin && VisibleTo(end, u) == Some({})
    decreases |since|
  {
    hide Apply, Grants, Ungranted, ScopeOf;
    if since != [] {
      var init, last := since[..|since| - 1], since[|since| - 1];
      UngrantedInit(s, since, u);
      NothingUntilGranted(s, init, u);
      ApplyEvolves(ApplyAll(s, init), last);
      AdministratorsAreGranted(ApplyAll(s, init), last, u);
      ScopeKeptOtherwise(ApplyAll(s, init), last, u);
      assert last.RemoveConnection? ==> ScopeOf(ApplyAll(s, init), u) - {last.id} == {};
    }
  }

  /** And stays what he was until somebody sets the role. */
  lemma {:induction false} RoleStays(s: Store, since: seq<Operation>, u: UserId)
    requires u in s.users && RoleUnset(s, since, u)
    ensures u in ApplyAll(s, since).users && ApplyAll(s, since).users[u].role == s.users[u].role
    decreases |since|
  {
    hide Apply, SetsRole, RoleUnset;
    if since != [] {
      RoleUnsetInit(s, since, u);
      RoleStays(s, since[..|since| - 1], u);
      ApplyEvolves(ApplyAll(s, since[..|since| - 1]), since[|since| - 1]);
      RoleKeptOtherwise(ApplyAll(s, since[..|since| - 1]), since[|since| - 1], u);
    }
  }

  lemma NewcomerHasNothing(s: Store, name: string, policyOk: bool, u: UserId)
    requires ScopesSound(s) && u !in s.users && u in Apply(s, Register(name, policyOk, u)).users
    ensures JustRegistered(Apply(s, Register(name, policyOk, u)), u)
  {
  }

  /**
   Denied by default: whoever has registered sees nothing until somebody grants something, whatever else happens,
   and is a viewer until somebody sets the role.
   */
  lemma DefaultDeny(s: Store, name: string, policyOk: bool, u: UserId, since: seq<Operation>)
    requires ScopesSound(s) && u !in s.users && u in Apply(s, Register(name, policyOk, u)).users
    requires Ungranted(Apply(s, Register(name, policyOk, u)), since, u)
    ensures var start := Apply(s, Register(name, policyOk, u));
            var end := ApplyAll(start, since);
            && u in end.users && end.users[u].role != Admin && VisibleTo(end, u) == Some({})
            && (RoleUnset(start, since, u) ==> end.users[u].role == Viewer)
  {
    hide Ungranted, RoleUnset;
    NewcomerHasNothing(s, name, policyOk, u);
    hide Apply;
    var start := Apply(s, Register(name, policyOk, u));
    NothingUntilGranted(start, since, u);
    if RoleUnset(start, since, u) {
      RoleStays(start, since, u);
    }
  }

  /** Enabling works on a disabled account, and on one that nobody has approved yet. */
  lemma EnableIff(s: Store, actor: AccessScope, target: UserId)
    ensures Perform(s, Enable(actor, target)).Ok? <==>
            actor.Has(UserManage) && target in s.users && s.users[target].status in {Pending, Disabled}
  {
  }

  /** It sets status and approver and nothing else: role and scope are those the account had. */
  lemma EnabledAsItWas(s: Store, actor: AccessScope, target: UserId)
    requires Perform(s, Enable(actor, target)).Ok?
    ensures var after := Apply(s, Enable(actor, target));
            && after.users == s.users[target := s.users[target].(status := Active, approvedBy := Some(actor.username))]
            && after.scopes == s.scopes
            && VisibleTo(after, target) == VisibleTo(s, target)
  {
  }

  /** So a newcomer enabled without an approval becomes an active viewer who sees nothing. */
  lemma EnabledNewcomer(s: Store, name: string, policyOk: bool, u: UserId, since: seq<Operation>, actor: AccessScope)
    requires ScopesSound(s) && u !in s.users && u in Apply(s, Register(name, policyOk, u)).users
    requires var start := Apply(s, Register(name, policyOk, u));
             Ungranted(start, since, u) && RoleUnset(start, since, u)
    requires Perform(ApplyAll(Apply(s, Register(name, policyOk, u)), since), Enable(actor, u)).Ok?
    ensures var after := Apply(ApplyAll(Apply(s, Register(name, policyOk, u)), since), Enable(actor, u));
            && u in after.users && after.users[u].status == Active && after.users[u].role == Viewer
            && VisibleTo(after, u) == Some({})
  {
    DefaultDeny(s, name, policyOk, u, since);
    hide Apply, Perform, Ungranted, RoleUnset;
    EnabledAsItWas(ApplyAll(Apply(s, Register(name, policyOk, u)), since), actor, u);
  }

  // ---- Locks -----------------------------------------------------------------------------

  /** Only a login moves an account's failure counter and lock, it moves one account's, and a request only clears it. */
  lemma OnlyLoginTouchesLocks(s: Store, op: Operation, u: UserId)
    requires u in s.users && Apply(s, op).users[u].login != s.users[u].login
    ensures (op.Login? || op.LoginCall?) && s.users[u].username == Normalized(op.name)
    ensures op.Login? ==> Apply(s, op).users[u].login == Lockout.LockState(0, None)
  {
  }

  lemma {:induction false} CountersBelowLimit(s: Store, ops: seq<Operation>, limit: int)
    requires limit >= 1 && forall u <- s.users :: s.users[u].login.failed < limit
    requires forall op <- ops :: op.LoginCall? ==> op.policy.maxAttempts == limit
    ensures forall u <- ApplyAll(s, ops).users :: ApplyAll(s, ops).users[u].login.failed < limit
    decreases |ops|
  {
    hide Apply;
    if ops != [] {
      CountersBelowLimit(s, ops[..|ops| - 1], limit);
      assert ops[|ops| - 1] in ops;
      CounterStep(ApplyAll(s, ops[..|ops| - 1]), ops[|ops| - 1], limit);
    }
  }

  lemma CounterStep(s: Store, op: Operation, limit: int)
    requires limit >= 1 && forall u <- s.users :: s.users[u].login.failed < limit
    requires op.LoginCall? ==> op.policy.maxAttempts == limit
    ensures forall u <- Apply(s, op).users :: Apply(s, op).users[u].login.failed < limit
  {
  }

  /** An account's counter and lock are as they were, or clear. */
  ghost predicate NoNewLock(s: Store, after: Store) {
    forall u <- after.users ::
      after.users[u].login == Lockout.LockState(0, None) || (u in s.users && after.users[u].login == s.users[u].login)
  }

  /** Because a refused login is rolled back with its request,
      no history of requests ever counts a failure or sets a lock. */
  lemma {:induction false} RequestsNeverLock(s: Store, ops: seq<Operation>)
    requires forall op <- ops :: !op.LoginCall?
    ensures NoNewLock(s, ApplyAll(s, ops))
    decreases |ops|
  {
    hide Apply;
    if ops != [] {
      RequestsNeverLock(s, ops[..|ops| - 1]);
      assert ops[|ops| - 1] in ops;
      RequestSetsNoLock(ApplyAll(s, ops[..|ops| - 1]), ops[|ops| - 1]);
    }
  }

  lemma RequestSetsNoLock(s: Store, op: Operation)
    requires !op.LoginCall?
    ensures NoNewLock(s, Apply(s, op))
  {
  }

  /** So, starting from open locks, a wrong password is tried on every request, however many there were before. */
  lemma WrongPasswordsStayUnlimited(s: Store, ops: seq<Operation>, u: UserId, attempt: Lockout.Attempt)
    requires forall op <- ops :: !op.LoginCall?
    requires forall v <- s.users :: s.users[v].login.lockedUntil == None
    requires u in ApplyAll(s, ops).users && !attempt.passwordOk
    ensures LoginVerdict(ApplyAll(s, ops), u, attempt) == Lockout.WrongPassword
  {
    RequestsNeverLock(s, ops);
  }

  /** The same wrong password n times, through requests or by calls whose writes are kept. */
  function Tries(name: string, attempt: Lockout.Attempt, policy: Lockout.Policy, kept: bool, n: nat)
    : (ops: seq<Operation>)
    ensures |ops| == n
  {
    seq(n, _ => if kept then LoginCall(name, attempt, policy) else Login(name, attempt, policy))
  }

  /** An open lock after n more wrong passwords at one instant, at most up to the limit. */
  function Counted(login: Lockout.LockState, at: Instant, policy: Lockout.Policy, n: nat): Lockout.LockState {
    if n == 0 then login
    else if login.failed + n == policy.maxAttempts then Lockout.LockState(0, Some(at + policy.lockout))
    else login.(failed := login.failed + n)
  }

  lemma {:induction false} AfterTries(s: Store, u: UserId, name: string, attempt: Lockout.Attempt,
                                      policy: Lockout.Policy, kept: bool, n: nat)
    requires NamedUsers(s, Normalized(name)) == {u} && u in s.users && !attempt.passwordOk
    requires s.users[u].login.lockedUntil == None && s.users[u].login.failed + n <= policy.maxAttempts
    ensures var login, end := s.users[u].login, ApplyAll(s, Tries(name, attempt, policy, kept, n));
            && NamedUsers(end, Normalized(name)) == {u} && u in end.users
            && end.users[u].login == if kept then Counted(login, attempt.countAt, policy, n) else login
  {
    var ops := Tries(name, attempt, policy, kept, n);
    if n > 0 {
      hide Apply, NamedUsers, Tries;
      TriesInit(name, attempt, policy, kept, n);
      AfterTries(s, u, name, attempt, policy, kept, n - 1);
      OneTry(ApplyAll(s, ops[..n - 1]), u, ops[n - 1]);
    }
  }

  lemma TriesInit(name: string, attempt: Lockout.Attempt, policy: Lockout.Policy, kept: bool, n: nat)
    requires n > 0
    ensures var ops := Tries(name, attempt, policy, kept, n);
            && ops[..n - 1] == Tries(name, attempt, policy, kept, n - 1)
            && ops[n - 1] == if kept then LoginCall(name, attempt, policy) else Login(name, attempt, policy)
  {
  }

  lemma OneTry(s: Store, u: UserId, op: Operation)
    requires (op.Login? || op.LoginCall?) && !op.attempt.passwordOk
    requires NamedUsers(s, Normalized(op.name)) == {u} && u in s.users && s.users[u].login.lockedUntil == None
    ensures NamedUsers(Apply(s, op), Normalized(op.name)) == {u} && u in Apply(s, op).users
    ensures Apply(s, op).users[u].login ==
              if op.Login? then s.users[u].login
              else Lockout.AfterFailure(s.users[u].login, op.attempt.countAt, op.policy)
  {
  }

  /** As many wrong passwords as the limit allows lock the account
      if and only if what the refused logins wrote is kept. */
  lemma LocksIffKept(s: Store, u: UserId, name: string, attempt: Lockout.Attempt, policy: Lockout.Policy, kept: bool)
    requires NamedUsers(s, Normalized(name)) == {u} && u in s.users && !attempt.passwordOk
    requires s.users[u].login.lockedUntil == None && s.users[u].login.failed < policy.maxAttempts && policy.lockout > 0
    ensures var end := ApplyAll(s, Tries(name, attempt, policy, kept, policy.maxAttempts - s.users[u].login.failed));
            u in end.users && (Lockout.IsLocked(end.users[u].login, attempt.countAt) <==> kept)
  {
    var n := policy.maxAttempts - s.users[u].login.failed;
    AfterTries(s, u, name, attempt, policy, kept, n);
  }
}
