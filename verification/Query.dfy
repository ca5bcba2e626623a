/**
 The scoped, sorted, paged list of machines: src/application/inventory_query.py,
 src/domain/query.py and `search_vms` of src/infrastructure/repository/vm_repo.py:190-263.
 */
module Query {
  import opened Common
  import opened Domain
  import opened Inventory
  import Connections
  import Accounts

  type AccessScope = Accounts.AccessScope

  /** The tables, and the database's collation as the rank it gives each text. */
  datatype Db = Db(vms: map<ResourceId, VmRow>, connections: Connections.ConnectionTable, collation: string -> real)

  datatype Page = Page(offset: int, limit: int, sortBy: string, sortDesc: bool)

  datatype Hypervisor = VCenter | HyperV

  datatype VmSummary = VmSummary(resourceId: ResourceId, columns: Columns, lifecycle: Lifecycle, lastSeenAt: Instant,
                                 connectionName: string, hypervisor: Hypervisor)

  datatype PagedResult = PagedResult(items: seq<VmSummary>, total: nat)

  datatype QueryError = PermissionDenied | Invalid(field: string)

  const MAX_LIMIT := 500

  const ALLOWED_SORT := {"name", "power_state", "guest_os_name", "vcpu_count", "memory_mb", "last_seen_at"}

  function Validate(page: Page): Option<QueryError> {
    if page.offset < 0 then Some(Invalid("offset"))
    else if !(1 <= page.limit <= MAX_LIMIT) then Some(Invalid("limit"))
    else if page.sortBy !in ALLOWED_SORT then Some(Invalid("sort_by"))
    else None
  }

  // ---- Which rows, in which order --------------------------------------------------------

  function Matching(db: Db, scope: AccessScope, connectionId: Option<ConnectionId>): set<ResourceId> {
    set id | id in db.vms
             && db.vms[id].columns.connectionId in db.connections
             && db.vms[id].lifecycle == Active
             && scope.CanAccess(db.vms[id].columns.connectionId)
             && (connectionId == None || db.vms[id].columns.connectionId == connectionId.value)
  }

  function PowerText(p: PowerState): string {
    match p case PoweredOn => "on" case PoweredOff => "off" case Suspended => "suspended" case PowerUnknown => "unknown"
  }

  function NumberRank(n: Option<int>): Option<real> {
    match n case None => None case Some(v) => Some(v as real)
  }

  /** Where a row stands in the sort column; None is SQL's NULL. */
  function SortRank(db: Db, row: VmRow, sortBy: string): Option<real> {
    if sortBy == "name" then Some(db.collation(row.columns.name))
    else if sortBy == "power_state" then Some(db.collation(PowerText(row.columns.powerState)))
    else if sortBy == "guest_os_name" then
      (match row.columns.guestOsName case None => None case Some(text) => Some(db.collation(text)))
    else if sortBy == "vcpu_count" then NumberRank(row.columns.vcpuCount)
    else if sortBy == "memory_mb" then NumberRank(row.columns.memoryMb)
    else Some(row.lastSeenAt as real)
  }

  /** PostgreSQL puts NULL after every value, and so before every value when the order is descending. */
  predicate RankLess(x: Option<real>, y: Option<real>) {
    x.Some? && (y.None? || x.value < y.value)
  }

  /** ORDER BY column, resource_id. */
  predicate RowLess(db: Db, sortBy: string, sortDesc: bool, a: ResourceId, b: ResourceId)
    requires a in db.vms && b in db.vms
  {
    var x, y := SortRank(db, db.vms[a], sortBy), SortRank(db, db.vms[b], sortBy);
    if x == y then a < b else if sortDesc then RankLess(y, x) else RankLess(x, y)
  }

  /** One of the sequences the database may return for the ORDER BY. */
  ghost predicate IsOrdering(db: Db, sortBy: string, sortDesc: bool, ids: set<ResourceId>, o: seq<ResourceId>) {
    && (forall id :: id in o <==> id in ids)
    && (forall id <- o :: id in db.vms)
    && (forall i, j | 0 <= i < j < |o| :: RowLess(db, sortBy, sortDesc, o[i], o[j]))
  }

  /** Because the row id breaks every tie, the ORDER BY leaves the database no choice. */
  lemma {:induction false} OrderingUnique(db: Db, sortBy: string, sortDesc: bool, ids: set<ResourceId>,
                                          o: seq<ResourceId>, p: seq<ResourceId>)
    requires IsOrdering(db, sortBy, sortDesc, ids, o) && IsOrdering(db, sortBy, sortDesc, ids, p)
    ensures o == p
    decreases |o|
  {
    hide SortRank;
    OrderingLength(db, sortBy, sortDesc, ids, o);
    OrderingLength(db, sortBy, sortDesc, ids, p);
    if o != [] {
      FirstIsLeast(db, sortBy, sortDesc, ids, o, p[0]);
      FirstIsLeast(db, sortBy, sortDesc, ids, p, o[0]);
      NotBothLess(db, sortBy, sortDesc, o[0], p[0]);
      hide RowLess;
      TailOrdering(db, sortBy, sortDesc, ids, o);
      TailOrdering(db, sortBy, sortDesc, ids, p);
      OrderingUnique(db, sortBy, sortDesc, ids - {o[0]}, o[1..], p[1..]);
      assert o == [o[0]] + o[1..] && p == [p[0]] + p[1..];
    }
  }

  lemma FirstIsLeast(db: Db, sortBy: string, sortDesc: bool, ids: set<ResourceId>, o: seq<ResourceId>, id: ResourceId)
    requires IsOrdering(db, sortBy, sortDesc, ids, o) && id in ids
    ensures o != [] && o[0] in db.vms && id in db.vms
    ensures id == o[0] || RowLess(db, sortBy, sortDesc, o[0], id)
  {
    hide RowLess;
    assert id in o;
    var k :| 0 <= k < |o| && o[k] == id;
  }

  lemma NotBothLess(db: Db, sortBy: string, sortDesc: bool, a: ResourceId, b: ResourceId)
    requires a in db.vms && b in db.vms
    ensures !(RowLess(db, sortBy, sortDesc, a, b) && RowLess(db, sortBy, sortDesc, b, a))
  {
    hide SortRank;
  }

  lemma TailOrdering(db: Db, sortBy: string, sortDesc: bool, ids: set<ResourceId>, o: seq<ResourceId>)
    requires IsOrdering(db, sortBy, sortDesc, ids, o) && o != []
    ensures IsOrdering(db, sortBy, sortDesc, ids - {o[0]}, o[1..])
  {
    hide SortRank;
    assert forall i | 1 <= i < |o| :: RowLess(db, sortBy, sortDesc, o[0], o[i]);
    assert forall id :: id in o <==> id == o[0] || id in o[1..];
    assert o[0] !in o[1..];
  }

  /** There is such a sequence for every set of rows. */
  lemma {:induction false} OrderingExists(db: Db, sortBy: string, sortDesc: bool, ids: set<ResourceId>)
    requires ids <= db.vms.Keys
    ensures exists o :: IsOrdering(db, sortBy, sortDesc, ids, o)
    decreases |ids|
  {
    hide SortRank;
    if ids == {} {
      assert IsOrdering(db, sortBy, sortDesc, ids, []);
    } else {
      var least := Least(db, sortBy, sortDesc, ids);
      OrderingExists(db, sortBy, sortDesc, ids - {least});
      var o :| IsOrdering(db, sortBy, sortDesc, ids - {least}, o);
      PrependLeast(db, sortBy, sortDesc, ids, least, o);
    }
  }

  lemma PrependLeast(db: Db, sortBy: string, sortDesc: bool, ids: set<ResourceId>,
                     least: ResourceId, o: seq<ResourceId>)
    requires least in ids && ids <= db.vms.Keys
    requires forall id <- ids :: id != least ==> RowLess(db, sortBy, sortDesc, least, id)
    requires IsOrdering(db, sortBy, sortDesc, ids - {least}, o)
    ensures IsOrdering(db, sortBy, sortDesc, ids, [least] + o)
  {
    hide RowLess;
    var p := [least] + o;
    assert forall id :: id in p <==> id == least || id in o;
    forall i, j | 0 <= i < j < |p| ensures RowLess(db, sortBy, sortDesc, p[i], p[j]) {
      assert p[j] == o[j - 1] && p[j] in o;
      if i > 0 {
        assert p[i] == o[i - 1];
      }
    }
  }

  ghost function Least(db: Db, sortBy: string, sortDesc: bool, ids: set<ResourceId>): (least: ResourceId)
    requires ids != {} && ids <= db.vms.Keys
    ensures least in ids
    ensures forall id <- ids :: id != least ==> RowLess(db, sortBy, sortDesc, least, id)
  {
    var id :| id in ids;
    if ids == {id} then id
    else
      var least := Least(db, sortBy, sortDesc, ids - {id});
      assert forall i <- ids :: i == id || i in ids - {id};
      if RowLess(db, sortBy, sortDesc, least, id) then least else id
  }

  ghost function Ordering(db: Db, sortBy: string, sortDesc: bool, ids: set<ResourceId>): (o: seq<ResourceId>)
    requires ids <= db.vms.Keys
    ensures IsOrdering(db, sortBy, sortDesc, ids, o)
    ensures |o| == |ids|
  {
    OrderingExists(db, sortBy, sortDesc, ids);
    var o :| IsOrdering(db, sortBy, sortDesc, ids, o);
    OrderingLength(db, sortBy, sortDesc, ids, o);
    o
  }

  lemma {:induction false} OrderingLength(db: Db, sortBy: string, sortDesc: bool, ids: set<ResourceId>,
                                          o: seq<ResourceId>)
    requires IsOrdering(db, sortBy, sortDesc, ids, o)
    ensures |o| == |ids|
    decreases |o|
  {
    hide RowLess;
    if o == [] {
      assert ids == {};
    } else {
      TailOrdering(db, sortBy, sortDesc, ids, o);
      OrderingLength(db, sortBy, sortDesc, ids - {o[0]}, o[1..]);
    }
  }

  // ---- The answer ------------------------------------------------------------------------

  function Summary(db: Db, id: ResourceId): VmSummary
    requires id in db.vms && db.vms[id].columns.connectionId in db.connections
  {
    var row := db.vms[id];
    var connection := db.connections[row.columns.connectionId];
    VmSummary(id, row.columns, row.lifecycle, row.lastSeenAt, connection.displayName,
              if connection.kind == Connections.VCenter then VCenter else HyperV)
  }

  predicate Showable(db: Db, ids: seq<ResourceId>) {
    forall id <- ids :: id in db.vms && db.vms[id].columns.connectionId in db.connections
  }

  function Summaries(db: Db, ids: seq<ResourceId>): (items: seq<VmSummary>)
    requires Showable(db, ids)
    ensures |items| == |ids| && forall i | 0 <= i < |ids| :: items[i] == Summary(db, ids[i])
  {
    seq(|ids|, i requires 0 <= i < |ids| => Summary(db, ids[i]))
  }

  /** OFFSET and LIMIT. */
  function Slice<T>(o: seq<T>, offset: nat, limit: nat): (page: seq<T>)
    ensures |page| == if offset >= |o| then 0 else if offset + limit >= |o| then |o| - offset else limit
    ensures forall i | 0 <= i < |page| :: page[i] == o[offset + i]
  {
    if offset >= |o| then [] else if offset + limit >= |o| then o[offset..] else o[offset..offset + limit]
  }

  /** The whole listing, before a page is cut out of it. */
  ghost function Listing(db: Db, scope: AccessScope, connectionId: Option<ConnectionId>, sortBy: string, sortDesc: bool)
    : (o: seq<ResourceId>)
    ensures |o| == |Matching(db, scope, connectionId)| && Showable(db, o)
  {
    Ordering(db, sortBy, sortDesc, Matching(db, scope, connectionId))
  }

  /** Filter, sort, cut a page, count all: the query with no shortcut. */
  ghost function FullAnswer(db: Db, scope: AccessScope, connectionId: Option<ConnectionId>, page: Page): PagedResult
    requires page.offset >= 0 && page.limit >= 0
  {
    var o := Listing(db, scope, connectionId, page.sortBy, page.sortDesc);
    PagedResult(Summaries(db, Slice(o, page.offset, page.limit)), |Matching(db, scope, connectionId)|)
  }

  /** The repository's search; rows is what the database returned for the ORDER BY. */
  method SearchVms(db: Db, scope: AccessScope, connectionId: Option<ConnectionId>, page: Page, rows: seq<ResourceId>)
    returns (result: Result<PagedResult, QueryError>)
    requires IsOrdering(db, page.sortBy, page.sortDesc, Matching(db, scope, connectionId), rows)
    ensures result == match Validate(page)
                      case Some(e) => Err(e) case None => Ok(FullAnswer(db, scope, connectionId, page))
  {
    var invalid := Validate(page);
    if invalid.Some? {
      return Err(invalid.value);
    }
    var ids := Matching(db, scope, connectionId);
    OrderingUnique(db, page.sortBy, page.sortDesc, ids, rows, Ordering(db, page.sortBy, page.sortDesc, ids));
    assert rows == Listing(db, scope, connectionId, page.sortBy, page.sortDesc);
    if scope.IsEmpty() {
      assert ids == {};
      assert rows == [];
      return Ok(PagedResult([], 0));
    }
    return Ok(PagedResult(Summaries(db, Slice(rows, page.offset, page.limit)), |ids|));
  }

  /** The service: permission, page, and no answer at all about connections outside the scope. */
  method ListVirtualMachines(db: Db, scope: AccessScope, connectionId: Option<ConnectionId>, page: Page,
                             rows: seq<ResourceId>)
    returns (result: Result<PagedResult, QueryError>)
    requires IsOrdering(db, page.sortBy, page.sortDesc, Matching(db, scope, connectionId), rows)
    ensures result == if !scope.Has(Accounts.ResourceRead) then Err(PermissionDenied)
                      else match Validate(page)
                           case Some(e) => Err(e)
                           case None => Ok(FullAnswer(db, scope, connectionId, page))
  {
    if !scope.Has(Accounts.ResourceRead) {
      return Err(PermissionDenied);
    }
    var invalid := Validate(page);
    if invalid.Some? {
      return Err(invalid.value);
    }
    if connectionId.Some? && !scope.CanAccess(connectionId.value) {
      assert Matching(db, scope, connectionId) == {};
      return Ok(PagedResult([], 0));
    }
    result := SearchVms(db, scope, connectionId, page, rows);
  }

  // ---- Pages -----------------------------------------------------------------------------

  /** The items of the first n pages of a listing, one after the other. */
  ghost function FirstPages(db: Db, scope: AccessScope, connectionId: Option<ConnectionId>, page: Page, n: nat)
    : seq<VmSummary>
    requires page.limit >= 0
  {
    if n == 0 then []
    else FirstPages(db, scope, connectionId, page, n - 1) +
         FullAnswer(db, scope, connectionId, page.(offset := (n - 1) * page.limit)).items
  }

  /** Paging through a listing gives the listing itself, in order, whatever the page size. */
  lemma {:induction false} PagesPartition(db: Db, scope: AccessScope, connectionId: Option<ConnectionId>,
                                          page: Page, n: nat)
    requires page.limit >= 0
    ensures Showable(db, Listing(db, scope, connectionId, page.sortBy, page.sortDesc))
    ensures FirstPages(db, scope, connectionId, page, n) ==
            Summaries(db, Slice(Listing(db, scope, connectionId, page.sortBy, page.sortDesc), 0, n * page.limit))
  {
    var o := Listing(db, scope, connectionId, page.sortBy, page.sortDesc);
    hide Listing, Summary, Summaries, Slice, Matching;
    if n > 0 {
      PagesPartition(db, scope, connectionId, page, n - 1);
      assert n * page.limit == (n - 1) * page.limit + page.limit;
      NextPage(db, o, (n - 1) * page.limit, page.limit);
    }
  }

  lemma NextPage(db: Db, o: seq<ResourceId>, offset: nat, limit: nat)
    requires Showable(db, o)
    ensures Summaries(db, Slice(o, 0, offset + limit)) ==
            Summaries(db, Slice(o, 0, offset)) + Summaries(db, Slice(o, offset, limit))
  {
    SliceAppend(o, offset, limit);
    hide Summaries;
    SummariesAppend(db, Slice(o, 0, offset), Slice(o, offset, limit));
  }

  lemma SummariesAppend(db: Db, x: seq<ResourceId>, y: seq<ResourceId>)
    requires Showable(db, x) && Showable(db, y)
    ensures Showable(db, x + y) && Summaries(db, x + y) == Summaries(db, x) + Summaries(db, y)
  {
    hide Summary;
  }

  lemma SliceAppend<T>(o: seq<T>, n: nat, limit: nat)
    ensures Slice(o, 0, n + limit) == Slice(o, 0, n) + Slice(o, n, limit)
  {
  }

  /** Every matching machine is on exactly one page, at exactly one place, and there are total of them. */
  lemma EveryMachineOnOnePage(db: Db, scope: AccessScope, connectionId: Option<ConnectionId>, page: Page, n: nat)
    requires Validate(page) == None && n * page.limit >= |Matching(db, scope, connectionId)|
    ensures var all, ids := FirstPages(db, scope, connectionId, page, n), Matching(db, scope, connectionId);
            && |all| == |ids| == FullAnswer(db, scope, connectionId, page).total
            && (forall i | 0 <= i < |all| :: all[i].resourceId in ids && all[i] == Summary(db, all[i].resourceId))
            && (forall i, j | 0 <= i < j < |all| :: all[i].resourceId != all[j].resourceId)
            && (forall id <- ids :: exists i | 0 <= i < |all| :: all[i].resourceId == id)
  {
    hide SortRank;
    PagesPartition(db, scope, connectionId, page, n);
    var ids := Matching(db, scope, connectionId);
    var o := Listing(db, scope, connectionId, page.sortBy, page.sortDesc);
    var all := FirstPages(db, scope, connectionId, page, n);
    assert Slice(o, 0, n * page.limit) == o;
    forall id <- ids ensures exists i | 0 <= i < |all| :: all[i].resourceId == id {
      assert id in o;
      var i :| 0 <= i < |o| && o[i] == id;
      assert all[i].resourceId == id;
    }
  }

  // ---- Scope -----------------------------------------------------------------------------

  predicate SeenRow(db: Db, scope: AccessScope, id: ResourceId) {
    id in db.vms && scope.CanAccess(db.vms[id].columns.connectionId)
  }

  /** The two databases hold the same as far as the scope reaches. */
  ghost predicate AgreeInScope(a: Db, b: Db, scope: AccessScope) {
    && a.collation == b.collation
    && (forall id :: SeenRow(a, scope, id) <==> SeenRow(b, scope, id))
    && (forall id | SeenRow(a, scope, id) :: a.vms[id] == b.vms[id])
    && (forall c: ConnectionId | scope.CanAccess(c) :: c in a.connections <==> c in b.connections)
    && (forall c <- a.connections | scope.CanAccess(c) :: a.connections[c] == b.connections[c])
  }

  /** What lies outside the scope leaves no trace in any answer, not in the items and not in the total. */
  lemma ScopeHidesTheRest(a: Db, b: Db, scope: AccessScope, connectionId: Option<ConnectionId>, page: Page)
    requires AgreeInScope(a, b, scope) && Validate(page) == None
    ensures FullAnswer(a, scope, connectionId, page) == FullAnswer(b, scope, connectionId, page)
  {
    SameMatching(a, b, scope, connectionId);
    SameOrdering(a, b, scope, connectionId, page);
    var o := Listing(a, scope, connectionId, page.sortBy, page.sortDesc);
    assert o == Listing(b, scope, connectionId, page.sortBy, page.sortDesc);
    assert forall id <- o :: SeenRow(a, scope, id);
    hide Listing, Matching, Summary, AgreeInScope;
    SameSummaries(a, b, scope, Slice(o, page.offset, page.limit));
  }

  lemma SameMatching(a: Db, b: Db, scope: AccessScope, connectionId: Option<ConnectionId>)
    requires AgreeInScope(a, b, scope)
    ensures Matching(a, scope, connectionId) == Matching(b, scope, connectionId)
    ensures forall id <- Matching(a, scope, connectionId) :: SeenRow(a, scope, id)
  {
    assert forall id <- Matching(a, scope, connectionId) :: SeenRow(a, scope, id);
    assert forall id <- Matching(b, scope, connectionId) :: SeenRow(b, scope, id);
  }

  lemma SameOrdering(a: Db, b: Db, scope: AccessScope, connectionId: Option<ConnectionId>, page: Page)
    requires AgreeInScope(a, b, scope)
    requires Matching(a, scope, connectionId) == Matching(b, scope, connectionId)
    requires forall id <- Matching(a, scope, connectionId) :: SeenRow(a, scope, id)
    ensures Ordering(a, page.sortBy, page.sortDesc, Matching(a, scope, connectionId))
         == Ordering(b, page.sortBy, page.sortDesc, Matching(b, scope, connectionId))
  {
    var ids := Matching(a, scope, connectionId);
    hide Matching;
    var o, p := Ordering(a, page.sortBy, page.sortDesc, ids), Ordering(b, page.sortBy, page.sortDesc, ids);
    SameOrderHere(a, b, scope, page.sortBy, page.sortDesc, ids, o);
    hide Ordering, IsOrdering, AgreeInScope;
    OrderingUnique(b, page.sortBy, page.sortDesc, ids, o, p);
  }

  lemma SameOrderHere(a: Db, b: Db, scope: AccessScope, sortBy: string, sortDesc: bool, ids: set<ResourceId>,
                      o: seq<ResourceId>)
    requires AgreeInScope(a, b, scope) && forall id <- ids :: SeenRow(a, scope, id)
    requires IsOrdering(a, sortBy, sortDesc, ids, o)
    ensures IsOrdering(b, sortBy, sortDesc, ids, o)
  {
    forall i, j | 0 <= i < j < |o| ensures o[i] in b.vms && o[j] in b.vms && RowLess(b, sortBy, sortDesc, o[i], o[j]) {
      assert SeenRow(a, scope, o[i]) && SeenRow(a, scope, o[j]);
      assert RowLess(a, sortBy, sortDesc, o[i], o[j]);
    }
    forall id <- o ensures id in b.vms {
      assert SeenRow(a, scope, id);
    }
  }

  lemma SameSummaries(a: Db, b: Db, scope: AccessScope, ids: seq<ResourceId>)
    requires AgreeInScope(a, b, scope)
    requires Showable(a, ids) && Showable(b, ids)
    requires forall id <- ids :: SeenRow(a, scope, id)
    ensures Summaries(a, ids) == Summaries(b, ids)
  {
    forall i | 0 <= i < |ids| ensures Summary(a, ids[i]) == Summary(b, ids[i]) {
      assert SeenRow(a, scope, ids[i]);
    }
  }

  // ---- The answer, told from the columns -----------------------------------------------------

  /** A page is answered when its offset is not negative, its limit 1 to 500, and its column one of six. */
  lemma ValidateTold(page: Page)
    ensures Validate(page) == None <==>
            && page.offset >= 0 && 1 <= page.limit <= 500
            && (page.sortBy == "name" || page.sortBy == "power_state" || page.sortBy == "guest_os_name"
                || page.sortBy == "vcpu_count" || page.sortBy == "memory_mb" || page.sortBy == "last_seen_at")
    ensures Validate(page) == Some(Invalid("offset")) <==> page.offset < 0
    ensures Validate(page) == Some(Invalid("limit")) <==> page.offset >= 0 && (page.limit < 1 || page.limit > 500)
  {
  }

  /** The rows a user asks for: active, of a known connection in his scope, and of the one named, if one is named. */
  predicate Wanted(db: Db, scope: AccessScope, connectionId: Option<ConnectionId>, id: ResourceId) {
    && id in db.vms && db.vms[id].lifecycle == Active
    && var c := db.vms[id].columns.connectionId;
       && c in db.connections
       && (scope.allowed.Some? ==> c in scope.allowed.value)
       && (connectionId.Some? ==> c == connectionId.value)
  }

  lemma ListingTold(db: Db, scope: AccessScope, connectionId: Option<ConnectionId>, sortBy: string, sortDesc: bool,
                    id: ResourceId)
    ensures id in Listing(db, scope, connectionId, sortBy, sortDesc) <==> Wanted(db, scope, connectionId, id)
  {
  }

  /** A machine is on the pages if and only if it is wanted, and the total is the number of such machines. */
  lemma OnThePagesIffWanted(db: Db, scope: AccessScope, connectionId: Option<ConnectionId>, page: Page,
                            n: nat, id: ResourceId)
    requires Validate(page) == None && n * page.limit >= |db.vms|
    ensures var all := FirstPages(db, scope, connectionId, page, n);
            (exists i | 0 <= i < |all| :: all[i].resourceId == id) <==> Wanted(db, scope, connectionId, id)
    ensures FullAnswer(db, scope, connectionId, page).total ==
            |set i | i in db.vms && Wanted(db, scope, connectionId, i)|
  {
    var ids := Matching(db, scope, connectionId);
    assert ids == set i | i in db.vms && Wanted(db, scope, connectionId, i);
    FewerThanAll(ids, db.vms.Keys);
    hide Listing, Validate, Matching, Wanted;
    EveryMachineOnOnePage(db, scope, connectionId, page, n);
    ListingTold(db, scope, connectionId, page.sortBy, page.sortDesc, id);
    assert id in ids <==> Wanted(db, scope, connectionId, id);
  }

  lemma {:induction false} FewerThanAll(some: set<ResourceId>, all: set<ResourceId>)
    requires some <= all
    ensures |some| <= |all|
    decreases |all|
  {
    if some != {} {
      var id :| id in some;
      FewerThanAll(some - {id}, all - {id});
    }
  }

  /** What an item shows: its row's columns and times, its connection's name, and vCenter or, for all else, Hyper-V. */
  lemma ItemsTold(db: Db, scope: AccessScope, connectionId: Option<ConnectionId>, page: Page, k: nat)
    requires page.offset >= 0 && page.limit >= 0 && k < |FullAnswer(db, scope, connectionId, page).items|
    ensures var item := FullAnswer(db, scope, connectionId, page).items[k];
            && Wanted(db, scope, connectionId, item.resourceId)
            && var row := db.vms[item.resourceId];
            && var connection := db.connections[row.columns.connectionId];
            && item.columns == row.columns && item.lifecycle == Active && item.lastSeenAt == row.lastSeenAt
            && item.connectionName == connection.displayName
            && (item.hypervisor == VCenter <==> connection.kind == Connections.VCenter)
            && (item.hypervisor == HyperV <==> connection.kind != Connections.VCenter)
  {
    var o := Listing(db, scope, connectionId, page.sortBy, page.sortDesc);
    var id := o[page.offset + k];
    assert id in o;
    ListingTold(db, scope, connectionId, page.sortBy, page.sortDesc, id);
    hide Listing, Wanted;
    assert FullAnswer(db, scope, connectionId, page).items[k] == Summary(db, id);
  }

  // ---- The order, told from the columns ------------------------------------------------------

  /** x may come before y: rising, unknown values last; falling, unknown values first. */
  predicate MayPrecede(x: Option<real>, y: Option<real>, falling: bool) {
    match (x, y)
    case (Some(a), Some(b)) => if falling then a >= b else a <= b
    case (Some(_), None) => !falling
    case (None, Some(_)) => falling
    case (None, None) => true
  }

  function TextAt(db: Db, text: Option<string>): Option<real> {
    if text.Some? then Some(db.collation(text.value)) else None
  }

  function NumberAt(n: Option<int>): Option<real> {
    if n.Some? then Some(n.value as real) else None
  }

  /** a may come before b by the column asked for; where that column is the same, row ids rise. */
  predicate InOrder(db: Db, sortBy: string, falling: bool, a: VmSummary, b: VmSummary) {
    var c, d := a.columns, b.columns;
    && (sortBy == "name" ==>
          MayPrecede(TextAt(db, Some(c.name)), TextAt(db, Some(d.name)), falling)
          && (c.name == d.name ==> a.resourceId < b.resourceId))
    && (sortBy == "power_state" ==>
          MayPrecede(TextAt(db, Some(PowerText(c.powerState))), TextAt(db, Some(PowerText(d.powerState))), falling)
          && (c.powerState == d.powerState ==> a.resourceId < b.resourceId))
    && (sortBy == "guest_os_name" ==>
          MayPrecede(TextAt(db, c.guestOsName), TextAt(db, d.guestOsName), falling)
          && (c.guestOsName == d.guestOsName ==> a.resourceId < b.resourceId))
    && (sortBy == "vcpu_count" ==>
          MayPrecede(NumberAt(c.vcpuCount), NumberAt(d.vcpuCount), falling)
          && (c.vcpuCount == d.vcpuCount ==> a.resourceId < b.resourceId))
    && (sortBy == "memory_mb" ==>
          MayPrecede(NumberAt(c.memoryMb), NumberAt(d.memoryMb), falling)
          && (c.memoryMb == d.memoryMb ==> a.resourceId < b.resourceId))
    && (sortBy == "last_seen_at" ==>
          MayPrecede(NumberAt(Some(a.lastSeenAt)), NumberAt(Some(b.lastSeenAt)), falling)
          && (a.lastSeenAt == b.lastSeenAt ==> a.resourceId < b.resourceId))
  }

  /** The items of a page are in the order asked for. */
  lemma ItemsInOrder(db: Db, scope: AccessScope, connectionId: Option<ConnectionId>, page: Page, i: nat, j: nat)
    requires page.offset >= 0 && page.limit >= 0 && i < j < |FullAnswer(db, scope, connectionId, page).items|
    ensures var items := FullAnswer(db, scope, connectionId, page).items;
            InOrder(db, page.sortBy, page.sortDesc, items[i], items[j])
  {
    hide InOrder, SortRank, Summary;
    var o := Listing(db, scope, connectionId, page.sortBy, page.sortDesc);
    var x, y := o[page.offset + i], o[page.offset + j];
    assert x in o && y in o;
    assert RowLess(db, page.sortBy, page.sortDesc, x, y);
    LessTold(db, page.sortBy, page.sortDesc, x, y);
  }

  lemma LessTold(db: Db, sortBy: string, falling: bool, x: ResourceId, y: ResourceId)
    requires x in db.vms && y in db.vms
    requires db.vms[x].columns.connectionId in db.connections && db.vms[y].columns.connectionId in db.connections
    requires RowLess(db, sortBy, falling, x, y)
    ensures InOrder(db, sortBy, falling, Summary(db, x), Summary(db, y))
  {
    hide PowerText;
  }

  /** Power states compare as the words the table holds. */
  lemma PowerWords()
    ensures PowerText(PoweredOn) == "on" && PowerText(PoweredOff) == "off"
    ensures PowerText(Suspended) == "suspended" && PowerText(PowerUnknown) == "unknown"
  {
  }
}
