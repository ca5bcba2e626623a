/**
 The two tables behind the inventory and the upsert that keeps them together:
 src/infrastructure/repository/vm_repo.py, `virtual_machines` and `resource_identities` of
 src/infrastructure/db/models.py.
 */
module VmRepository {
  import opened Common
  import opened Domain
  import opened Inventory

  datatype IdentityRow =
    IdentityRow(resourceId: ResourceId, connectionId: ConnectionId, rule: IdentityRule, keyValue: string)

  datatype IdentityMatch =
    IdentityMatch(resourceId: ResourceId, connectionId: ConnectionId, rule: IdentityRule, value: string)

  /** What the database raises when the unique constraint on (connection_id, native_id) is violated. */
  datatype DbError = UniqueViolation

  type VmTable = map<ResourceId, VmRow>

  // ---- Reading the tables as one map -----------------------------------------------------

  /** uq_vm_native. */
  ghost predicate KeysUnique(vms: VmTable) {
    forall a <- vms, b <- vms :: vms[a].columns.Key() == vms[b].columns.Key() ==> a == b
  }

  ghost function IdOf(vms: VmTable): (ids: map<VmKey, ResourceId>)
    requires KeysUnique(vms)
    ensures forall id <- vms :: vms[id].columns.Key() in ids && ids[vms[id].columns.Key()] == id
    ensures forall k <- ids :: ids[k] in vms && vms[ids[k]].columns.Key() == k
  {
    map id | id in vms :: vms[id].columns.Key() := id
  }

  /** The virtual machine table, keyed by what a machine is rather than by its row id. */
  ghost function RowsOf(vms: VmTable): (rows: Rows)
    requires KeysUnique(vms)
    ensures rows.Keys == IdOf(vms).Keys
    ensures forall k <- rows :: rows[k] == vms[IdOf(vms)[k]]
  {
    map k | k in IdOf(vms) :: vms[IdOf(vms)[k]]
  }

  /** One index row for each virtual machine row, none dangling, each carrying that machine's key text. */
  ghost predicate IndexAgrees(vms: VmTable, identities: set<IdentityRow>) {
    && (forall r <- identities ::
          r.resourceId in vms && r.rule == Native
          && r.keyValue == NativeKeyText(vms[r.resourceId].columns.connectionId, vms[r.resourceId].columns.nativeId))
    && (forall r <- identities, q <- identities :: r.resourceId == q.resourceId ==> r == q)
    && (forall id <- vms :: Indexed(identities, id))
  }

  ghost predicate Indexed(identities: set<IdentityRow>, id: ResourceId) {
    exists r <- identities :: r.resourceId == id
  }

  /** Rows keep their ids. */
  ghost predicate KeepsIds(before: VmTable, after: VmTable)
    requires KeysUnique(before) && KeysUnique(after)
  {
    forall k <- IdOf(before) :: k in IdOf(after) && IdOf(after)[k] == IdOf(before)[k]
  }

  /** Row id now holds what the observation leaves of its machine, and nothing else changed. */
  ghost predicate RowWritten(before: VmTable, after: VmTable, id: ResourceId, o: Observation)
    requires KeysUnique(before)
  {
    && KeysUnique(after)
    && KeepsIds(before, after)
    && RowsOf(after) == Observe(RowsOf(before), o)
    && id in after && after[id].columns.Key() == o.Key()
    && after == before[id := after[id]]
    && (id in before ==> before[id].columns.Key() == o.Key())
  }

  /** The index rows of one resource are exactly the given keys; every other row stays. */
  ghost predicate Synced(before: set<IdentityRow>, after: set<IdentityRow>, id: ResourceId,
                         keys: seq<IdentityKey>, connectionId: ConnectionId)
  {
    forall r :: r in after <==>
      if r.resourceId == id then r.connectionId == connectionId && IdentityKey(r.rule, r.keyValue) in keys
      else r in before
  }

  /** The connection column of the index repeats the machine's own connection. */
  ghost predicate ConnectionColumnAgrees(vms: VmTable, identities: set<IdentityRow>) {
    forall r <- identities :: r.resourceId in vms ==> r.connectionId == vms[r.resourceId].columns.connectionId
  }

  function Matching(identities: set<IdentityRow>, key: IdentityKey): set<IdentityRow> {
    set r | r in identities && r.rule == key.rule && r.keyValue == key.value
  }

  /** A key decides the look-up only when exactly one index row carries it. */
  predicate Decides(identities: set<IdentityRow>, key: IdentityKey) {
    |Matching(identities, key)| == 1
  }

  /** m is what the i-th key decided, and no key before it decided anything. */
  ghost predicate FoundAt(identities: set<IdentityRow>, ordered: seq<IdentityKey>, i: nat, m: IdentityMatch)
    requires i < |ordered|
  {
    && (forall j | 0 <= j < i :: !Decides(identities, ordered[j]))
    && Matching(identities, ordered[i]) == {IdentityRow(m.resourceId, m.connectionId, m.rule, m.value)}
  }

  /** The outcome of trying the keys in order until one decides. */
  ghost predicate LookedUp(identities: set<IdentityRow>, ordered: seq<IdentityKey>, found: Option<IdentityMatch>) {
    match found
    case None => forall key <- ordered :: !Decides(identities, key)
    case Some(m) => exists i: nat | i < |ordered| :: FoundAt(identities, ordered, i, m)
  }

  // ---- sorted(keys, key=lambda k: k.rule) ------------------------------------------------

  function InsertByRule(key: IdentityKey, sorted: seq<IdentityKey>): seq<IdentityKey> {
    if sorted == [] || key.rule.Rank() <= sorted[0].rule.Rank() then [key] + sorted
    else [sorted[0]] + InsertByRule(key, sorted[1..])
  }

  function SortByRule(keys: seq<IdentityKey>): (sorted: seq<IdentityKey>) {
    if keys == [] then [] else InsertByRule(keys[0], SortByRule(keys[1..]))
  }

  /** The native id is trusted most, then the BIOS id, then addresses and name. */
  predicate TrustedAsMuch(a: IdentityRule, b: IdentityRule) {
    a == Native || b == MacAndName || a == b
  }

  ghost predicate InRuleOrder(keys: seq<IdentityKey>) {
    |keys| < 2 || (TrustedAsMuch(keys[0].rule, keys[1].rule) && InRuleOrder(keys[1..]))
  }

  lemma {:induction false} InsertKeepsOrder(key: IdentityKey, sorted: seq<IdentityKey>)
    requires InRuleOrder(sorted)
    ensures InRuleOrder(InsertByRule(key, sorted))
  {
    if sorted == [] || key.rule.Rank() <= sorted[0].rule.Rank() {
      assert ([key] + sorted)[1..] == sorted;
    } else {
      InsertKeepsOrder(key, sorted[1..]);
      assert ([sorted[0]] + InsertByRule(key, sorted[1..]))[1..] == InsertByRule(key, sorted[1..]);
    }
  }

  lemma {:induction false} InsertAddsKey(key: IdentityKey, sorted: seq<IdentityKey>)
    ensures multiset(InsertByRule(key, sorted)) == multiset(sorted) + multiset{key}
  {
    if sorted != [] && key.rule.Rank() > sorted[0].rule.Rank() {
      InsertAddsKey(key, sorted[1..]);
      assert sorted == [sorted[0]] + sorted[1..];
    }
  }

  /** The look-up order is the given keys, most trusted rule first. */
  lemma {:induction false} SortByRuleSorts(keys: seq<IdentityKey>)
    ensures InRuleOrder(SortByRule(keys))
    ensures multiset(SortByRule(keys)) == multiset(keys)
  {
    if keys != [] {
      SortByRuleSorts(keys[1..]);
      assert keys == [keys[0]] + keys[1..];
      InsertKeepsOrder(keys[0], SortByRule(keys[1..]));
      InsertAddsKey(keys[0], SortByRule(keys[1..]));
    }
  }

  // ---- The repository --------------------------------------------------------------------

  class Repository {
    var vms: VmTable
    var identities: set<IdentityRow>

    ghost predicate Valid()
      reads this
    {
      KeysUnique(vms) && IndexAgrees(vms, identities)
    }

    constructor (vms: VmTable, identities: set<IdentityRow>)
      requires KeysUnique(vms) && IndexAgrees(vms, identities)
      ensures Valid() && this.vms == vms && this.identities == identities
    {
      this.vms, this.identities := vms, identities;
    }

    method UpsertVirtualMachines(connectionId: ConnectionId, batch: seq<VirtualMachine>, observedAt: Instant)
      returns (result: Result<Tally, DbError>)
      requires Valid()
      modifies this
      ensures Valid()
      ensures result == Ok(TallyOf(old(RowsOf(vms)), Stamped(batch, observedAt)))
      ensures RowsOf(vms) == Replay(old(RowsOf(vms)), Stamped(batch, observedAt))
      ensures KeepsIds(old(vms), vms)
      ensures (old(ConnectionColumnAgrees(vms, identities)) &&
               forall vm <- batch :: vm.connectionId == connectionId) ==>
                ConnectionColumnAgrees(vms, identities)
    {
      hide IndexAgrees, ConnectionColumnAgrees, Observe, TallyOne;
      var tally := NOTHING;
      ghost var run := Stamped(batch, observedAt);
      ghost var rows := RowsOf(vms);
      for i := 0 to |batch|
        invariant Valid()
        invariant tally == TallyOf(rows, run[..i])
        invariant RowsOf(vms) == Replay(rows, run[..i])
        invariant KeepsIds(old(vms), vms)
        invariant (old(ConnectionColumnAgrees(vms, identities)) &&
                   forall vm <- batch :: vm.connectionId == connectionId) ==>
                    ConnectionColumnAgrees(vms, identities)
      {
        assert run[..i + 1][..i] == run[..i];
        var counted := UpsertOne(connectionId, batch[i], observedAt);
        tally := tally.Plus(counted.value);
      }
      assert run[..|batch|] == run;
      return Ok(tally);
    }

    method UpsertOne(connectionId: ConnectionId, vm: VirtualMachine, observedAt: Instant)
      returns (counted: Result<Tally, DbError>)
      requires Valid()
      modifies this
      ensures Valid()
      ensures counted == Ok(TallyOne(old(RowsOf(vms)), Observation(vm, observedAt)))
      ensures RowsOf(vms) == Observe(old(RowsOf(vms)), Observation(vm, observedAt))
      ensures KeepsIds(old(vms), vms)
      ensures (old(ConnectionColumnAgrees(vms, identities)) && vm.connectionId == connectionId) ==>
                ConnectionColumnAgrees(vms, identities)
    {
      hide RowWritten, Synced, Observe, TallyOne, ToColumns, MergeGuest, RowToDomain, Refreshed, Columns.SameTracked;
      ghost var o := Observation(vm, observedAt);
      ghost var before, index := vms, identities;
      var keys := BuildVmIdentityKeys(vm);
      var found := FindByIdentity(keys);
      LookupIsMapLookup(vms, identities, vm, found);
      var tally := NOTHING;
      var resourceId;
      match found {
        case None =>
          var inserted := InsertVm(vm, observedAt);
          resourceId := inserted.value;
          tally := Tally(1, 0, 0);
          InsertRefines(before, resourceId, o);
        case Some(m) =>
          resourceId := m.resourceId;
          var previous := LoadVm(resourceId);
          var merged := MergeGuest(vm, previous);
          UpdateRefines(before, resourceId, o);
          var changed := UpdateVm(resourceId, merged, observedAt);
          tally := if changed.value then Tally(0, 1, 0) else Tally(0, 0, 1);
      }
      SyncIdentities(resourceId, keys, connectionId);
      SyncRestoresIndex(before, index, vms, identities, resourceId, o, connectionId);
      return Ok(tally);
    }

    method FindByIdentity(keys: seq<IdentityKey>) returns (found: Option<IdentityMatch>)
      ensures LookedUp(identities, SortByRule(keys), found)
    {
      var ordered := SortByRule(keys);
      for i := 0 to |ordered|
        invariant forall j | 0 <= j < i :: !Decides(identities, ordered[j])
      {
        var rows := Matching(identities, ordered[i]);
        if |rows| == 1 {
          var row :| row in rows;
          assert |rows - {row}| == 0;
          assert rows == {row};
          var m := IdentityMatch(row.resourceId, row.connectionId, ordered[i].rule, ordered[i].value);
          assert FoundAt(identities, ordered, i, m);
          return Some(m);
        }
      }
      return None;
    }

    method InsertVm(vm: VirtualMachine, observedAt: Instant) returns (inserted: Result<ResourceId, DbError>)
      requires KeysUnique(vms)
      modifies `vms
      ensures KeysUnique(vms)
      ensures inserted.Ok? <==> forall id <- old(vms) :: old(vms)[id].columns.Key() != (vm.connectionId, vm.nativeId)
      ensures inserted.Ok? ==>
                && inserted.value !in old(vms)
                && vms == old(vms)[inserted.value := VmRow(ToColumns(vm), Active, observedAt, observedAt)]
      ensures inserted.Err? ==> vms == old(vms)
    {
      if exists id | id in vms :: vms[id].columns.Key() == (vm.connectionId, vm.nativeId) {
        return Err(UniqueViolation);
      }
      UnusedIdExists(vms.Keys);
      var resourceId: ResourceId :| resourceId !in vms.Keys;
      vms := vms[resourceId := VmRow(ToColumns(vm), Active, observedAt, observedAt)];
      return Ok(resourceId);
    }

    method LoadVm(resourceId: ResourceId) returns (vm: Option<VirtualMachine>)
      ensures vm == if resourceId in vms then Some(RowToDomain(vms[resourceId])) else None
    {
      if resourceId !in vms {
        return None;
      }
      return Some(RowToDomain(vms[resourceId]));
    }

    method UpdateVm(resourceId: ResourceId, vm: VirtualMachine, observedAt: Instant)
      returns (changed: Result<bool, DbError>)
      requires KeysUnique(vms)
      modifies `vms
      ensures KeysUnique(vms)
      ensures resourceId !in old(vms) ==> changed == Ok(false) && vms == old(vms)
      ensures resourceId in old(vms) ==>
                (changed.Ok? <==> forall id <- old(vms) ::
                  id != resourceId ==> old(vms)[id].columns.Key() != (vm.connectionId, vm.nativeId))
      ensures resourceId in old(vms) && changed.Ok? ==>
                && changed.value == !ToColumns(vm).SameTracked(old(vms)[resourceId].columns)
                && vms ==
                   old(vms)[resourceId := old(vms)[resourceId].(columns := ToColumns(vm), lastSeenAt := observedAt)]
      ensures changed.Err? ==> vms == old(vms)
    {
      if resourceId !in vms {
        return Ok(false);
      }
      if exists id | id in vms :: id != resourceId && vms[id].columns.Key() == (vm.connectionId, vm.nativeId) {
        return Err(UniqueViolation);
      }
      var row := vms[resourceId];
      vms := vms[resourceId := row.(columns := ToColumns(vm), lastSeenAt := observedAt)];
      return Ok(!ToColumns(vm).SameTracked(row.columns));
    }

    method SyncIdentities(resourceId: ResourceId, keys: seq<IdentityKey>, connectionId: ConnectionId)
      modifies `identities
      ensures Synced(old(identities), identities, resourceId, keys, connectionId)
    {
      identities := set r | r in identities && r.resourceId != resourceId;
      for i := 0 to |keys|
        invariant Synced(old(identities), identities, resourceId, keys[..i], connectionId)
      {
        assert keys[..i + 1] == keys[..i] + [keys[i]];
        identities := identities + {IdentityRow(resourceId, connectionId, keys[i].rule, keys[i].value)};
      }
    }
  }

  // ---- How each step of the upsert shows on the map ---------------------------------------

  /** With the index in agreement, looking a machine up by its key text is looking it up by its key. */
  lemma LookupIsMapLookup(vms: VmTable, identities: set<IdentityRow>, vm: VirtualMachine, found: Option<IdentityMatch>)
    requires KeysUnique(vms) && IndexAgrees(vms, identities)
    requires LookedUp(identities, SortByRule(BuildVmIdentityKeys(vm)), found)
    ensures found.Some? <==> (vm.connectionId, vm.nativeId) in IdOf(vms)
    ensures found.Some? ==> found.value.resourceId == IdOf(vms)[(vm.connectionId, vm.nativeId)]
  {
    var keys := BuildVmIdentityKeys(vm);
    assert SortByRule(keys) == keys;
    MatchingIsTheRowOfTheKey(vms, identities, vm);
    var rows := Matching(identities, keys[0]);
    if found.Some? {
      var i: nat :| i < |keys| && FoundAt(identities, keys, i, found.value);
      assert i == 0;
      assert IdentityRow(found.value.resourceId, found.value.connectionId, found.value.rule, found.value.value) in rows;
    } else {
      assert !Decides(identities, keys[0]);
    }
  }

  /** No look-up is ambiguous: at most one index row carries a machine's key text. */
  lemma MatchingIsTheRowOfTheKey(vms: VmTable, identities: set<IdentityRow>, vm: VirtualMachine)
    requires KeysUnique(vms) && IndexAgrees(vms, identities)
    ensures var key := (vm.connectionId, vm.nativeId);
            var rows := Matching(identities, BuildVmIdentityKeys(vm)[0]);
            if key in IdOf(vms) then exists r <- rows :: rows == {r} && r.resourceId == IdOf(vms)[key]
            else rows == {}
  {
    var key := (vm.connectionId, vm.nativeId);
    var rows := Matching(identities, BuildVmIdentityKeys(vm)[0]);
    forall r <- rows ensures key in IdOf(vms) && r.resourceId == IdOf(vms)[key] {
      var c := vms[r.resourceId].columns;
      NativeKeyTextInjective(c.connectionId, c.nativeId, vm.connectionId, vm.nativeId);
      assert c.Key() == key;
    }
    if key in IdOf(vms) {
      var id := IdOf(vms)[key];
      assert Indexed(identities, id);
      var r :| r in identities && r.resourceId == id;
      assert r in rows;
      assert rows == {r};
    }
  }

  lemma InsertRefines(vms: VmTable, id: ResourceId, o: Observation)
    requires KeysUnique(vms) && id !in vms && o.Key() !in IdOf(vms)
    ensures RowWritten(vms, vms[id := VmRow(ToColumns(o.vm), Active, o.at, o.at)], id, o)
    ensures TallyOne(RowsOf(vms), o) == Tally(1, 0, 0)
  {
    AddRow(vms, id, VmRow(ToColumns(o.vm), Active, o.at, o.at));
  }

  lemma UpdateRefines(vms: VmTable, id: ResourceId, o: Observation)
    requires KeysUnique(vms) && o.Key() in IdOf(vms) && id == IdOf(vms)[o.Key()]
    ensures var merged := MergeGuest(o.vm, Some(RowToDomain(vms[id])));
            && (merged.connectionId, merged.nativeId) == o.Key()
            && RowWritten(vms, vms[id := vms[id].(columns := ToColumns(merged), lastSeenAt := o.at)], id, o)
            && TallyOne(RowsOf(vms), o) ==
               if ToColumns(merged).SameTracked(vms[id].columns) then Tally(0, 0, 1) else Tally(0, 1, 0)
  {
    ReplaceRow(vms, id, Refreshed(vms[id], o));
  }

  /** A row under a new key and a new id adds exactly that entry to the map. */
  lemma AddRow(vms: VmTable, id: ResourceId, row: VmRow)
    requires KeysUnique(vms) && id !in vms && row.columns.Key() !in IdOf(vms)
    ensures KeysUnique(vms[id := row])
    ensures IdOf(vms[id := row]) == IdOf(vms)[row.columns.Key() := id]
    ensures RowsOf(vms[id := row]) == RowsOf(vms)[row.columns.Key() := row]
  {
    NewKeyStaysUnique(vms, id, row);
    NewKeyIds(vms, id, row);
  }

  lemma NewKeyIds(vms: VmTable, id: ResourceId, row: VmRow)
    requires KeysUnique(vms) && id !in vms && KeysUnique(vms[id := row])
    ensures IdOf(vms[id := row]) == IdOf(vms)[row.columns.Key() := id]
  {
    hide Columns.Key, KeysUnique;
    var after := vms[id := row];
    var ids := IdOf(vms)[row.columns.Key() := id];
    forall a <- after ensures after[a].columns.Key() in ids {
      assert a != id ==> vms[a].columns.Key() in IdOf(vms);
    }
    assert IdOf(after).Keys == ids.Keys by {
      forall k <- ids ensures k in IdOf(after) {
        assert ids[k] in after && after[ids[k]].columns.Key() == k;
      }
    }
    forall k <- ids ensures IdOf(after)[k] == ids[k] {
      assert after[ids[k]].columns.Key() == k;
    }
  }

  lemma NewKeyStaysUnique(vms: VmTable, id: ResourceId, row: VmRow)
    requires KeysUnique(vms) && id !in vms && row.columns.Key() !in IdOf(vms)
    ensures KeysUnique(vms[id := row])
  {
    assert forall a <- vms :: vms[a].columns.Key() in IdOf(vms);
  }

  /** A row that keeps its key replaces exactly that entry. */
  lemma ReplaceRow(vms: VmTable, id: ResourceId, row: VmRow)
    requires KeysUnique(vms) && id in vms && row.columns.Key() == vms[id].columns.Key()
    ensures KeysUnique(vms[id := row])
    ensures IdOf(vms[id := row]) == IdOf(vms)
    ensures RowsOf(vms[id := row]) == RowsOf(vms)[row.columns.Key() := row]
  {
    hide Columns.Key;
    SameKeySameIds(vms, id, row);
    hide KeysUnique, IdOf;
  }

  lemma SameKeySameIds(vms: VmTable, id: ResourceId, row: VmRow)
    requires KeysUnique(vms) && id in vms && row.columns.Key() == vms[id].columns.Key()
    ensures KeysUnique(vms[id := row]) && IdOf(vms[id := row]) == IdOf(vms)
  {
    hide Columns.Key;
    var after := vms[id := row];
    forall k | k in IdOf(after) ensures k in IdOf(vms) {
      assert IdOf(after)[k] in after;
    }
    forall k | k in IdOf(vms) ensures k in IdOf(after) {
      assert IdOf(vms)[k] in after;
    }
  }

  lemma SyncRestoresIndex(before: VmTable, index: set<IdentityRow>, after: VmTable, synced: set<IdentityRow>,
                          id: ResourceId, o: Observation, connectionId: ConnectionId)
    requires KeysUnique(before) && IndexAgrees(before, index)
    requires RowWritten(before, after, id, o)
    requires Synced(index, synced, id, BuildVmIdentityKeys(o.vm), connectionId)
    ensures KeysUnique(after) && IndexAgrees(after, synced)
    ensures KeepsIds(before, after) && RowsOf(after) == Observe(RowsOf(before), o)
    ensures ConnectionColumnAgrees(before, index) && o.vm.connectionId == connectionId ==>
              ConnectionColumnAgrees(after, synced)
  {
    hide Observe, IndexAgrees, Synced, ConnectionColumnAgrees;
    IndexFollowsRow(before, index, after, synced, id, o.vm, connectionId);
  }

  lemma IndexFollowsRow(before: VmTable, index: set<IdentityRow>, after: VmTable, synced: set<IdentityRow>,
                        id: ResourceId, vm: VirtualMachine, connectionId: ConnectionId)
    requires IndexAgrees(before, index)
    requires id in after && after[id].columns.Key() == (vm.connectionId, vm.nativeId)
    requires after == before[id := after[id]]
    requires Synced(index, synced, id, BuildVmIdentityKeys(vm), connectionId)
    ensures IndexAgrees(after, synced)
    ensures ConnectionColumnAgrees(before, index) && vm.connectionId == connectionId ==>
              ConnectionColumnAgrees(after, synced)
  {
    forall a <- after ensures Indexed(synced, a) {
      if a == id {
        assert IdentityRow(id, connectionId, Native, NativeKeyText(vm.connectionId, vm.nativeId)) in synced;
      } else {
        assert Indexed(index, a);
      }
    }
  }
}
