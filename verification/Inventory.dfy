/**
 The inventory as its users think of it: one row for each (connection, native id), and what one
 observation does to that row. src/infrastructure/repository/vm_repo.py keeps two tables instead
 (module VmRepository); its methods are proved against this module.
 */
module Inventory {
  import opened Common
  import opened Domain

  type VmKey = (ConnectionId, string)

  /** The columns an observation writes. */
  datatype Columns = Columns(
    connectionId: ConnectionId,
    nativeId: string,
    biosUuid: Option<string>,
    name: string,
    powerState: PowerState,
    connectionState: LinkState,
    vcpuCount: Option<int>,
    memoryMb: Option<int>,
    configuredOs: Option<string>,
    guestAvailability: GuestAvailability,
    guestOsName: Option<string>,
    guestOsSource: Option<OsSource>,
    guestHostname: Option<string>,
    guestObservedAt: Option<Instant>,
    hostNativeId: Option<string>)
  {
    function Key(): VmKey {
      (connectionId, nativeId)
    }

    /** The columns whose change counts as an update; the time of the guest values is not one. */
    predicate SameTracked(other: Columns) {
      && name == other.name
      && powerState == other.powerState
      && connectionState == other.connectionState
      && vcpuCount == other.vcpuCount
      && memoryMb == other.memoryMb
      && configuredOs == other.configuredOs
      && guestAvailability == other.guestAvailability
      && guestOsName == other.guestOsName
      && guestOsSource == other.guestOsSource
      && guestHostname == other.guestHostname
      && hostNativeId == other.hostNativeId
      && biosUuid == other.biosUuid
    }
  }

  datatype VmRow = VmRow(columns: Columns, lifecycle: Lifecycle, firstSeenAt: Instant, lastSeenAt: Instant)

  /** Python's `n or None`. */
  function OrNone(n: int): Option<int> {
    if n == 0 then None else Some(n)
  }

  function OrZero(n: Option<int>): int {
    match n case None => 0 case Some(v) => v
  }

  function ToColumns(vm: VirtualMachine): Columns {
    Columns(vm.connectionId, vm.nativeId, vm.biosUuid, vm.name, vm.powerState, vm.connectionState,
            OrNone(vm.totalVcpu), OrNone(vm.assignedMb), vm.configuredOs,
            vm.guest.availability, vm.guest.osName, vm.guest.osSource, vm.guest.hostname, vm.guest.observedAt,
            vm.hostNativeId)
  }

  function RowToDomain(row: VmRow): VirtualMachine {
    var c := row.columns;
    VirtualMachine(c.connectionId, c.nativeId, c.name, c.biosUuid, c.powerState, c.connectionState,
                   OrZero(c.vcpuCount), OrZero(c.memoryMb), c.configuredOs,
                   GuestInfo(c.guestAvailability, c.guestOsName, None, c.guestOsSource, c.guestHostname,
                             [], [], None, c.guestObservedAt),
                   c.hostNativeId)
  }

  function MergeGuest(incoming: VirtualMachine, previous: Option<VirtualMachine>): VirtualMachine {
    match previous
    case None => incoming
    case Some(p) => incoming.(guest := incoming.guest.WithFallback(Some(p.guest)))
  }

  // ---- One observation -------------------------------------------------------------------

  datatype Observation = Observation(vm: VirtualMachine, at: Instant)
  {
    function Key(): VmKey {
      (vm.connectionId, vm.nativeId)
    }
  }

  datatype Tally = Tally(created: nat, updated: nat, unmodified: nat)
  {
    function Plus(other: Tally): Tally {
      Tally(created + other.created, updated + other.updated, unmodified + other.unmodified)
    }

    function Total(): nat {
      created + updated + unmodified
    }
  }

  const NOTHING := Tally(0, 0, 0)

  type Rows = map<VmKey, VmRow>

  /** The row an observation leaves behind, given the row that was there. */
  function Refreshed(row: VmRow, o: Observation): VmRow {
    row.(columns := ToColumns(MergeGuest(o.vm, Some(RowToDomain(row)))), lastSeenAt := o.at)
  }

  function Observe(rows: Rows, o: Observation): Rows {
    rows[o.Key() := if o.Key() in rows then Refreshed(rows[o.Key()], o)
                    else VmRow(ToColumns(o.vm), Active, o.at, o.at)]
  }

  function TallyOne(rows: Rows, o: Observation): (t: Tally)
    ensures t.Total() == 1
  {
    if o.Key() !in rows then Tally(1, 0, 0)
    else if Refreshed(rows[o.Key()], o).columns.SameTracked(rows[o.Key()].columns) then Tally(0, 0, 1)
    else Tally(0, 1, 0)
  }

  /**
   What is counted: a new machine as created; a known one as updated exactly when some column changes, the time its
   guest values were read apart.
   */
  lemma CountTold(rows: Rows, o: Observation)
    ensures TallyOne(rows, o).created == if o.Key() in rows then 0 else 1
    ensures o.Key() in rows && rows[o.Key()].columns.Key() == o.Key() ==>
              var before, after := rows[o.Key()].columns, Observe(rows, o)[o.Key()].columns;
              var changed := after.(guestObservedAt := before.guestObservedAt) != before;
              TallyOne(rows, o) == Tally(0, if changed then 1 else 0, if changed then 0 else 1)
  {
    hide MergeGuest, RowToDomain;
    if o.Key() in rows {
      MergeKeepsKey(o.vm, RowToDomain(rows[o.Key()]));
    }
  }

  lemma MergeKeepsKey(vm: VirtualMachine, previous: VirtualMachine)
    ensures var merged := MergeGuest(vm, Some(previous));
            merged.connectionId == vm.connectionId && merged.nativeId == vm.nativeId
  {
  }

  // ---- Runs of observations --------------------------------------------------------------

  function Replay(rows: Rows, run: seq<Observation>): Rows {
    if run == [] then rows
    else Observe(Replay(rows, run[..|run| - 1]), run[|run| - 1])
  }

  function TallyOf(rows: Rows, run: seq<Observation>): Tally {
    if run == [] then NOTHING
    else TallyOf(rows, run[..|run| - 1]).Plus(TallyOne(Replay(rows, run[..|run| - 1]), run[|run| - 1]))
  }

  /** One batch is upserted under one timestamp. */
  function Stamped(vms: seq<VirtualMachine>, at: Instant): (run: seq<Observation>)
    ensures |run| == |vms|
    ensures forall i | 0 <= i < |vms| :: run[i] == Observation(vms[i], at)
  {
    seq(|vms|, i requires 0 <= i < |vms| => Observation(vms[i], at))
  }

  lemma StampedAppend(a: seq<VirtualMachine>, b: seq<VirtualMachine>, at: Instant)
    ensures Stamped(a + b, at) == Stamped(a, at) + Stamped(b, at)
  {
  }

  /** Cutting a run anywhere, so also into batches or pages, changes neither the rows nor the counts. */
  lemma {:induction false} ReplayInPieces(rows: Rows, a: seq<Observation>, b: seq<Observation>)
    ensures Replay(rows, a + b) == Replay(Replay(rows, a), b)
    decreases |b|
  {
    if b == [] {
      assert a + b == a;
    } else {
      var init := b[..|b| - 1];
      assert (a + b)[..|a + b| - 1] == a + init;
      ReplayInPieces(rows, a, init);
    }
  }

  lemma {:induction false} TallyInPieces(rows: Rows, a: seq<Observation>, b: seq<Observation>)
    ensures TallyOf(rows, a + b) == TallyOf(rows, a).Plus(TallyOf(Replay(rows, a), b))
    decreases |b|
  {
    hide Observe, TallyOne, Refreshed, Replay, Tally.Plus;
    PlusIsMonoid(TallyOf(rows, a), NOTHING, NOTHING);
    if b == [] {
      assert a + b == a;
    } else {
      var init, last := b[..|b| - 1], b[|b| - 1];
      assert (a + b)[..|a + b| - 1] == a + init && (a + b)[|a + b| - 1] == last;
      TallyInPieces(rows, a, init);
      ReplayInPieces(rows, a, init);
      PlusIsMonoid(TallyOf(rows, a), TallyOf(Replay(rows, a), init), TallyOne(Replay(rows, a + init), last));
    }
  }

  lemma PlusIsMonoid(a: Tally, b: Tally, c: Tally)
    ensures a.Plus(b).Plus(c) == a.Plus(b.Plus(c))
    ensures a.Plus(NOTHING) == a
  {
  }

  /** Every machine observed is counted once. */
  lemma {:induction false} TallyTotal(rows: Rows, run: seq<Observation>)
    ensures TallyOf(rows, run).Total() == |run|
    decreases |run|
  {
    if run == [] {
      assert TallyOf(rows, run) == NOTHING;
    } else {
      hide Replay, TallyOne, Tally.Plus, Tally.Total;
      TallyTotal(rows, run[..|run| - 1]);
      TotalOfSum(TallyOf(rows, run[..|run| - 1]), TallyOne(Replay(rows, run[..|run| - 1]), run[|run| - 1]));
    }
  }

  lemma TotalOfSum(a: Tally, b: Tally)
    ensures a.Plus(b).Total() == a.Total() + b.Total()
  {
  }
}
