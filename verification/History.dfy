/**
 What the inventory holds after any run of observations, told from each machine's own history and
 nothing else: the last-known guest values of src/domain/values.py:41-60 and
 src/infrastructure/repository/vm_repo.py:266-320, over runs of every length.
 */
module History {
  import opened Common
  import opened Domain
  import opened Inventory

  /** The observations of one machine, in order. */
  function Of(run: seq<Observation>, key: VmKey): (h: seq<Observation>)
    ensures forall o <- h :: o.Key() == key
  {
    if run == [] then []
    else
      var h := Of(run[..|run| - 1], key);
      if run[|run| - 1].Key() == key then h + [run[|run| - 1]] else h
  }

  function KeysOf(run: seq<Observation>): set<VmKey> {
    set o | o in run :: o.Key()
  }

  /** The observation that last told something about the guest: the latest available one, or the first of all. */
  function GuestSource(h: seq<Observation>): (i: nat)
    requires h != []
    ensures i < |h|
    ensures forall j | i < j < |h| :: !h[j].vm.guest.IsCollected()
    ensures h[i].vm.guest.IsCollected() || i == 0
  {
    if |h| == 1 || h[|h| - 1].vm.guest.IsCollected() then |h| - 1
    else GuestSource(h[..|h| - 1])
  }

  /** The row a machine's history settles to. */
  function Settled(h: seq<Observation>): VmRow
    requires h != []
  {
    var last, guest := h[|h| - 1], h[GuestSource(h)].vm.guest;
    VmRow(ToColumns(last.vm).(guestOsName := guest.osName,
                              guestOsSource := guest.osSource,
                              guestHostname := guest.hostname,
                              guestObservedAt := guest.observedAt),
          Active, h[0].at, last.at)
  }

  /** One more observation refreshes a settled row to the settled row of the longer history. */
  lemma SettledStep(h: seq<Observation>, o: Observation)
    requires h != []
    ensures Settled(h + [o]) == Refreshed(Settled(h), o)
  {
    assert (h + [o])[..|h + [o]| - 1] == h;
  }

  /**
   After any run from an empty inventory, there is one row for each machine ever observed, and each row is
   what that machine's own history settles to.
   */
  lemma {:induction false} RowsAreSettledHistories(run: seq<Observation>)
    ensures Replay(map[], run).Keys == KeysOf(run)
    ensures forall k <- Replay(map[], run) :: Of(run, k) != [] && Replay(map[], run)[k] == Settled(Of(run, k))
    decreases |run|
  {
    hide Refreshed, ToColumns, Settled;
    if run != [] {
      var init, o := run[..|run| - 1], run[|run| - 1];
      RowsAreSettledHistories(init);
      assert run == init + [o];
      assert KeysOf(run) == KeysOf(init) + {o.Key()};
      NoHistoryWithoutKey(init, o.Key());
      if o.Key() in Replay(map[], init) {
        SettledStep(Of(init, o.Key()), o);
      } else {
        assert Of(run, o.Key()) == [o];
        SettledFirst(o);
      }
    }
  }

  lemma {:induction false} NoHistoryWithoutKey(run: seq<Observation>, key: VmKey)
    ensures key in KeysOf(run) <==> Of(run, key) != []
    decreases |run|
  {
    if run != [] {
      NoHistoryWithoutKey(run[..|run| - 1], key);
      assert run == run[..|run| - 1] + [run[|run| - 1]];
    }
  }

  lemma SettledFirst(o: Observation)
    ensures Settled([o]) == VmRow(ToColumns(o.vm), Active, o.at, o.at)
  {
  }

  /**
   Guest values survive any number of observations made while the tools were down: they are those of the
   latest observation that had them, their time included; only the availability is the latest.
   */
  lemma LastKnownGuest(run: seq<Observation>, key: VmKey)
    requires key in KeysOf(run)
    ensures key in Replay(map[], run) && Of(run, key) != []
    ensures var h := Of(run, key);
            var c, guest := Replay(map[], run)[key].columns, h[GuestSource(h)].vm.guest;
            && c.guestAvailability == h[|h| - 1].vm.guest.availability
            && c.guestOsName == guest.osName
            && c.guestOsSource == guest.osSource
            && c.guestHostname == guest.hostname
            && c.guestObservedAt == guest.observedAt
  {
    hide Replay, Of, GuestSource, KeysOf;
    RowsAreSettledHistories(run);
  }

  /**
   All other columns are those of the latest observation, a count of zero being stored as unknown; the row is active,
   and carries the times of the first and the latest observation.
   */
  lemma LatestObservation(run: seq<Observation>, key: VmKey)
    requires key in KeysOf(run)
    ensures key in Replay(map[], run) && Of(run, key) != []
    ensures var h := Of(run, key);
            var row, last := Replay(map[], run)[key], h[|h| - 1];
            var c, vm := row.columns, last.vm;
            && c.connectionId == key.0 == vm.connectionId && c.nativeId == key.1 == vm.nativeId
            && c.name == vm.name && c.powerState == vm.powerState && c.connectionState == vm.connectionState
            && c.biosUuid == vm.biosUuid && c.configuredOs == vm.configuredOs && c.hostNativeId == vm.hostNativeId
            && (if vm.totalVcpu == 0 then c.vcpuCount == None else c.vcpuCount == Some(vm.totalVcpu))
            && (if vm.assignedMb == 0 then c.memoryMb == None else c.memoryMb == Some(vm.assignedMb))
            && row.lifecycle == Active && row.firstSeenAt == h[0].at && row.lastSeenAt == last.at
  {
    hide Replay, Of, GuestSource, KeysOf;
    RowsAreSettledHistories(run);
    assert Of(run, key)[|Of(run, key)| - 1] in Of(run, key);
  }

  /** The observation the guest values come from: the latest with tools available, or the first when none was. */
  lemma WhereGuestValuesComeFrom(h: seq<Observation>)
    requires h != []
    ensures var i := GuestSource(h);
            && (forall j | i < j < |h| :: h[j].vm.guest.availability != Available)
            && (h[i].vm.guest.availability == Available
                || (i == 0 && forall j | 0 <= j < |h| :: h[j].vm.guest.availability != Available))
  {
    hide GuestSource;
  }

  /**
   Runs that differ only in how the observations of different machines are interleaved build the same
   inventory: collections of different connections cannot disturb each other.
   */
  lemma InterleavingIrrelevant(a: seq<Observation>, b: seq<Observation>)
    requires forall k: VmKey :: Of(a, k) == Of(b, k)
    ensures Replay(map[], a) == Replay(map[], b)
  {
    hide Settled, Replay, Of;
    RowsAreSettledHistories(a);
    RowsAreSettledHistories(b);
    forall k: VmKey ensures k in KeysOf(a) <==> k in KeysOf(b) {
      NoHistoryWithoutKey(a, k);
      NoHistoryWithoutKey(b, k);
    }
  }

  // ---- Stability -------------------------------------------------------------------------

  /** A run says nothing about machines it does not observe. */
  lemma {:induction false} OthersUntouched(rows: Rows, run: seq<Observation>, key: VmKey)
    requires key !in KeysOf(run)
    ensures key in Replay(rows, run) <==> key in rows
    ensures key in rows ==> Replay(rows, run)[key] == rows[key]
    decreases |run|
  {
    hide Refreshed, ToColumns;
    if run != [] {
      var init := run[..|run| - 1];
      assert run == init + [run[|run| - 1]];
      assert KeysOf(init) <= KeysOf(run) && run[|run| - 1].Key() in KeysOf(run);
      OthersUntouched(rows, init, key);
    }
  }

  /** No row ever disappears, and each keeps the time it was first seen and its lifecycle. */
  lemma {:induction false} RowsStay(rows: Rows, run: seq<Observation>)
    ensures Replay(rows, run).Keys == rows.Keys + KeysOf(run)
    ensures forall k <- rows :: Replay(rows, run)[k].firstSeenAt == rows[k].firstSeenAt
              && Replay(rows, run)[k].lifecycle == rows[k].lifecycle
    decreases |run|
  {
    if run != [] {
      hide Observe, KeysOf;
      var init, o := run[..|run| - 1], run[|run| - 1];
      RowsStay(rows, init);
      RowStays(Replay(rows, init), o);
      OneMoreKey(init, o);
      assert run == init + [o];
    }
  }

  lemma OneMoreKey(run: seq<Observation>, o: Observation)
    ensures KeysOf(run + [o]) == KeysOf(run) + {o.Key()}
  {
  }

  lemma RowStays(rows: Rows, o: Observation)
    ensures Observe(rows, o).Keys == rows.Keys + {o.Key()}
    ensures forall k <- rows :: Observe(rows, o)[k].firstSeenAt == rows[k].firstSeenAt
              && Observe(rows, o)[k].lifecycle == rows[k].lifecycle
  {
    hide ToColumns;
  }

  // ---- Collecting the same again ---------------------------------------------------------

  /** The same machine reported again: everything alike but the time its guest values were read. */
  predicate SameReport(v: VirtualMachine, w: VirtualMachine) {
    w == v.(guest := v.guest.(observedAt := w.guest.observedAt))
  }

  lemma SameReportIsNoUpdate(before: Rows, o: Observation, now: Rows, again: Observation)
    requires SameReport(o.vm, again.vm)
    requires again.Key() in now && now[again.Key()] == Observe(before, o)[o.Key()]
    ensures TallyOne(now, again) == Tally(0, 0, 1)
  {
  }

  ghost predicate DistinctKeys(run: seq<Observation>) {
    forall i, j | 0 <= i < j < |run| :: run[i].Key() != run[j].Key()
  }

  /** Right after a run over distinct machines, each row is what its one observation left. */
  lemma RowOfDistinct(rows: Rows, run: seq<Observation>, i: nat)
    requires DistinctKeys(run) && i < |run|
    ensures run[i].Key() in Replay(rows, run)
    ensures Replay(rows, run)[run[i].Key()] == Observe(Replay(rows, run[..i]), run[i])[run[i].Key()]
  {
    hide Refreshed, Observe;
    var head := run[..i + 1];
    assert head[..i] == run[..i];
    assert run == head + run[i + 1..];
    ReplayInPieces(rows, head, run[i + 1..]);
    OthersUntouched(Replay(rows, head), run[i + 1..], run[i].Key());
    ObservedIsKnown(Replay(rows, run[..i]), run[i]);
  }

  lemma ObservedIsKnown(rows: Rows, o: Observation)
    ensures o.Key() in Observe(rows, o)
  {
  }

  /** Collecting an unchanged estate of distinct machines again creates and updates nothing. */
  lemma RecollectionChangesNothing(rows: Rows, run: seq<Observation>, again: seq<Observation>)
    requires DistinctKeys(run) && |again| == |run|
    requires forall i | 0 <= i < |run| :: SameReport(run[i].vm, again[i].vm)
    ensures TallyOf(Replay(rows, run), again) == Tally(0, 0, |run|)
  {
    RecollectedPrefix(rows, run, again, |run|);
    assert again[..|run|] == again;
  }

  lemma {:induction false} RecollectedPrefix(rows: Rows, run: seq<Observation>, again: seq<Observation>, n: nat)
    requires DistinctKeys(run) && |again| == |run| && n <= |run|
    requires forall i | 0 <= i < |run| :: SameReport(run[i].vm, again[i].vm)
    ensures TallyOf(Replay(rows, run), again[..n]) == Tally(0, 0, n)
  {
    hide Refreshed, Observe, TallyOne, Replay;
    if n > 0 {
      RecollectedPrefix(rows, run, again, n - 1);
      assert again[..n][..n - 1] == again[..n - 1];
      OneRecollected(rows, run, again, n - 1);
    }
  }

  lemma OneRecollected(rows: Rows, run: seq<Observation>, again: seq<Observation>, i: nat)
    requires DistinctKeys(run) && |again| == |run| && i < |run|
    requires forall k | 0 <= k < |run| :: SameReport(run[k].vm, again[k].vm)
    ensures TallyOne(Replay(Replay(rows, run), again[..i]), again[i]) == Tally(0, 0, 1)
  {
    var key := again[i].Key();
    assert run[i].Key() == key && forall k | 0 <= k < i :: again[k].Key() == run[k].Key();
    hide Refreshed, Observe, TallyOne, Replay, SameReport;
    RowOfDistinct(rows, run, i);
    OthersUntouched(Replay(rows, run), again[..i], key);
    SameReportIsNoUpdate(Replay(rows, run[..i]), run[i], Replay(Replay(rows, run), again[..i]), again[i]);
  }
}
