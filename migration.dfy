// MigrationViewModel (ViewModels/Pages/MigrationViewModel.cs): the VM filter of
// the migration page, the migration queue (add the checked VMs once each,
// remove a task), stopping a running migration, the destination check and the
// network-mapping CSV reader. The simulated migration run itself is not part
// of this model.
module Migration {
  import opened Wrappers
  import opened Text
  import opened Models
  import opened Sequences

  const AllStates: string := "All States"
  const StoppedByUser: string := "Migration stopped by user"
  const CancelledByUser: string := "Cancelled by user"

  // ---- FilterVMs

  /** `FilterVMs(item)` with the page's power-state filter, search text and candidate switch. */
  predicate FilterVMs(item: Item<VirtualMachineInfo>, powerStateFilter: string, searchText: string, onlyCandidates: bool)
  {
    match item
    case Foreign => false
    case Entry(vm) =>
      (powerStateFilter == AllStates || vm.powerState == powerStateFilter)
      && (IsBlank(searchText)
          || Contains(ToLower(vm.name), ToLower(searchText))
          || Contains(ToLower(vm.cluster), ToLower(searchText))
          || Contains(ToLower(vm.datastore), ToLower(searchText)))
      && (!onlyCandidates || vm.isMigrationCandidate)
  }

  /**
   * The filter as three independent tests: the exact power state unless "All
   * States", the search text as a substring of name, cluster or datastore
   * ignoring case unless it is blank, and candidacy when asked for. Items that
   * are not VMs never pass.
   */
  lemma FilterVMsMeaning(item: Item<VirtualMachineInfo>, powerStateFilter: string, searchText: string, onlyCandidates: bool)
    ensures item.Foreign? ==> !FilterVMs(item, powerStateFilter, searchText, onlyCandidates)
    ensures item.Entry? ==>
      (FilterVMs(item, powerStateFilter, searchText, onlyCandidates) <==>
        ((powerStateFilter == AllStates || item.value.powerState == powerStateFilter)
         && (IsBlank(searchText)
             || ContainsIgnoreCase(item.value.name, searchText)
             || ContainsIgnoreCase(item.value.cluster, searchText)
             || ContainsIgnoreCase(item.value.datastore, searchText))
         && (onlyCandidates ==> item.value.isMigrationCandidate)))
  {
    if item.Entry? {
      var vm := item.value;
      LowerContainsIffContainsIgnoreCase(vm.name, searchText);
      LowerContainsIffContainsIgnoreCase(vm.cluster, searchText);
      LowerContainsIffContainsIgnoreCase(vm.datastore, searchText);
    }
  }

  /** With the filters as `ClearFilters` leaves them, every VM is shown. */
  lemma ClearedFiltersShowAll(vm: VirtualMachineInfo)
    ensures FilterVMs(Entry(vm), AllStates, "", false)
  {
  }

  // ---- The queue

  /** The names of the VMs in `vms`. */
  function VMNames(vms: seq<VirtualMachineInfo>): (r: seq<string>)
    ensures |r| == |vms| && forall k :: 0 <= k < |vms| ==> r[k] == vms[k].name
  {
    seq(|vms|, k requires 0 <= k < |vms| => vms[k].name)
  }

  /** The `ObjectName`s of the tasks in `q`. */
  function TaskNames(q: seq<MigrationTask>): (r: seq<string>)
    ensures |r| == |q| && forall k :: 0 <= k < |q| ==> r[k] == q[k].objectName
  {
    seq(|q|, k requires 0 <= k < |q| => q[k].objectName)
  }

  /** `SelectedVMs.Where(vm => vm.IsSelected)`. */
  function Checked(vms: seq<VirtualMachineInfo>): seq<VirtualMachineInfo>
    reads vms
  {
    if vms == [] then []
    else
      var rest := Checked(vms[..|vms| - 1]);
      var last := vms[|vms| - 1];
      if last.isSelected then rest + [last] else rest
  }

  /** The checked VMs are exactly the selected ones of the list, none invented. */
  lemma {:induction false} CheckedMembers(vms: seq<VirtualMachineInfo>)
    ensures |Checked(vms)| <= |vms|
    ensures forall k :: 0 <= k < |Checked(vms)| ==> Checked(vms)[k] in vms && Checked(vms)[k].isSelected
    ensures forall v :: v in vms && v.isSelected ==> v in Checked(vms)
  {
    if vms != [] {
      var init := vms[..|vms| - 1];
      var last := vms[|vms| - 1];
      CheckedMembers(init);
      assert forall v :: v in vms ==> v in init || v == last;
      var rest := Checked(init);
      if last.isSelected {
        assert forall k :: 0 <= k < |rest| ==> (rest + [last])[k] == rest[k];
      }
    }
  }

  /**
   * The names that the add loop appends when it meets `candidates` in order
   * with `existing` already queued: each name not queued by then, once.
   */
  function NewNames(existing: seq<string>, candidates: seq<string>): seq<string>
  {
    if candidates == [] then []
    else
      var p := NewNames(existing, candidates[..|candidates| - 1]);
      var x := candidates[|candidates| - 1];
      if x in existing || x in p then p else p + [x]
  }

  /**
   * The appended names are candidates not queued before; every candidate ends
   * up queued; and a queue without duplicate names keeps none.
   */
  lemma {:induction false} NewNamesProperties(existing: seq<string>, candidates: seq<string>)
    ensures var r := NewNames(existing, candidates);
      (forall k :: 0 <= k < |r| ==> r[k] in candidates && r[k] !in existing)
      && (forall c :: c in candidates ==> c in existing + r)
      && (Distinct(existing) ==> Distinct(existing + r))
    decreases |candidates|
  {
    if candidates != [] {
      var init := candidates[..|candidates| - 1];
      var p := NewNames(existing, init);
      var x := candidates[|candidates| - 1];
      NewNamesProperties(existing, init);
      assert forall c :: c in candidates ==> c in init || c == x;
      if !(x in existing || x in p) {
        assert forall k :: 0 <= k < |p| ==> (p + [x])[k] == p[k];
        assert existing + (p + [x]) == (existing + p) + [x];
      }
    }
  }

  lemma VMNamesStep(vms: seq<VirtualMachineInfo>, i: nat)
    requires i < |vms|
    ensures VMNames(vms[..i + 1]) == VMNames(vms[..i]) + [vms[i].name]
  {
    assert vms[..i + 1][..i] == vms[..i];
  }

  lemma TaskNamesSnoc(q: seq<MigrationTask>, t: MigrationTask)
    ensures TaskNames(q + [t]) == TaskNames(q) + [t.objectName]
  {
    assert (q + [t])[..|q|] == q;
  }

  /** Meeting one more candidate appends it exactly when it is not queued by then. */
  lemma NewNamesSnoc(existing: seq<string>, candidates: seq<string>, x: string)
    ensures NewNames(existing, candidates + [x]) ==
      NewNames(existing, candidates) + (if x in existing || x in NewNames(existing, candidates) then [] else [x])
  {
    assert (candidates + [x])[..|candidates|] == candidates;
  }

  /** Every task of `q` is a queued VM migration with the given details, as `AddSelectedVMsToQueue` creates them. */
  predicate NewQueuedTasks(q: seq<MigrationTask>, details: string)
    reads q
  {
    forall k :: 0 <= k < |q| ==>
      q[k].status == MigrationStatus.Queued && q[k].objectType == "VirtualMachine" && q[k].details == details
  }

  /** `Count(t => t.Status == MigrationStatus.Queued)`. */
  function CountQueued(q: seq<MigrationTask>): (n: nat)
    reads q
    ensures n <= |q|
  {
    if q == [] then 0
    else CountQueued(q[..|q| - 1]) + (if q[|q| - 1].status == MigrationStatus.Queued then 1 else 0)
  }

  lemma {:induction false} CountQueuedAppend(a: seq<MigrationTask>, b: seq<MigrationTask>)
    ensures CountQueued(a + b) == CountQueued(a) + CountQueued(b)
    decreases |b|
  {
    if b == [] {
      assert a + b == a;
    } else {
      assert (a + b)[..|a + b| - 1] == a + b[..|b| - 1];
      assert (a + b)[|a + b| - 1] == b[|b| - 1];
      CountQueuedAppend(a, b[..|b| - 1]);
    }
  }

  /** Removing a task lowers the pending count by one exactly when that task was queued. */
  lemma CountQueuedRemove(q: seq<MigrationTask>, t: MigrationTask)
    requires t in q
    ensures CountQueued(RemoveFirst(q, t)) == CountQueued(q) - (if t.status == MigrationStatus.Queued then 1 else 0)
  {
    var i := FirstIndex(q, t);
    assert q == q[..i] + [t] + q[i + 1..];
    CountQueuedAppend(q[..i] + [t], q[i + 1..]);
    CountQueuedAppend(q[..i], [t]);
    CountQueuedAppend(q[..i], q[i + 1..]);
    assert CountQueued([t]) == CountQueued([t][..0]) + (if t.status == MigrationStatus.Queued then 1 else 0);
  }

  // ---- StopMigration

  /**
   * The tasks `StopMigration` moves to the history when it walks `active` in
   * order: each task of `inProgress` at its first occurrence.
   */
  function CancelledTasks(active: seq<MigrationTask>, inProgress: set<MigrationTask>): seq<MigrationTask>
  {
    if active == [] then []
    else
      var init := active[..|active| - 1];
      var t := active[|active| - 1];
      CancelledTasks(init, inProgress) + (if t in inProgress && t !in init then [t] else [])
  }

  /** The history gains exactly the in-progress active tasks, each once. */
  lemma {:induction false} CancelledTasksMembers(active: seq<MigrationTask>, inProgress: set<MigrationTask>)
    ensures forall t :: t in CancelledTasks(active, inProgress) <==> t in active && t in inProgress
    ensures Distinct(CancelledTasks(active, inProgress))
  {
    if active != [] {
      var init := active[..|active| - 1];
      var t := active[|active| - 1];
      assert active == init + [t];
      CancelledTasksMembers(init, inProgress);
      var r := CancelledTasks(init, inProgress);
      if t in inProgress && t !in init {
        assert t !in r;
        forall a, b | 0 <= a < b < |r + [t]|
          ensures (r + [t])[a] != (r + [t])[b]
        {
          if b < |r| {
            assert (r + [t])[a] == r[a] && (r + [t])[b] == r[b];
          } else {
            assert (r + [t])[a] == r[a];
          }
        }
      }
    }
  }

  /** One step of the walk: the task at `i` is taken when it is in progress and met for the first time. */
  lemma CancelledTasksStep(active: seq<MigrationTask>, i: nat, inProgress: set<MigrationTask>)
    requires i < |active|
    ensures CancelledTasks(active[..i + 1], inProgress) ==
      CancelledTasks(active[..i], inProgress) + (if active[i] in inProgress && active[i] !in active[..i] then [active[i]] else [])
    ensures forall t :: t in active[..i + 1] <==> t in active[..i] || t == active[i]
  {
    assert active[..i + 1][..i] == active[..i];
    assert active[..i + 1] == active[..i] + [active[i]];
  }

  // ---- Settings and network mappings

  /** `ValidateMigrationSettings`: the message of the first missing destination, or None when both are chosen. */
  function SettingsError(cluster: string, datastore: string): (r: Option<string>)
    ensures r.None? <==> cluster != "" && datastore != ""
    ensures cluster == "" ==> r == Some("Please select a destination cluster")
    ensures cluster != "" && datastore == "" ==> r == Some("Please select a destination datastore")
  {
    if cluster == "" then Some("Please select a destination cluster")
    else if datastore == "" then Some("Please select a destination datastore")
    else None
  }

  /** The mappings read from data lines: trimmed fields 0 and 1 of each line with at least two comma-separated parts. */
  function MappingsOf(lines: seq<string>): (r: seq<NetworkMapping>)
    ensures |r| <= |lines|
  {
    if lines == [] then []
    else
      var init := MappingsOf(lines[..|lines| - 1]);
      var parts := Split(lines[|lines| - 1], ',');
      if |parts| >= 2 then init + [NetworkMapping(Trim(parts[0]), Trim(parts[1]))] else init
  }

  /** `LoadNetworkMappingsFromFile` on the file's lines: the header line is skipped. */
  function ParseMappings(lines: seq<string>): seq<NetworkMapping>
  {
    if lines == [] then [] else MappingsOf(lines[1..])
  }

  /** A field that can be written between commas and read back unchanged. */
  predicate CsvField(s: string)
  {
    ',' !in s && (|s| > 0 ==> !IsWhiteSpace(s[0]) && !IsWhiteSpace(s[|s| - 1]))
  }

  /** The CSV line of a mapping. */
  function MappingLine(m: NetworkMapping): string
  {
    m.sourceNetwork + "," + m.destinationNetwork
  }

  function MappingLines(ms: seq<NetworkMapping>): (r: seq<string>)
    ensures |r| == |ms| && forall k :: 0 <= k < |ms| ==> r[k] == MappingLine(ms[k])
  {
    seq(|ms|, k requires 0 <= k < |ms| => MappingLine(ms[k]))
  }

  /** The line of one mapping with comma-free, trimmed fields reads back as that mapping. */
  lemma MappingLineParses(m: NetworkMapping)
    requires CsvField(m.sourceNetwork) && CsvField(m.destinationNetwork)
    ensures var parts := Split(MappingLine(m), ',');
      |parts| >= 2 && NetworkMapping(Trim(parts[0]), Trim(parts[1])) == m
  {
    var fields := [m.sourceNetwork, m.destinationNetwork];
    assert fields[1..] == [m.destinationNetwork];
    assert Join(fields, ',') == MappingLine(m);
    SplitJoin(fields, ',');
    TrimOfTrimmed(m.sourceNetwork);
    TrimOfTrimmed(m.destinationNetwork);
  }

  /** Reading back the lines of mappings whose fields are comma-free and trimmed gives the mappings. */
  lemma {:induction false} MappingsRoundTrip(ms: seq<NetworkMapping>)
    requires forall k :: 0 <= k < |ms| ==> CsvField(ms[k].sourceNetwork) && CsvField(ms[k].destinationNetwork)
    ensures MappingsOf(MappingLines(ms)) == ms
    decreases |ms|
  {
    if ms == [] {
      assert MappingLines(ms) == [];
    } else {
      var init := ms[..|ms| - 1];
      var m := ms[|ms| - 1];
      assert ms == init + [m];
      var lines := MappingLines(ms);
      assert lines[..|lines| - 1] == MappingLines(init);
      assert lines[|lines| - 1] == MappingLine(m);
      MappingsRoundTrip(init);
      MappingLineParses(m);
      var parts := Split(MappingLine(m), ',');
      assert MappingsOf(lines) == MappingsOf(MappingLines(init)) + [NetworkMapping(Trim(parts[0]), Trim(parts[1]))];
    }
  }

  /** The header line is never read as a mapping, whatever it holds. */
  lemma HeaderSkipped(header: string, ms: seq<NetworkMapping>)
    requires forall k :: 0 <= k < |ms| ==> CsvField(ms[k].sourceNetwork) && CsvField(ms[k].destinationNetwork)
    ensures ParseMappings([header] + MappingLines(ms)) == ms
  {
    assert ([header] + MappingLines(ms))[1..] == MappingLines(ms);
    MappingsRoundTrip(ms);
  }

  /** The details of a task `AddSelectedVMsToQueue` creates. */
  function TaskDetails(migrationType: string, cluster: string): string
  {
    "Type: " + migrationType + ", Destination: " + cluster
  }

  /** The message after adding `n` checked VMs. */
  function AddedText(n: nat): string
  {
    "Added " + NatToString(n) + " VMs to migration queue"
  }

  /** The message after removing the task of `name` from the queue. */
  function RemovedFromQueueText(name: string): string
  {
    "Removed " + name + " from migration queue"
  }

  /**
   * The loop of `AddSelectedVMsToQueue`: appends to `q0` one new Queued task
   * per VM of `selected` whose name is not queued by then.
   */
  method EnqueueNew(q0: seq<MigrationTask>, selected: seq<VirtualMachineInfo>, details: string)
    returns (queue: seq<MigrationTask>)
    ensures |queue| >= |q0| && queue[..|q0|] == q0
    ensures TaskNames(queue) == TaskNames(q0) + NewNames(TaskNames(q0), VMNames(selected))
    ensures forall k :: |q0| <= k < |queue| ==> fresh(queue[k])
    ensures NewQueuedTasks(queue[|q0|..], details)
    ensures CountQueued(queue) == CountQueued(q0) + |queue| - |q0|
  {
    ghost var added: seq<MigrationTask> := [];
    queue := q0;
    var i := 0;
    while i < |selected|
      invariant 0 <= i <= |selected|
      invariant queue == q0 + added
      invariant TaskNames(queue) == TaskNames(q0) + NewNames(TaskNames(q0), VMNames(selected[..i]))
      invariant forall k :: 0 <= k < |added| ==> fresh(added[k])
      invariant NewQueuedTasks(added, details)
    {
      var vm := selected[i];
      VMNamesStep(selected, i);
      NewNamesSnoc(TaskNames(q0), VMNames(selected[..i]), vm.name);
      if vm.name !in TaskNames(queue) {
        var task := new MigrationTask(vm.name, "VirtualMachine", MigrationStatus.Queued, details);
        TaskNamesSnoc(queue, task);
        queue := queue + [task];
        added := added + [task];
      }
      i := i + 1;
    }
    assert selected[..i] == selected;
    assert queue[|q0|..] == added;
    CountQueuedAllQueued(added, details);
    CountQueuedAppend(q0, added);
  }

  /**
   * The loop of `StopMigration`: walks `active` in order, cancels each
   * in-progress task and returns the tasks it cancelled, in that order.
   */
  method CancelInProgress(active: seq<MigrationTask>) returns (cancelled: seq<MigrationTask>)
    modifies set t | t in active
    ensures cancelled == CancelledTasks(active, old(set t | t in active && t.status == MigrationStatus.InProgress))
    ensures forall t :: t in active ==>
      if old(t.status) == MigrationStatus.InProgress then t.status == MigrationStatus.Cancelled && t.details == CancelledByUser
      else t.status == old(t.status) && t.details == old(t.details)
  {
    ghost var s0 := set t | t in active && t.status == MigrationStatus.InProgress;
    cancelled := [];
    var i := 0;
    while i < |active|
      invariant 0 <= i <= |active|
      invariant cancelled == CancelledTasks(active[..i], s0)
      invariant forall t :: t in active ==>
        if t in s0 && t in active[..i] then t.status == MigrationStatus.Cancelled && t.details == CancelledByUser
        else if t in s0 then t.status == MigrationStatus.InProgress && t.details == old(t.details)
        else t.status == old(t.status) && t.details == old(t.details)
    {
      var task := active[i];
      CancelledTasksStep(active, i, s0);
      assert task in active;
      var c := CancelIfInProgress(task);
      if c {
        cancelled := cancelled + [task];
      }
      i := i + 1;
    }
    assert active[..i] == active;
  }

  /** The step `StopMigration` takes on each active task: an in-progress task becomes cancelled by the user. */
  method CancelIfInProgress(task: MigrationTask) returns (cancelled: bool)
    modifies task
    ensures cancelled <==> old(task.status) == MigrationStatus.InProgress
    ensures cancelled ==> task.status == MigrationStatus.Cancelled && task.details == CancelledByUser
    ensures !cancelled ==> task.status == old(task.status) && task.details == old(task.details)
  {
    cancelled := task.status == MigrationStatus.InProgress;
    if cancelled {
      task.status := MigrationStatus.Cancelled;
      task.details := CancelledByUser;
    }
  }

  class MigrationViewModel {
    var selectedVMs: seq<VirtualMachineInfo>
    var migrationQueue: seq<MigrationTask>
    var activeMigrations: seq<MigrationTask>
    var migrationHistory: seq<MigrationTask>
    var selectedMigrationType: string
    var selectedDestinationCluster: string
    var selectedDestinationDatastore: string
    var networkMappings: seq<NetworkMapping>
    var isMigrationInProgress: bool
    var currentOperationStatus: string
    var pendingMigrations: int
    var vmSearchText: string
    var selectedPowerStateFilter: string
    var showOnlyMigrationCandidates: bool

    constructor ()
      ensures selectedVMs == [] && migrationQueue == [] && activeMigrations == [] && migrationHistory == []
      ensures selectedMigrationType == "Cold Migration" && selectedDestinationCluster == "" && selectedDestinationDatastore == ""
      ensures !isMigrationInProgress && pendingMigrations == 0 && currentOperationStatus == "Ready to migrate"
      ensures vmSearchText == "" && selectedPowerStateFilter == AllStates && showOnlyMigrationCandidates
      ensures networkMappings == []
    {
      selectedVMs := [];
      migrationQueue := [];
      activeMigrations := [];
      migrationHistory := [];
      selectedMigrationType := "Cold Migration";
      selectedDestinationCluster := "";
      selectedDestinationDatastore := "";
      networkMappings := [];
      isMigrationInProgress := false;
      currentOperationStatus := "Ready to migrate";
      pendingMigrations := 0;
      vmSearchText := "";
      selectedPowerStateFilter := AllStates;
      showOnlyMigrationCandidates := true;
    }

    /**
     * `AddSelectedVMsToQueue`: one new Queued task per checked VM whose name is
     * not queued yet; the message counts every checked VM, skipped ones too.
     */
    method AddSelectedVMsToQueue()
      modifies this`migrationQueue, this`pendingMigrations, this`currentOperationStatus
      ensures old(Checked(selectedVMs)) == [] ==>
        migrationQueue == old(migrationQueue) && pendingMigrations == old(pendingMigrations)
        && currentOperationStatus == "No VMs selected for migration"
      ensures old(Checked(selectedVMs)) != [] ==>
        |migrationQueue| >= |old(migrationQueue)| && migrationQueue[..|old(migrationQueue)|] == old(migrationQueue)
      ensures old(Checked(selectedVMs)) != [] ==>
        TaskNames(migrationQueue) == TaskNames(old(migrationQueue)) + NewNames(TaskNames(old(migrationQueue)), VMNames(old(Checked(selectedVMs))))
      ensures old(Checked(selectedVMs)) != [] ==>
        (forall k :: |old(migrationQueue)| <= k < |migrationQueue| ==> fresh(migrationQueue[k]))
        && NewQueuedTasks(migrationQueue[|old(migrationQueue)|..], old(TaskDetails(selectedMigrationType, selectedDestinationCluster)))
      ensures old(Checked(selectedVMs)) != [] ==>
        pendingMigrations == CountQueued(migrationQueue)
        && pendingMigrations == old(CountQueued(migrationQueue)) + |migrationQueue| - |old(migrationQueue)|
        && currentOperationStatus == AddedText(|old(Checked(selectedVMs))|)
    {
      var selected := Checked(selectedVMs);
      if selected == [] {
        currentOperationStatus := "No VMs selected for migration";
        return;
      }
      var details := TaskDetails(selectedMigrationType, selectedDestinationCluster);
      var queue := EnqueueNew(migrationQueue, selected, details);
      var pending := CountQueued(queue);
      currentOperationStatus := AddedText(|selected|);
      pendingMigrations := pending;
      migrationQueue := queue;
    }

    /** `RemoveFromQueue(task)`: only a task that is in the queue is removed, and then only its first occurrence. */
    method RemoveFromQueue(task: Option<MigrationTask>)
      modifies this`migrationQueue, this`pendingMigrations, this`currentOperationStatus
      ensures task.None? || task.value !in old(migrationQueue) ==>
        migrationQueue == old(migrationQueue) && pendingMigrations == old(pendingMigrations)
        && currentOperationStatus == old(currentOperationStatus)
      ensures task.Some? && task.value in old(migrationQueue) ==>
        migrationQueue == RemoveFirst(old(migrationQueue), task.value)
        && |migrationQueue| == |old(migrationQueue)| - 1
        && pendingMigrations == CountQueued(migrationQueue)
        && pendingMigrations == old(CountQueued(migrationQueue)) - (if old(task.value.status) == MigrationStatus.Queued then 1 else 0)
        && currentOperationStatus == RemovedFromQueueText(task.value.objectName)
    {
      if task.Some? && task.value in migrationQueue {
        var t := task.value;
        CountQueuedRemove(migrationQueue, t);
        RemoveFirstMultiset(migrationQueue, t);
        var queue := RemoveFirst(migrationQueue, t);
        var pending := CountQueued(queue);
        currentOperationStatus := RemovedFromQueueText(t.objectName);
        pendingMigrations := pending;
        migrationQueue := queue;
      }
    }

    /**
     * `StopMigration`: while a migration runs, cancels every in-progress active
     * task, moves each to the history once and empties the active list.
     */
    method StopMigration()
      modifies this`isMigrationInProgress, this`currentOperationStatus, this`migrationHistory, this`activeMigrations
      modifies activeMigrations
      ensures migrationQueue == old(migrationQueue) && pendingMigrations == old(pendingMigrations)
      ensures !old(isMigrationInProgress) ==>
        activeMigrations == old(activeMigrations) && migrationHistory == old(migrationHistory)
        && currentOperationStatus == old(currentOperationStatus) && !isMigrationInProgress
        && forall t :: t in old(activeMigrations) ==> t.status == old(t.status) && t.details == old(t.details)
      ensures old(isMigrationInProgress) ==>
        !isMigrationInProgress && currentOperationStatus == StoppedByUser && activeMigrations == []
        && migrationHistory == old(migrationHistory)
          + CancelledTasks(old(activeMigrations), old(set t | t in activeMigrations && t.status == MigrationStatus.InProgress))
        && forall t :: t in old(activeMigrations) ==>
             if old(t.status) == MigrationStatus.InProgress then t.status == MigrationStatus.Cancelled && t.details == CancelledByUser
             else t.status == old(t.status) && t.details == old(t.details)
    {
      if !isMigrationInProgress {
        return;
      }
      isMigrationInProgress := false;
      currentOperationStatus := StoppedByUser;
      ghost var s0 := set t | t in activeMigrations && t.status == MigrationStatus.InProgress;
      assert s0 == old(set t | t in activeMigrations && t.status == MigrationStatus.InProgress);
      var cancelled := CancelInProgress(activeMigrations);
      migrationHistory := migrationHistory + cancelled;
      activeMigrations := [];
    }

    /** `ValidateMigrationSettings`: passes when both destinations are chosen, else reports the first missing one. */
    method ValidateMigrationSettings() returns (ok: bool)
      modifies this`currentOperationStatus
      ensures ok <==> SettingsError(selectedDestinationCluster, selectedDestinationDatastore).None?
      ensures selectedDestinationCluster == old(selectedDestinationCluster)
      ensures selectedDestinationDatastore == old(selectedDestinationDatastore)
      ensures migrationQueue == old(migrationQueue) && activeMigrations == old(activeMigrations)
      ensures migrationHistory == old(migrationHistory) && pendingMigrations == old(pendingMigrations)
      ensures currentOperationStatus ==
        (if ok then old(currentOperationStatus)
         else SettingsError(selectedDestinationCluster, selectedDestinationDatastore).value)
    {
      if selectedDestinationCluster == "" {
        currentOperationStatus := "Please select a destination cluster";
        return false;
      }
      if selectedDestinationDatastore == "" {
        currentOperationStatus := "Please select a destination datastore";
        return false;
      }
      return true;
    }

    /**
     * `LoadNetworkMappingsFromFile`: clears the mappings, then adds one per
     * usable data line of the file; `lines` is what reading the file gives,
     * and a read that throws leaves the mappings cleared.
     */
    method LoadNetworkMappingsFromFile(lines: Result<seq<string>>) returns (o: Outcome)
      modifies this`networkMappings
      ensures lines.Failure? ==> o == Fail(lines.error) && networkMappings == []
      ensures lines.Success? ==> o == Pass && networkMappings == ParseMappings(lines.value)
      ensures migrationQueue == old(migrationQueue) && activeMigrations == old(activeMigrations)
      ensures migrationHistory == old(migrationHistory) && currentOperationStatus == old(currentOperationStatus)
    {
      networkMappings := [];
      if lines.Failure? {
        return Fail(lines.error);
      }
      o := Pass;
      var all := lines.value;
      if all == [] {
        return;
      }
      var data := all[1..];
      var i := 0;
      while i < |data|
        invariant 0 <= i <= |data|
        invariant networkMappings == MappingsOf(data[..i])
        invariant migrationQueue == old(migrationQueue) && activeMigrations == old(activeMigrations)
        invariant migrationHistory == old(migrationHistory) && currentOperationStatus == old(currentOperationStatus)
      {
        assert data[..i + 1][..i] == data[..i];
        var parts := Split(data[i], ',');
        if |parts| >= 2 {
          networkMappings := networkMappings + [NetworkMapping(Trim(parts[0]), Trim(parts[1]))];
        }
        i := i + 1;
      }
      assert data[..i] == data;
    }

    /**
     * `LoadNetworkMappings`: `chosen` is the file picked in the open dialog
     * (`None` when it is cancelled) and `lines` what reading it gives. The
     * status names the file, or the read error the command catches.
     */
    method LoadNetworkMappings(chosen: Option<string>, lines: Result<seq<string>>)
      modifies this`networkMappings, this`currentOperationStatus
      ensures chosen.None? ==>
        networkMappings == old(networkMappings) && currentOperationStatus == old(currentOperationStatus)
      ensures chosen.Some? && lines.Failure? ==>
        networkMappings == [] && currentOperationStatus == "Failed to load network mappings: " + Message(lines.error)
      ensures chosen.Some? && lines.Success? ==>
        networkMappings == ParseMappings(lines.value)
        && currentOperationStatus == "Loaded network mappings from " + chosen.value
      ensures migrationQueue == old(migrationQueue) && activeMigrations == old(activeMigrations)
      ensures migrationHistory == old(migrationHistory)
    {
      if chosen.None? {
        return;
      }
      var o := LoadNetworkMappingsFromFile(lines);
      if o.Fail? {
        currentOperationStatus := "Failed to load network mappings: " + Message(o.error);
      } else {
        currentOperationStatus := "Loaded network mappings from " + chosen.value;
      }
    }

    /** `ClearFilters`: search empty, all power states, candidates not required. */
    method ClearFilters()
      modifies this`vmSearchText, this`selectedPowerStateFilter, this`showOnlyMigrationCandidates, this`currentOperationStatus
      ensures vmSearchText == "" && selectedPowerStateFilter == AllStates && !showOnlyMigrationCandidates
      ensures currentOperationStatus == "Filters cleared"
      ensures forall vm: VirtualMachineInfo :: FilterVMs(Entry(vm), selectedPowerStateFilter, vmSearchText, showOnlyMigrationCandidates)
      ensures migrationQueue == old(migrationQueue) && selectedVMs == old(selectedVMs)
    {
      vmSearchText := "";
      selectedPowerStateFilter := AllStates;
      showOnlyMigrationCandidates := false;
      currentOperationStatus := "Filters cleared";
    }
  }

  /** Tasks that are all queued count in full. */
  lemma {:induction false} CountQueuedAllQueued(q: seq<MigrationTask>, details: string)
    requires NewQueuedTasks(q, details)
    ensures CountQueued(q) == |q|
    decreases |q|
  {
    if q != [] {
      CountQueuedAllQueued(q[..|q| - 1], details);
    }
  }
}
