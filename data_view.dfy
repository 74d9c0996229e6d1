// DataViewModel (ViewModels/Pages/DataViewModel.cs): the VM inventory page. Its
// filter over five settings, the OS classification of guest OS strings, the
// summary counters, clearing the filters and selecting or unselecting VMs.
module DataView {
  import opened Text
  import opened Models

  const AllVCenters: string := "All vCenters"
  const AllStates: string := "All States"
  const AllOs: string := "All OS"

  /** `GetOsType(guestOS)`: "Windows" wins over the Linux keywords, and everything else is "Other". */
  function GetOsType(guestOS: string): (r: string)
    ensures r == "Windows" || r == "Linux" || r == "Other"
    ensures r == "Windows" <==> ContainsIgnoreCase(guestOS, "Windows")
    ensures r == "Linux" <==>
      !ContainsIgnoreCase(guestOS, "Windows")
      && (ContainsIgnoreCase(guestOS, "Linux") || ContainsIgnoreCase(guestOS, "Ubuntu")
          || ContainsIgnoreCase(guestOS, "RedHat") || ContainsIgnoreCase(guestOS, "CentOS"))
  {
    if ContainsIgnoreCase(guestOS, "Windows") then "Windows"
    else if ContainsIgnoreCase(guestOS, "Linux") || ContainsIgnoreCase(guestOS, "Ubuntu")
         || ContainsIgnoreCase(guestOS, "RedHat") || ContainsIgnoreCase(guestOS, "CentOS") then "Linux"
    else "Other"
  }

  /** The page's five filter settings: vCenter, power state, OS type, search text and the candidate switch. */
  datatype VMFilter = VMFilter(vcenter: string, powerState: string, osType: string, searchText: string, onlyCandidates: bool)

  /** The settings as the constructor and `ClearFilters` leave them. */
  const DefaultFilter: VMFilter := VMFilter(AllVCenters, AllStates, AllOs, "", false)

  /** `FilterVirtualMachines(item)` under the settings `f`. */
  predicate FilterVirtualMachines(item: Item<VirtualMachineInfo>, f: VMFilter)
  {
    match item
    case Foreign => false
    case Entry(vm) =>
      (f.vcenter == AllVCenters || vm.vCenter == f.vcenter)
      && (f.powerState == AllStates || vm.powerState == f.powerState)
      && (f.osType == AllOs || GetOsType(vm.guestOS) == f.osType)
      && (IsBlank(f.searchText)
          || Contains(ToLower(vm.name), ToLower(f.searchText))
          || Contains(ToLower(vm.cluster), ToLower(f.searchText))
          || Contains(ToLower(vm.datastore), ToLower(f.searchText))
          || Contains(ToLower(vm.host), ToLower(f.searchText)))
      && (!f.onlyCandidates || vm.isMigrationCandidate)
  }

  /**
   * The filter is the conjunction of five independent tests, each switched off
   * at its default; the search is a substring test ignoring case on name,
   * cluster, datastore or host. Items that are not VMs never pass.
   */
  lemma FilterVirtualMachinesMeaning(item: Item<VirtualMachineInfo>, f: VMFilter)
    ensures item.Foreign? ==> !FilterVirtualMachines(item, f)
    ensures item.Entry? ==>
      (FilterVirtualMachines(item, f) <==>
        ((f.vcenter == AllVCenters || item.value.vCenter == f.vcenter)
         && (f.powerState == AllStates || item.value.powerState == f.powerState)
         && (f.osType == AllOs || GetOsType(item.value.guestOS) == f.osType)
         && (IsBlank(f.searchText)
             || ContainsIgnoreCase(item.value.name, f.searchText)
             || ContainsIgnoreCase(item.value.cluster, f.searchText)
             || ContainsIgnoreCase(item.value.datastore, f.searchText)
             || ContainsIgnoreCase(item.value.host, f.searchText))
         && (f.onlyCandidates ==> item.value.isMigrationCandidate)))
  {
    if item.Entry? {
      var vm := item.value;
      LowerContainsIffContainsIgnoreCase(vm.name, f.searchText);
      LowerContainsIffContainsIgnoreCase(vm.cluster, f.searchText);
      LowerContainsIffContainsIgnoreCase(vm.datastore, f.searchText);
      LowerContainsIffContainsIgnoreCase(vm.host, f.searchText);
    }
  }

  /** The collection view `FilteredVirtualMachines`: the VMs that pass, in collection order. */
  function Filtered(vms: seq<VirtualMachineInfo>, f: VMFilter): seq<VirtualMachineInfo>
  {
    if vms == [] then []
    else
      var rest := Filtered(vms[..|vms| - 1], f);
      if FilterVirtualMachines(Entry(vms[|vms| - 1]), f) then rest + [vms[|vms| - 1]] else rest
  }

  /** The view never holds more VMs than the collection. */
  lemma {:induction false} FilteredLength(vms: seq<VirtualMachineInfo>, f: VMFilter)
    ensures |Filtered(vms, f)| <= |vms|
  {
    if vms != [] {
      FilteredLength(vms[..|vms| - 1], f);
    }
  }

  /** The view holds exactly the VMs of the collection that pass the filter. */
  lemma {:induction false} FilteredMembers(vms: seq<VirtualMachineInfo>, f: VMFilter)
    ensures forall v :: v in Filtered(vms, f) <==> v in vms && FilterVirtualMachines(Entry(v), f)
  {
    if vms != [] {
      var init := vms[..|vms| - 1];
      FilteredMembers(init, f);
      assert vms == init + [vms[|vms| - 1]];
    }
  }

  /** With the default settings every VM of the collection is shown, in order. */
  lemma {:induction false} ClearedFiltersShowAll(vms: seq<VirtualMachineInfo>)
    ensures Filtered(vms, DefaultFilter) == vms
  {
    if vms != [] {
      var init := vms[..|vms| - 1];
      ClearedFiltersShowAll(init);
      assert IsBlank(DefaultFilter.searchText);
      assert vms == init + [vms[|vms| - 1]];
    }
  }

  /** `VirtualMachines.Count(vm => vm.PowerState == state)`. */
  function CountPowerState(vms: seq<VirtualMachineInfo>, state: string): nat
  {
    if vms == [] then 0
    else CountPowerState(vms[..|vms| - 1], state) + (if vms[|vms| - 1].powerState == state then 1 else 0)
  }

  /** `VirtualMachines.Count(vm => GetOsType(vm.GuestOS) == osType)`. */
  function CountOsType(vms: seq<VirtualMachineInfo>, osType: string): nat
  {
    if vms == [] then 0
    else CountOsType(vms[..|vms| - 1], osType) + (if GetOsType(vms[|vms| - 1].guestOS) == osType then 1 else 0)
  }

  /** Two different power states are never both counted for one VM, so together they count at most every VM. */
  lemma {:induction false} PowerStateCountsDisjoint(vms: seq<VirtualMachineInfo>, a: string, b: string)
    requires a != b
    ensures CountPowerState(vms, a) + CountPowerState(vms, b) <= |vms|
  {
    if vms != [] {
      PowerStateCountsDisjoint(vms[..|vms| - 1], a, b);
    }
  }

  /** Likewise for two different OS types. */
  lemma {:induction false} OsTypeCountsDisjoint(vms: seq<VirtualMachineInfo>, a: string, b: string)
    requires a != b
    ensures CountOsType(vms, a) + CountOsType(vms, b) <= |vms|
  {
    if vms != [] {
      OsTypeCountsDisjoint(vms[..|vms| - 1], a, b);
    }
  }

  class DataViewModel {
    var virtualMachines: seq<VirtualMachineInfo>
    var selectedVirtualMachines: seq<VirtualMachineInfo>
    var selectedVcenter: string
    var selectedPowerState: string
    var selectedOsType: string
    var searchText: string
    var showOnlyMigrationCandidates: bool
    var statusMessage: string
    var totalVMs: int
    var poweredOnVMs: int
    var poweredOffVMs: int
    var windowsVMs: int
    var linuxVMs: int
    var displayedVMs: int

    /** The current filter settings. */
    function CurrentFilter(): VMFilter
      reads this
    {
      VMFilter(selectedVcenter, selectedPowerState, selectedOsType, searchText, showOnlyMigrationCandidates)
    }

    /** The constructor, with the inventory that `LoadSampleData` fills in given as `inventory`. */
    constructor (inventory: seq<VirtualMachineInfo>)
      ensures virtualMachines == inventory && selectedVirtualMachines == []
      ensures CurrentFilter() == DefaultFilter && statusMessage == "Ready"
      ensures totalVMs == |inventory| && displayedVMs == |inventory|
      ensures poweredOnVMs == CountPowerState(inventory, "Powered On")
      ensures poweredOffVMs == CountPowerState(inventory, "Powered Off")
      ensures windowsVMs == CountOsType(inventory, "Windows") && linuxVMs == CountOsType(inventory, "Linux")
    {
      virtualMachines := inventory;
      selectedVirtualMachines := [];
      selectedVcenter := AllVCenters;
      selectedPowerState := AllStates;
      selectedOsType := AllOs;
      searchText := "";
      showOnlyMigrationCandidates := false;
      statusMessage := "Ready";
      new;
      UpdateStatistics();
      ClearedFiltersShowAll(inventory);
    }

    /** `UpdateStatistics`: the summary counters recomputed from the collection, then the displayed count. */
    method UpdateStatistics()
      modifies this`totalVMs, this`poweredOnVMs, this`poweredOffVMs, this`windowsVMs, this`linuxVMs, this`displayedVMs
      ensures totalVMs == |virtualMachines|
      ensures poweredOnVMs == CountPowerState(virtualMachines, "Powered On")
      ensures poweredOffVMs == CountPowerState(virtualMachines, "Powered Off")
      ensures windowsVMs == CountOsType(virtualMachines, "Windows") && linuxVMs == CountOsType(virtualMachines, "Linux")
      ensures displayedVMs == |Filtered(virtualMachines, CurrentFilter())|
      ensures poweredOnVMs + poweredOffVMs <= totalVMs && windowsVMs + linuxVMs <= totalVMs && displayedVMs <= totalVMs
    {
      totalVMs := |virtualMachines|;
      poweredOnVMs := CountPowerState(virtualMachines, "Powered On");
      poweredOffVMs := CountPowerState(virtualMachines, "Powered Off");
      windowsVMs := CountOsType(virtualMachines, "Windows");
      linuxVMs := CountOsType(virtualMachines, "Linux");
      PowerStateCountsDisjoint(virtualMachines, "Powered On", "Powered Off");
      OsTypeCountsDisjoint(virtualMachines, "Windows", "Linux");
      UpdateDisplayedCount();
    }

    /** `UpdateDisplayedCount`: the number of VMs the view shows, never more than the collection holds. */
    method UpdateDisplayedCount()
      modifies this`displayedVMs
      ensures displayedVMs == |Filtered(virtualMachines, CurrentFilter())| <= |virtualMachines|
    {
      FilteredLength(virtualMachines, CurrentFilter());
      displayedVMs := |Filtered(virtualMachines, CurrentFilter())|;
    }

    /** `ClearFilters`: every setting back to its default, so every VM is displayed. */
    method ClearFilters()
      modifies this`selectedVcenter, this`selectedPowerState, this`selectedOsType, this`searchText
      modifies this`showOnlyMigrationCandidates, this`displayedVMs, this`statusMessage
      ensures CurrentFilter() == DefaultFilter
      ensures displayedVMs == |virtualMachines| && statusMessage == "Filters cleared"
    {
      selectedVcenter := AllVCenters;
      selectedPowerState := AllStates;
      selectedOsType := AllOs;
      searchText := "";
      showOnlyMigrationCandidates := false;
      ClearedFiltersShowAll(virtualMachines);
      displayedVMs := |Filtered(virtualMachines, CurrentFilter())|;
      statusMessage := "Filters cleared";
    }

    /**
     * `SelectAllVMs`: the selection becomes the displayed VMs, in view order,
     * each marked selected; VMs that are not displayed keep their mark.
     */
    method SelectAllVMs()
      modifies this`selectedVirtualMachines, this`statusMessage, virtualMachines
      ensures selectedVirtualMachines == Filtered(virtualMachines, CurrentFilter())
      ensures forall v :: v in selectedVirtualMachines ==> v.isSelected
      ensures forall v :: v in virtualMachines && v !in selectedVirtualMachines ==> v.isSelected == old(v.isSelected)
      ensures statusMessage == "Selected " + NatToString(|selectedVirtualMachines|) + " VMs"
    {
      var visible := Filtered(virtualMachines, CurrentFilter());
      FilteredMembers(virtualMachines, CurrentFilter());
      var selection := [];
      var i := 0;
      while i < |visible|
        invariant 0 <= i <= |visible|
        invariant unchanged(this)
        invariant selection == visible[..i]
        invariant forall v :: v in selection ==> v.isSelected
        invariant forall v :: v in virtualMachines && v !in selection ==> v.isSelected == old(v.isSelected)
      {
        var vm := visible[i];
        assert vm in visible;
        vm.isSelected := true;
        selection := selection + [vm];
        i := i + 1;
      }
      assert visible[..i] == visible;
      selectedVirtualMachines := selection;
      statusMessage := "Selected " + NatToString(|selection|) + " VMs";
    }

    /** `ClearSelection`: every VM of the collection unmarked and the selection emptied. */
    method ClearSelection()
      modifies this`selectedVirtualMachines, this`statusMessage, virtualMachines
      ensures forall v :: v in virtualMachines ==> !v.isSelected
      ensures selectedVirtualMachines == [] && statusMessage == "Selection cleared"
    {
      var i := 0;
      while i < |virtualMachines|
        invariant 0 <= i <= |virtualMachines|
        invariant unchanged(this)
        invariant forall k :: 0 <= k < i ==> !virtualMachines[k].isSelected
      {
        virtualMachines[i].isSelected := false;
        i := i + 1;
      }
      selectedVirtualMachines := [];
      statusMessage := "Selection cleared";
    }
  }
}
