// The entities of UiDesktopApp2 that the view-models and services work on.
// Objects that the core compares by reference but never mutates in place are
// values carrying an `id` (the object's identity); objects the core mutates
// in place are classes.
module Models {
  import opened Wrappers

  /** The identity of a .NET object: two values with the same id are the same object. */
  type ObjectId = nat

  /** `DateTime.Ticks`: 100-nanosecond units since 0001-01-01, up to `DateTime.MaxValue`. */
  const MaxTicks: int := 3155378975999999999
  const TicksPerDay: int := 864000000000

  type TimeStamp = t: int | 0 <= t <= MaxTicks

  /** The largest day count `DateTime.AddDays` accepts at all (the days from 0001-01-01 to 10000-01-01). */
  const MaxDays: int := 3652059

  /**
   * `DateTime.AddDays(days)` for a whole number of days: throws when the count
   * is beyond any date distance, or when the result leaves the DateTime range.
   */
  function AddDays(t: TimeStamp, days: int): (r: Result<TimeStamp>)
    ensures r.Success? <==> -MaxDays <= days <= MaxDays && 0 <= t + days * TicksPerDay <= MaxTicks
    ensures r.Success? ==> r.value == t + days * TicksPerDay
  {
    var u := t + days * TicksPerDay;
    if days < -MaxDays || MaxDays < days then Result<TimeStamp>.Failure(ArgumentOutOfRange("Value to add was out of range.", "value"))
    else if 0 <= u <= MaxTicks then Result<TimeStamp>.Success(u)
    else Result<TimeStamp>.Failure(ArgumentOutOfRange("The added or subtracted value results in an un-representable DateTime.", "value"))
  }

  /** Going back `n` days succeeds exactly when the day is at least `n` days after the first one. */
  lemma DaysBack(t: TimeStamp, n: int)
    requires 0 <= n <= MaxDays
    ensures AddDays(t, -n).Success? <==> n * TicksPerDay <= t
    ensures AddDays(t, -n).Success? ==> AddDays(t, -n).value == t - n * TicksPerDay
  {
    assert -n * TicksPerDay == -(n * TicksPerDay);
  }

  /** `int.MaxValue`. */
  const IntMax: int := 0x7FFF_FFFF

  /**
   * An element of a WPF collection view handed to a filter as `object`: either
   * of the type the filter expects, or something else.
   */
  datatype Item<T> = Entry(value: T) | Foreign

  /** A saved vCenter connection (Models/ConnectionProfile.cs, plus the two source fields the pages bind to). */
  datatype ConnectionProfile = ConnectionProfile(
    id: ObjectId,
    name: string,
    serverAddress: string,
    username: string,
    password: string,
    sourceVCenter: string,
    sourceUsername: string)

  /** An inventory row; only `IsSelected` is changed by the modelled code. */
  class VirtualMachineInfo {
    var isSelected: bool
    const name: string
    const powerState: string
    const guestOS: string
    const cluster: string
    const host: string
    const datastore: string
    const vCenter: string
    const isMigrationCandidate: bool

    constructor (name: string, powerState: string, guestOS: string, cluster: string, host: string,
                 datastore: string, vCenter: string, isMigrationCandidate: bool)
      ensures this.name == name && this.powerState == powerState && this.guestOS == guestOS
      ensures this.cluster == cluster && this.host == host && this.datastore == datastore
      ensures this.vCenter == vCenter && this.isMigrationCandidate == isMigrationCandidate
      ensures !isSelected
    {
      this.name := name;
      this.powerState := powerState;
      this.guestOS := guestOS;
      this.cluster := cluster;
      this.host := host;
      this.datastore := datastore;
      this.vCenter := vCenter;
      this.isMigrationCandidate := isMigrationCandidate;
      isSelected := false;
    }
  }

  datatype MigrationStatus = Queued | InProgress | Completed | Cancelled

  /** A queued, active or finished migration; its status and details change in place. */
  class MigrationTask {
    const objectName: string
    const objectType: string
    var status: MigrationStatus
    var details: string

    constructor (objectName: string, objectType: string, status: MigrationStatus, details: string)
      ensures this.objectName == objectName && this.objectType == objectType
      ensures this.status == status && this.details == details
    {
      this.objectName := objectName;
      this.objectType := objectType;
      this.status := status;
      this.details := details;
    }
  }

  /** A backup file known to the application (Models/BackupItem.cs). */
  datatype BackupItem = BackupItem(
    id: ObjectId,
    name: string,
    backupType: string,
    createdDate: TimeStamp,
    filePath: string,
    size: int,
    status: string)

  /** A selectable vCenter; the "Custom Server" entry gets its address changed in place. */
  class VCenterServer {
    const name: string
    var address: string
    const description: string

    constructor (name: string, address: string, description: string)
      ensures this.name == name && this.address == address && this.description == description
    {
      this.name := name;
      this.address := address;
      this.description := description;
    }
  }

  datatype NetworkMapping = NetworkMapping(sourceNetwork: string, destinationNetwork: string)

  /** What a connection test reports: success, and the optional version and error text. */
  datatype ConnectionResult = ConnectionResult(isSuccessful: bool, version: Option<string>, errorMessage: Option<string>)
}

// The status bar of the pages and dialogs (Wpf.Ui InfoBar), kept apart so that
// its Success and Error do not clash with the Result constructors.
module InfoBar {
  datatype InfoBarSeverity = Informational | Success | Warning | Error
}
