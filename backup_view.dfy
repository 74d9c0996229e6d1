// BackupViewModel (ViewModels/Pages/BackupViewModel.cs): the backup page. Its
// history filter, the retention-based cleanup, deleting one backup, the action
// switches that follow the selection, the busy-state wrapper around every
// backup operation, the items the operations add (newest first), and the
// progress reported while importing templates.
module BackupView {
  import opened Wrappers
  import opened Text
  import opened Models
  import opened Sequences
  import opened Paths
  import InfoBar

  type InfoBarSeverity = InfoBar.InfoBarSeverity

  const AllTypes: string := "All Types"
  const AllDates: string := "All Dates"

  // ---- Retention

  /** The retention choices that name a number of days; every other text means "keep everything". */
  predicate IsListedRetention(retention: string)
  {
    retention == "7 Days" || retention == "30 Days" || retention == "90 Days"
    || retention == "6 Months" || retention == "1 Year"
  }

  /** `GetRetentionDays`: 7, 30, 90, 180 or 365 days for the listed choices, `int.MaxValue` for anything else. */
  function GetRetentionDays(retention: string): (r: int)
    ensures 7 <= r
    ensures IsListedRetention(retention) <==> r <= 365
    ensures !IsListedRetention(retention) <==> r == IntMax
  {
    match retention
    case "7 Days" => 7
    case "30 Days" => 30
    case "90 Days" => 90
    case "6 Months" => 180
    case "1 Year" => 365
    case _ => IntMax
  }

  /** Under "Keep All" (or any unlisted text) the cutoff cannot be computed: `AddDays` always throws. */
  lemma KeepAllCutoffThrows(now: TimeStamp, retention: string)
    requires !IsListedRetention(retention)
    ensures AddDays(now, -GetRetentionDays(retention)).Failure?
  {
  }

  /** For a listed choice, once a year has passed since 0001-01-01, the cutoff is that many days back. */
  lemma ListedRetentionCutoff(now: TimeStamp, retention: string)
    requires IsListedRetention(retention) && 365 * TicksPerDay <= now
    ensures AddDays(now, -GetRetentionDays(retention)) == Success(now - GetRetentionDays(retention) * TicksPerDay)
  {
  }

  // ---- FilterBackups

  /** The clock as the filter reads it: now, and the first instant of the current year. */
  datatype Clock = Clock(now: TimeStamp, startOfYear: TimeStamp)

  /** The cutoff of a date filter other than "All Dates": unknown filters use `DateTime.MinValue`. */
  function DateCutoff(dateFilter: string, clock: Clock): Result<TimeStamp>
  {
    match dateFilter
    case "Last 7 Days" => AddDays(clock.now, -7)
    case "Last 30 Days" => AddDays(clock.now, -30)
    case "Last 90 Days" => AddDays(clock.now, -90)
    case "This Year" => Success(clock.startOfYear)
    case _ => Success(0)
  }

  /** `FilterBackups(item)`: `Failure` when computing the cutoff throws. */
  function FilterBackups(item: Item<BackupItem>, backupType: string, dateFilter: string, clock: Clock): Result<bool>
  {
    match item
    case Foreign => Success(false)
    case Entry(b) =>
      if backupType != AllTypes && b.backupType != backupType then Success(false)
      else if dateFilter == AllDates then Success(true)
      else
        match DateCutoff(dateFilter, clock)
        case Failure(e) => Failure(e)
        case Success(cutoff) => Success(!(b.createdDate < cutoff))
  }

  /**
   * Non-backups never pass. A backup passes when its type matches (unless "All
   * Types") and it is not older than the cutoff; "This Year" starts at the
   * year's first instant, and an unknown date filter keeps every backup.
   */
  lemma FilterBackupsMeaning(item: Item<BackupItem>, backupType: string, dateFilter: string, clock: Clock)
    ensures item.Foreign? ==> FilterBackups(item, backupType, dateFilter, clock) == Success(false)
    ensures item.Entry? && backupType != AllTypes && item.value.backupType != backupType ==>
      FilterBackups(item, backupType, dateFilter, clock) == Success(false)
    ensures item.Entry? && (backupType == AllTypes || item.value.backupType == backupType) ==>
      (dateFilter == AllDates ==> FilterBackups(item, backupType, dateFilter, clock) == Success(true))
      && (dateFilter == "This Year" ==>
            FilterBackups(item, backupType, dateFilter, clock) == Success(clock.startOfYear <= item.value.createdDate))
      && (dateFilter !in {AllDates, "Last 7 Days", "Last 30 Days", "Last 90 Days", "This Year"} ==>
            FilterBackups(item, backupType, dateFilter, clock) == Success(true))
  {
  }

  /** "Last N Days" keeps exactly the backups created at most N days before now, once 90 days have passed since 0001-01-01. */
  lemma LastDaysFilter(b: BackupItem, backupType: string, clock: Clock)
    requires backupType == AllTypes || b.backupType == backupType
    requires 90 * TicksPerDay <= clock.now
    ensures FilterBackups(Entry(b), backupType, "Last 7 Days", clock) == Success(clock.now - 7 * TicksPerDay <= b.createdDate)
    ensures FilterBackups(Entry(b), backupType, "Last 30 Days", clock) == Success(clock.now - 30 * TicksPerDay <= b.createdDate)
    ensures FilterBackups(Entry(b), backupType, "Last 90 Days", clock) == Success(clock.now - 90 * TicksPerDay <= b.createdDate)
  {
    DaysBack(clock.now, 7);
    DaysBack(clock.now, 30);
    DaysBack(clock.now, 90);
  }

  // ---- CleanupBackups

  /** `BackupHistory.Where(b => b.CreatedDate < cutoff)`: the backups older than the cutoff, in order. */
  function OldOnes(s: seq<BackupItem>, cutoff: int): (r: seq<BackupItem>)
    ensures |r| <= |s|
    ensures forall k :: 0 <= k < |r| ==> r[k].createdDate < cutoff
  {
    if s == [] then []
    else if s[0].createdDate < cutoff then [s[0]] + OldOnes(s[1..], cutoff)
    else OldOnes(s[1..], cutoff)
  }

  /** The backups at or after the cutoff, in order: what a successful cleanup keeps. */
  function Kept(s: seq<BackupItem>, cutoff: int): (r: seq<BackupItem>)
    ensures forall k :: 0 <= k < |r| ==> cutoff <= r[k].createdDate
  {
    if s == [] then []
    else if s[0].createdDate < cutoff then Kept(s[1..], cutoff)
    else [s[0]] + Kept(s[1..], cutoff)
  }

  /** `s` after the removal of its first `n` old backups, the state part-way through the cleanup loop. */
  function DropOld(s: seq<BackupItem>, cutoff: int, n: nat): seq<BackupItem>
  {
    if s == [] || n == 0 then s
    else if s[0].createdDate < cutoff then DropOld(s[1..], cutoff, n - 1)
    else [s[0]] + DropOld(s[1..], cutoff, n)
  }

  /** Every backup is either old or kept, none is both and none is lost. */
  lemma {:induction false} KeptAndOldPartition(s: seq<BackupItem>, cutoff: int)
    ensures |Kept(s, cutoff)| + |OldOnes(s, cutoff)| == |s|
    ensures forall b :: b in Kept(s, cutoff) <==> b in s && cutoff <= b.createdDate
    ensures forall b :: b in OldOnes(s, cutoff) <==> b in s && b.createdDate < cutoff
  {
    if s != [] {
      KeptAndOldPartition(s[1..], cutoff);
      assert s == [s[0]] + s[1..];
    }
  }

  /** `List.Remove` skips a head that differs from the removed element. */
  lemma RemoveFirstCons<T>(x: T, s: seq<T>, y: T)
    requires x != y
    ensures RemoveFirst([x] + s, y) == [x] + RemoveFirst(s, y)
  {
    var t := [x] + s;
    if y in s {
      var j := FirstIndex(s, y);
      assert t[j + 1] == y;
      assert t[..j + 1] == [x] + s[..j];
      FirstIndexUnique(t, y, j + 1);
      assert t[j + 2..] == s[j + 1..];
      assert t[..j + 1] + t[j + 2..] == [x] + (s[..j] + s[j + 1..]);
    } else {
      assert y !in t;
    }
  }

  /**
   * One turn of the cleanup loop: removing the next old backup (by `List.Remove`,
   * first occurrence) removes exactly the first old backup still present.
   */
  lemma {:induction false} DropNextOld(s: seq<BackupItem>, cutoff: int, n: nat)
    requires n < |OldOnes(s, cutoff)|
    ensures RemoveFirst(DropOld(s, cutoff, n), OldOnes(s, cutoff)[n]) == DropOld(s, cutoff, n + 1)
  {
    var x := OldOnes(s, cutoff)[n];
    var t := s[1..];
    if s[0].createdDate < cutoff {
      assert OldOnes(s, cutoff) == [s[0]] + OldOnes(t, cutoff);
      if n == 0 {
        assert x == s[0] && DropOld(s, cutoff, 0) == s && DropOld(s, cutoff, 1) == t;
        assert FirstIndex(s, s[0]) == 0;
        assert s[..0] + s[1..] == t;
      } else {
        assert x == OldOnes(t, cutoff)[n - 1];
        assert DropOld(s, cutoff, n) == DropOld(t, cutoff, n - 1);
        assert DropOld(s, cutoff, n + 1) == DropOld(t, cutoff, n);
        DropNextOld(t, cutoff, n - 1);
      }
    } else {
      assert OldOnes(s, cutoff) == OldOnes(t, cutoff);
      assert DropOld(s, cutoff, n) == [s[0]] + DropOld(t, cutoff, n);
      assert DropOld(s, cutoff, n + 1) == [s[0]] + DropOld(t, cutoff, n + 1);
      DropNextOld(t, cutoff, n);
      assert x.createdDate < cutoff;
      RemoveFirstCons(s[0], DropOld(t, cutoff, n), x);
    }
  }

  /** Removing every old backup leaves exactly the kept ones. */
  lemma {:induction false} DropAllOld(s: seq<BackupItem>, cutoff: int)
    ensures DropOld(s, cutoff, |OldOnes(s, cutoff)|) == Kept(s, cutoff)
  {
    if s != [] {
      DropAllOld(s[1..], cutoff);
    }
  }

  /** The cutoff of a cleanup at `now`: the retention period back, or what `AddDays` throws. */
  function RetentionCutoff(now: TimeStamp, retention: string): Result<TimeStamp>
  {
    AddDays(now, -GetRetentionDays(retention))
  }

  function CleanupFailedText(e: Error): string
  {
    "Backup cleanup failed: " + Message(e)
  }

  function RemovedText(n: nat): string
  {
    "Removed " + NatToString(n) + " old backup files"
  }

  predicate FirstBlocked(olds: seq<BackupItem>, errors: map<string, Error>, n: nat)
  {
    n < |olds| && olds[n].filePath in errors
    && forall k :: 0 <= k < n ==> olds[k].filePath !in errors
  }

  /** No file deletion among `olds` throws. */
  predicate AllDeletable(olds: seq<BackupItem>, errors: map<string, Error>)
  {
    forall k :: 0 <= k < |olds| ==> olds[k].filePath !in errors
  }

  /**
   * The loop of `CleanupBackups` over the history `h0`: removes the old
   * backups one by one (`List.Remove`) until the first whose file deletion
   * throws; `blocked` is that backup's position among the old ones.
   */
  method RemoveOldBackups(h0: seq<BackupItem>, cutoff: int, deleteErrors: map<string, Error>)
    returns (h: seq<BackupItem>, blocked: Option<nat>)
    ensures blocked.None? <==> AllDeletable(OldOnes(h0, cutoff), deleteErrors)
    ensures blocked.None? ==> h == Kept(h0, cutoff)
    ensures blocked.Some? ==>
      FirstBlocked(OldOnes(h0, cutoff), deleteErrors, blocked.value) && h == DropOld(h0, cutoff, blocked.value)
  {
    var olds := OldOnes(h0, cutoff);
    h := h0;
    var i := 0;
    while i < |olds|
      invariant 0 <= i <= |olds|
      invariant h == DropOld(h0, cutoff, i)
      invariant forall k :: 0 <= k < i ==> olds[k].filePath !in deleteErrors
    {
      var b := olds[i];
      if b.filePath in deleteErrors {
        assert FirstBlocked(olds, deleteErrors, i);
        return h, Some(i);
      }
      DropNextOld(h0, cutoff, i);
      h := RemoveFirst(h, b);
      i := i + 1;
    }
    DropAllOld(h0, cutoff);
    blocked := None;
  }

  // ---- The items the operations add

  /** The four timed backups: the configuration, the template export, the migration data and the log archive. */
  datatype BackupKind = ConfigurationBackup | TemplateExport | MigrationDataBackup | LogArchive

  function FilePrefix(kind: BackupKind): string
  {
    match kind
    case ConfigurationBackup => "Config_"
    case TemplateExport => "Templates_"
    case MigrationDataBackup => "MigrationData_"
    case LogArchive => "Logs_"
  }

  function TypeName(kind: BackupKind): string
  {
    match kind
    case ConfigurationBackup => "Configuration"
    case TemplateExport => "VM Templates"
    case MigrationDataBackup => "Migration Data"
    case LogArchive => "Logs"
  }

  /** The fixed sizes the operations record: 50 KB, 100 MB, 25 MB and 15 MB. */
  function RecordedSize(kind: BackupKind): int
  {
    match kind
    case ConfigurationBackup => 1024 * 50
    case TemplateExport => 1024 * 1024 * 100
    case MigrationDataBackup => 1024 * 1024 * 25
    case LogArchive => 1024 * 1024 * 15
  }

  function OperationName(kind: BackupKind): string
  {
    match kind
    case ConfigurationBackup => "Configuration Backup"
    case TemplateExport => "Template Export"
    case MigrationDataBackup => "Migration Data Backup"
    case LogArchive => "Log Archive"
  }

  function SuccessText(kind: BackupKind): string
  {
    match kind
    case ConfigurationBackup => "Configuration backup completed successfully"
    case TemplateExport => "VM templates exported successfully"
    case MigrationDataBackup => "Migration data backup completed successfully"
    case LogArchive => "Logs archived successfully"
  }

  function ErrorTitle(kind: BackupKind): string
  {
    match kind
    case ConfigurationBackup => "Backup Error"
    case TemplateExport => "Export Error"
    case MigrationDataBackup => "Backup Error"
    case LogArchive => "Archive Error"
  }

  function ErrorPrefix(kind: BackupKind): string
  {
    match kind
    case ConfigurationBackup => "Configuration backup failed: "
    case TemplateExport => "Template export failed: "
    case MigrationDataBackup => "Migration data backup failed: "
    case LogArchive => "Log archive failed: "
  }

  /** A time stamp as `DateTime.Now:yyyy-MM-dd_HH-mm` renders it: digits, '-' and '_'. */
  predicate IsStamp(stamp: string)
  {
    forall k :: 0 <= k < |stamp| ==> IsDigit(stamp[k]) || stamp[k] == '-' || stamp[k] == '_'
  }

  /**
   * The item a timed backup records: "Complete", created at `now`. The clock
   * is read separately for the name, the creation time and the path, so the
   * name carries `nameStamp` and the path's file name `pathStamp`.
   */
  function ScheduledBackupItem(kind: BackupKind, id: ObjectId, now: TimeStamp, nameStamp: string, pathStamp: string,
                               location: string): BackupItem
  {
    var name := FilePrefix(kind) + nameStamp + ".backup";
    var pathName := FilePrefix(kind) + pathStamp + ".backup";
    BackupItem(id, name, TypeName(kind), now, Combine(location, pathName), RecordedSize(kind), "Complete")
  }

  /**
   * For a path stamp as the date format renders it, the file name of the
   * recorded path is `<prefix><pathStamp>.backup`; it is the item's name
   * exactly when both clock readings render the same minute.
   */
  lemma ScheduledBackupItemNamed(kind: BackupKind, id: ObjectId, now: TimeStamp, nameStamp: string, pathStamp: string,
                                 location: string)
    requires IsStamp(pathStamp)
    ensures var r := ScheduledBackupItem(kind, id, now, nameStamp, pathStamp, location);
      r.name == FilePrefix(kind) + nameStamp + ".backup"
      && GetFileName(r.filePath) == FilePrefix(kind) + pathStamp + ".backup"
      && (GetFileName(r.filePath) == r.name <==> nameStamp == pathStamp)
      && r.status == "Complete" && r.backupType == TypeName(kind) && r.createdDate == now
  {
    var stamp := pathStamp;
    var name := FilePrefix(kind) + stamp + ".backup";
    assert !HasDrivePrefix(name) && name[1] != ':';
    forall k | 0 <= k < |name|
      ensures !IsDirectorySeparator(name[k])
    {
      if k >= |FilePrefix(kind)| + |stamp| {
        assert name[k] == ".backup"[k - |FilePrefix(kind)| - |stamp|];
      } else if k >= |FilePrefix(kind)| {
        assert name[k] == stamp[k - |FilePrefix(kind)|];
      } else {
        assert name[k] == FilePrefix(kind)[k];
      }
    }
    FileNameOfCombine(location, name);
    var given := FilePrefix(kind) + nameStamp + ".backup";
    if given == name {
      assert nameStamp == given[|FilePrefix(kind)|..|given| - 7];
      assert stamp == name[|FilePrefix(kind)|..|name| - 7];
    }
  }

  // ---- Template import progress

  /** The progress `ImportVMTemplatesAsync` reports after file `i` of `n` (int division, as in C# for non-negative operands). */
  function ImportProgress(i: nat, n: nat): int
    requires i < n
  {
    (i + 1) * 100 / n
  }

  /** A positive factor can be cancelled from a strict inequality. */
  lemma MulStrictCancel(n: int, x: int, y: int)
    requires 0 < n && n * x < n * y
    ensures x < y
  {
    assert n * (y - x) == n * y - n * x;
  }

  /** Integer division by a positive number is monotone. */
  lemma DivMonotone(a: nat, b: nat, n: nat)
    requires a <= b && 0 < n
    ensures a / n <= b / n
  {
    var qa, qb := a / n, b / n;
    assert n * qa + a % n == a && n * qb + b % n == b;
    assert n * (qb + 1) == n * qb + n;
    assert n * qa < n * (qb + 1);
    MulStrictCancel(n, qa, qb + 1);
  }

  /** The reports never go back. */
  lemma ImportProgressMonotone(i: nat, j: nat, n: nat)
    requires i <= j < n
    ensures 0 <= ImportProgress(i, n) <= ImportProgress(j, n)
  {
    DivMonotone((i + 1) * 100, (j + 1) * 100, n);
  }

  /** `n * 100 / n` is 100. */
  lemma HundredOfWhole(n: nat)
    requires 0 < n
    ensures n * 100 / n == 100
  {
  }

  /** The last report is 100, and none exceeds it. */
  lemma ImportProgressCapped(i: nat, n: nat)
    requires i < n
    ensures ImportProgress(i, n) <= ImportProgress(n - 1, n) == 100
  {
    HundredOfWhole(n);
    DivMonotone((i + 1) * 100, n * 100, n);
  }

  /** A number below the divisor divides to 0. */
  lemma DivSmall(a: nat, n: nat)
    requires a < n
    ensures a / n == 0
  {
  }

  /** A number divides by itself to 1. */
  lemma DivSelf(n: nat)
    requires 0 < n
    ensures n / n == 1
  {
  }

  /** A report is 0 exactly while fewer than one in a hundred of the files are done. */
  lemma ImportProgressPositive(i: nat, n: nat)
    requires i < n
    ensures ImportProgress(i, n) >= 1 <==> n <= (i + 1) * 100
  {
    if n <= (i + 1) * 100 {
      DivMonotone(n, (i + 1) * 100, n);
      DivSelf(n);
    } else {
      DivSmall((i + 1) * 100, n);
    }
  }

  /** The reports never exceed 100 and never go back, the last one is 100, and they are 0 while (i + 1) * 100 < n. */
  lemma ImportProgressBounds(i: nat, j: nat, n: nat)
    requires i <= j < n
    ensures 0 <= ImportProgress(i, n) <= ImportProgress(j, n) <= 100
    ensures ImportProgress(n - 1, n) == 100
    ensures ImportProgress(i, n) >= 1 <==> n <= (i + 1) * 100
  {
    ImportProgressMonotone(i, j, n);
    ImportProgressCapped(j, n);
    ImportProgressPositive(i, n);
  }

  class BackupViewModel {
    var backupHistory: seq<BackupItem>
    var selectedBackupType: string
    var selectedDateFilter: string
    var selectedBackup: Option<BackupItem>
    var canRestore: bool
    var canDownload: bool
    var canDelete: bool
    var canVerify: bool
    var isBackupInProgress: bool
    var backupProgress: int
    var currentBackupOperation: string
    var backupLocation: string
    var selectedRetention: string
    var templateCount: int
    var lastConfigBackup: string
    var statusTitle: string
    var statusMessage: string
    var statusSeverity: InfoBarSeverity
    var showStatus: bool

    /** The constructor, with the history that `LoadBackupHistory` fills in given as `history`. */
    constructor (history: seq<BackupItem>, location: string)
      ensures backupHistory == history && backupLocation == location && selectedBackup.None?
      ensures selectedBackupType == AllTypes && selectedDateFilter == AllDates && selectedRetention == "30 Days"
      ensures !canRestore && !canDownload && !canDelete && !canVerify
      ensures !isBackupInProgress && backupProgress == 0 && currentBackupOperation == ""
      ensures templateCount == 0 && lastConfigBackup == "Never"
      ensures statusTitle == "Ready" && statusMessage == "Backup system ready"
      ensures statusSeverity == InfoBar.Informational && !showStatus
    {
      backupHistory := history;
      selectedBackupType := AllTypes;
      selectedDateFilter := AllDates;
      selectedBackup := None;
      canRestore, canDownload, canDelete, canVerify := false, false, false, false;
      isBackupInProgress := false;
      backupProgress := 0;
      currentBackupOperation := "";
      backupLocation := location;
      selectedRetention := "30 Days";
      templateCount := 0;
      lastConfigBackup := "Never";
      statusTitle := "Ready";
      statusMessage := "Backup system ready";
      statusSeverity := InfoBar.Informational;
      showStatus := false;
    }

    /** `ShowStatusMessage`: the bar is shown; the timed auto-hide is not modelled. */
    method ShowStatusMessage(title: string, message: string, severity: InfoBarSeverity)
      modifies this`statusTitle, this`statusMessage, this`statusSeverity, this`showStatus
      ensures statusTitle == title && statusMessage == message && statusSeverity == severity && showStatus
    {
      statusTitle := title;
      statusMessage := message;
      statusSeverity := severity;
      showStatus := true;
    }

    /**
     * `CleanupBackups` at `clock.now`; `deleteErrors` maps the paths whose
     * `File.Delete` throws to the exception. The cutoff lies the retention
     * period back; old backups are removed one by one, and a throwing
     * deletion stops the loop with the removals so far kept.
     */
    method CleanupBackups(clock: Clock, deleteErrors: map<string, Error>)
      modifies this`backupHistory, this`statusTitle, this`statusMessage, this`statusSeverity, this`showStatus
      ensures var c := RetentionCutoff(clock.now, old(selectedRetention));
        c.Failure? ==>
          backupHistory == old(backupHistory) && statusTitle == "Cleanup Error"
          && statusMessage == CleanupFailedText(c.error) && statusSeverity == InfoBar.Error
      ensures var c := RetentionCutoff(clock.now, old(selectedRetention));
        c.Success? && AllDeletable(OldOnes(old(backupHistory), c.value), deleteErrors) ==>
          backupHistory == Kept(old(backupHistory), c.value) && statusTitle == "Cleanup Complete"
          && statusMessage == RemovedText(|OldOnes(old(backupHistory), c.value)|)
          && statusSeverity == InfoBar.Success
      ensures var c := RetentionCutoff(clock.now, old(selectedRetention));
        c.Success? && !AllDeletable(OldOnes(old(backupHistory), c.value), deleteErrors) ==>
          exists n: nat :: FirstBlocked(OldOnes(old(backupHistory), c.value), deleteErrors, n)
            && backupHistory == DropOld(old(backupHistory), c.value, n) && statusTitle == "Cleanup Error"
            && statusMessage == CleanupFailedText(deleteErrors[OldOnes(old(backupHistory), c.value)[n].filePath])
            && statusSeverity == InfoBar.Error
      ensures showStatus
    {
      var c := RetentionCutoff(clock.now, selectedRetention);
      if c.Failure? {
        ShowStatusMessage("Cleanup Error", CleanupFailedText(c.error), InfoBar.Error);
        return;
      }
      var olds := OldOnes(backupHistory, c.value);
      var h, blocked := RemoveOldBackups(backupHistory, c.value, deleteErrors);
      backupHistory := h;
      if blocked.Some? {
        ShowStatusMessage("Cleanup Error", CleanupFailedText(deleteErrors[olds[blocked.value].filePath]), InfoBar.Error);
      } else {
        ShowStatusMessage("Cleanup Complete", RemovedText(|olds|), InfoBar.Success);
      }
    }

    /** `DeleteBackup(backup)`: `deleteError` is what `File.Delete` throws, if anything. */
    method DeleteBackup(backup: Option<BackupItem>, deleteError: Option<Error>)
      modifies this`backupHistory, this`statusTitle, this`statusMessage, this`statusSeverity, this`showStatus
      ensures backup.None? ==>
        backupHistory == old(backupHistory) && statusTitle == old(statusTitle)
        && statusMessage == old(statusMessage) && statusSeverity == old(statusSeverity) && showStatus == old(showStatus)
      ensures backup.Some? ==> showStatus
      ensures backup.Some? && deleteError.Some? ==>
        backupHistory == old(backupHistory) && statusTitle == "Delete Error"
        && statusMessage == "Failed to delete backup: " + Message(deleteError.value) && statusSeverity == InfoBar.Error
      ensures backup.Some? && deleteError.None? ==>
        backupHistory == RemoveFirst(old(backupHistory), backup.value)
        && (backup.value in old(backupHistory) ==>
              multiset(backupHistory) == multiset(old(backupHistory)) - multiset{backup.value})
        && statusTitle == "Success" && statusMessage == "Backup '" + backup.value.name + "' deleted successfully"
        && statusSeverity == InfoBar.Success
    {
      if backup.None? {
        return;
      }
      if deleteError.Some? {
        ShowStatusMessage("Delete Error", "Failed to delete backup: " + Message(deleteError.value), InfoBar.Error);
        return;
      }
      var b := backup.value;
      if b in backupHistory {
        RemoveFirstMultiset(backupHistory, b);
      }
      backupHistory := RemoveFirst(backupHistory, b);
      ShowStatusMessage("Success", "Backup '" + b.name + "' deleted successfully", InfoBar.Success);
    }

    /**
     * Setting `SelectedBackup` and its `OnSelectedBackupChanged` hook, which
     * runs only when the value changes; `fileExists` is `File.Exists` of the
     * new selection's path.
     */
    method SetSelectedBackup(value: Option<BackupItem>, fileExists: bool)
      modifies this`selectedBackup, this`canRestore, this`canDownload, this`canDelete, this`canVerify
      ensures selectedBackup == value
      ensures value == old(selectedBackup) ==>
        canRestore == old(canRestore) && canDownload == old(canDownload)
        && canDelete == old(canDelete) && canVerify == old(canVerify)
      ensures value != old(selectedBackup) ==>
        (canRestore <==> value.Some? && value.value.status == "Complete")
        && (canDownload <==> value.Some? && fileExists)
        && (canDelete <==> value.Some?)
        && (canVerify <==> value.Some? && value.value.status != "Verifying")
    {
      if value == selectedBackup {
        return;
      }
      selectedBackup := value;
      canRestore := value.Some? && value.value.status == "Complete";
      canDownload := value.Some? && fileExists;
      canDelete := value.Some?;
      canVerify := value.Some? && value.value.status != "Verifying";
    }

    /**
     * `StartBackupOperationAsync(name, operation)`: `operation` is what running
     * the operation comes to. Whatever it is, the busy state is reset at the
     * end, and an exception reaches the caller.
     */
    method StartBackupOperation(operationName: string, operation: Outcome) returns (r: Outcome)
      modifies this`isBackupInProgress, this`currentBackupOperation, this`backupProgress
      ensures r == operation
      ensures !isBackupInProgress && currentBackupOperation == "" && backupProgress == 0
    {
      isBackupInProgress := true;
      currentBackupOperation := operationName;
      backupProgress := 0;
      r := operation;
      isBackupInProgress := false;
      currentBackupOperation := "";
      backupProgress := 0;
    }

    /**
     * The four timed backup commands (`BackupConfigurationAsync`,
     * `ExportTemplatesAsync`, `BackupMigrationDataAsync`, `ArchiveLogsAsync`):
     * `failure` is the exception the operation throws, if any; `nameStamp`,
     * `now` and `pathStamp` are the three clock readings the new item is built
     * from, and `stampText` the fourth, of the last configuration backup. On success the
     * new item is inserted at the front of the history; a configuration backup
     * also records `stampText` as the last configuration backup.
     */
    method RunTimedBackup(kind: BackupKind, id: ObjectId, now: TimeStamp, nameStamp: string, pathStamp: string,
                          stampText: string, failure: Option<Error>)
      modifies this`backupHistory, this`isBackupInProgress, this`currentBackupOperation, this`backupProgress
      modifies this`lastConfigBackup, this`statusTitle, this`statusMessage, this`statusSeverity, this`showStatus
      ensures !isBackupInProgress && currentBackupOperation == "" && backupProgress == 0 && showStatus
      ensures failure.Some? ==>
        backupHistory == old(backupHistory) && lastConfigBackup == old(lastConfigBackup)
        && statusTitle == ErrorTitle(kind) && statusMessage == ErrorPrefix(kind) + Message(failure.value)
        && statusSeverity == InfoBar.Error
      ensures failure.None? ==>
        backupHistory == [ScheduledBackupItem(kind, id, now, nameStamp, pathStamp, old(backupLocation))] + old(backupHistory)
        && lastConfigBackup == (if kind == ConfigurationBackup then stampText else old(lastConfigBackup))
        && statusTitle == "Success" && statusMessage == SuccessText(kind) && statusSeverity == InfoBar.Success
    {
      var outcome := if failure.Some? then Fail(failure.value) else Pass;
      if outcome.Pass? {
        backupHistory := [ScheduledBackupItem(kind, id, now, nameStamp, pathStamp, backupLocation)] + backupHistory;
      }
      var r := StartBackupOperation(OperationName(kind), outcome);
      if r.Fail? {
        ShowStatusMessage(ErrorTitle(kind), ErrorPrefix(kind) + Message(r.error), InfoBar.Error);
        return;
      }
      if kind == ConfigurationBackup {
        lastConfigBackup := stampText;
      }
      ShowStatusMessage("Success", SuccessText(kind), InfoBar.Success);
    }

    /**
     * `CreateBackupAsync` with the dialog's answer `chosenPath` (None when
     * cancelled), the size of the written file and the exception writing it
     * throws, if any. Only a failure is reported.
     */
    method CreateBackup(chosenPath: Option<string>, id: ObjectId, now: TimeStamp, size: int, failure: Option<Error>)
      modifies this`backupHistory, this`isBackupInProgress, this`currentBackupOperation, this`backupProgress
      modifies this`statusTitle, this`statusMessage, this`statusSeverity, this`showStatus
      ensures chosenPath.None? ==>
        backupHistory == old(backupHistory) && isBackupInProgress == old(isBackupInProgress)
        && currentBackupOperation == old(currentBackupOperation) && backupProgress == old(backupProgress)
        && statusTitle == old(statusTitle) && statusMessage == old(statusMessage)
        && statusSeverity == old(statusSeverity) && showStatus == old(showStatus)
      ensures chosenPath.Some? ==> !isBackupInProgress && currentBackupOperation == "" && backupProgress == 0
      ensures chosenPath.Some? && failure.Some? ==>
        backupHistory == old(backupHistory) && showStatus && statusTitle == "Backup Error"
        && statusMessage == "Failed to create backup: " + Message(failure.value) && statusSeverity == InfoBar.Error
      ensures chosenPath.Some? && failure.None? ==>
        backupHistory == [BackupItem(id, GetFileName(chosenPath.value), "Full Backup", now, chosenPath.value, size, "Complete")]
          + old(backupHistory)
        && statusTitle == old(statusTitle) && statusMessage == old(statusMessage)
        && statusSeverity == old(statusSeverity) && showStatus == old(showStatus)
    {
      if chosenPath.None? {
        return;
      }
      var path := chosenPath.value;
      var outcome := if failure.Some? then Fail(failure.value) else Pass;
      if outcome.Pass? {
        backupHistory := [BackupItem(id, GetFileName(path), "Full Backup", now, path, size, "Complete")] + backupHistory;
      }
      var r := StartBackupOperation("Creating Full Backup", outcome);
      if r.Fail? {
        ShowStatusMessage("Backup Error", "Failed to create backup: " + Message(r.error), InfoBar.Error);
      }
    }

    /**
     * `ImportVMTemplatesAsync` over `fileCount` files: the progress report of
     * each file in turn, then the template counter grows by the file count.
     */
    method ImportVMTemplates(fileCount: nat) returns (reports: seq<int>)
      modifies this`templateCount
      ensures templateCount == old(templateCount) + fileCount
      ensures |reports| == fileCount
      ensures forall k :: 0 <= k < fileCount ==> reports[k] == ImportProgress(k, fileCount)
      ensures forall k, m :: 0 <= k <= m < fileCount ==> 0 <= reports[k] <= reports[m] <= 100
      ensures fileCount > 0 ==> reports[fileCount - 1] == 100
    {
      reports := [];
      var i := 0;
      while i < fileCount
        invariant 0 <= i <= fileCount
        invariant |reports| == i
        invariant forall k :: 0 <= k < i ==> reports[k] == ImportProgress(k, fileCount)
      {
        reports := reports + [(i + 1) * 100 / fileCount];
        i := i + 1;
      }
      forall k, m | 0 <= k <= m < fileCount
        ensures 0 <= reports[k] <= reports[m] <= 100
      {
        ImportProgressBounds(k, m, fileCount);
      }
      if fileCount > 0 {
        ImportProgressBounds(fileCount - 1, fileCount - 1, fileCount);
      }
      templateCount := templateCount + fileCount;
    }

    /**
     * `ImportTemplatesAsync` with the number of files picked in the dialog
     * (None when cancelled): the import runs inside the busy-state wrapper and
     * the count is reported. `failure` is the exception the import throws, if
     * any (a cancelled `Task.Delay` when another operation starts); it leaves
     * before the counter grows, and the catch reports it.
     */
    method ImportTemplates(picked: Option<nat>, failure: Option<Error>)
      modifies this`templateCount, this`isBackupInProgress, this`currentBackupOperation, this`backupProgress
      modifies this`statusTitle, this`statusMessage, this`statusSeverity, this`showStatus
      ensures picked.None? ==>
        templateCount == old(templateCount) && isBackupInProgress == old(isBackupInProgress)
        && currentBackupOperation == old(currentBackupOperation) && backupProgress == old(backupProgress)
        && statusTitle == old(statusTitle) && statusMessage == old(statusMessage)
        && statusSeverity == old(statusSeverity) && showStatus == old(showStatus)
      ensures picked.Some? ==> !isBackupInProgress && currentBackupOperation == "" && backupProgress == 0 && showStatus
      ensures picked.Some? && failure.Some? ==>
        templateCount == old(templateCount)
        && statusTitle == "Import Error" && statusMessage == "Template import failed: " + Message(failure.value)
        && statusSeverity == InfoBar.Error
      ensures picked.Some? && failure.None? ==>
        templateCount == old(templateCount) + picked.value
        && statusTitle == "Success" && statusMessage == "Imported " + NatToString(picked.value) + " templates successfully"
        && statusSeverity == InfoBar.Success
    {
      if picked.None? {
        return;
      }
      var n := picked.value;
      var outcome := Pass;
      if failure.Some? {
        outcome := Fail(failure.value);
      } else {
        var _ := ImportVMTemplates(n);
      }
      var r := StartBackupOperation("Template Import", outcome);
      if r.Fail? {
        ShowStatusMessage("Import Error", "Template import failed: " + Message(r.error), InfoBar.Error);
        return;
      }
      ShowStatusMessage("Success", "Imported " + NatToString(n) + " templates successfully", InfoBar.Success);
    }
  }
}
