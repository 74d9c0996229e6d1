// BackupManager: the list of backup files the application knows about, the
// classification of a backup by its file name, the integrity check of a backup
// file, and the guards around the PowerShell VM backup. What the file system
// and PowerShell report comes in as parameters.
module BackupManagement {
  import opened Wrappers
  import opened Text
  import opened Models
  import opened Sequences
  import opened Paths
  import opened Credentials

  const NoConnectionMessage := "No active vCenter connection"
  const NoCredentialsMessage := "No credentials available for current connection"

  /** What a backup run reports (the `OutputFilePath` is "" when it names none). */
  datatype BackupResult = BackupResult(isSuccessful: bool, message: string, outputFilePath: string)

  /**
   * What `FileInfo` tells about a backup file: its path, creation time and
   * length. Reading the length of a file that is not there throws, so
   * `length` is the length or that exception.
   */
  datatype FileFacts = FileFacts(id: ObjectId, path: string, creationTime: TimeStamp, length: Result<int>)

  /** `DetermineBackupType`: the kind of backup, read from markers in the file name, first marker wins. */
  function DetermineBackupType(filePath: string): (r: string)
    ensures r in {"VM Metadata", "Network Config", "Host Config", "General"}
    ensures r == "VM Metadata" <==> Contains(GetFileName(filePath), "VM_Backup_Report")
    ensures r == "Network Config" <==>
      !Contains(GetFileName(filePath), "VM_Backup_Report") && Contains(GetFileName(filePath), "Network_Report")
    ensures r == "Host Config" <==>
      !Contains(GetFileName(filePath), "VM_Backup_Report") && !Contains(GetFileName(filePath), "Network_Report")
      && Contains(GetFileName(filePath), "Host_Report")
  {
    var fileName := GetFileName(filePath);
    if Contains(fileName, "VM_Backup_Report") then "VM Metadata"
    else if Contains(fileName, "Network_Report") then "Network Config"
    else if Contains(fileName, "Host_Report") then "Host Config"
    else "General"
  }

  /** Only the file name counts: the folder a backup sits in does not change its kind. */
  lemma BackupTypeIgnoresFolder(dir: string, name: string)
    requires name != "" && !HasDrivePrefix(name)
    requires forall k :: 0 <= k < |name| ==> !IsDirectorySeparator(name[k])
    ensures DetermineBackupType(Combine(dir, name)) == DetermineBackupType(name)
  {
    FileNameOfCombine(dir, name);
    FileNameOfCombine("", name);
    assert Combine("", name) == name;
  }

  /**
   * `CreateBackupItem`: a completed backup named after its file, typed by its
   * file name; the exception reading the file's length propagates.
   */
  function CreateBackupItem(file: FileFacts): Result<BackupItem>
  {
    match file.length
    case Failure(e) => Failure(e)
    case Success(length) =>
      Success(BackupItem(file.id, GetFileNameWithoutExtension(file.path), DetermineBackupType(file.path),
        file.creationTime, file.path, length, "Completed"))
  }

  /**
   * A backup written as `stem + ext` into a folder whose length can be read
   * is listed under `stem`, at that path, as completed, with that length and
   * the kind its stem names; when the length cannot be read, no item is made
   * and that exception is the outcome.
   */
  lemma CreateBackupItemNamed(dir: string, stem: string, ext: string, file: FileFacts)
    requires stem != "" && !HasDrivePrefix(stem + ext)
    requires |ext| >= 1 && ext[0] == '.' && '.' !in ext[1..]
    requires forall k :: 0 <= k < |stem + ext| ==> !IsDirectorySeparator((stem + ext)[k])
    requires file.path == Combine(dir, stem + ext)
    ensures CreateBackupItem(file).Failure? <==> file.length.Failure?
    ensures file.length.Failure? ==> CreateBackupItem(file).error == file.length.error
    ensures file.length.Success? ==> var item := CreateBackupItem(file).value;
      && item.name == stem && item.filePath == file.path && item.status == "Completed"
      && item.size == file.length.value && item.backupType == DetermineBackupType(stem + ext)
  {
    StemOfCombine(dir, stem, ext);
    BackupTypeIgnoresFolder(dir, stem + ext);
  }

  /** What probing a backup file gives: missing, or its length and (reading it) its text or the read error. */
  datatype FileProbe = Absent | Present(length: int, content: Result<string>)

  predicate IsJsonFile(path: string)
  {
    EqualsIgnoreCase(GetExtension(path), ".json")
  }

  /**
   * `ValidateBackup`: a backup is valid when the file exists and is not empty
   * and, for a .json file (extension in any case), its text reads and
   * `parsesAsJson` accepts it. Read and parse errors are caught and mean invalid.
   */
  function ValidateBackup(path: string, probe: FileProbe, parsesAsJson: string -> bool): (valid: bool)
    ensures valid <==>
      probe.Present? && probe.length != 0
      && (IsJsonFile(path) ==> probe.content.Success? && parsesAsJson(probe.content.value))
    ensures !IsJsonFile(path) ==> (valid <==> probe.Present? && probe.length != 0)
  {
    match probe
    case Absent => false
    case Present(length, content) =>
      if length == 0 then false
      else if IsJsonFile(path) then
        match content
        case Failure(_) => false
        case Success(text) => parsesAsJson(text)
      else true
  }

  class BackupManager {
    /** The credential store the backup asks for the connection's password; `None` is a null reference. */
    const credentialManager: Option<CredentialManager>
    var backupItems: seq<BackupItem>

    /**
     * The constructor as written: the credential manager is neither taken as
     * a parameter nor assigned, so the field stays null.
     */
    constructor AsWritten(existing: Option<seq<FileFacts>>)
      ensures credentialManager.None?
      ensures backupItems == if existing.Some? then ExistingItems(existing.value) else []
    {
      credentialManager := None;
      backupItems := [];
      new;
      LoadExistingBackups(existing);
    }

    /** The constructor with the credential manager injected, as the backup needs it. */
    constructor (credentialManager: CredentialManager, existing: Option<seq<FileFacts>>)
      ensures this.credentialManager == Some(credentialManager)
      ensures backupItems == if existing.Some? then ExistingItems(existing.value) else []
    {
      this.credentialManager := Some(credentialManager);
      backupItems := [];
      new;
      LoadExistingBackups(existing);
    }

    /**
     * `LoadExistingBackups`: one item per `*.json` file of the backup folder,
     * appended in listing order; a file whose item cannot be made is skipped
     * (the per-file catch). `files` is `None` when the folder is missing.
     */
    method LoadExistingBackups(files: Option<seq<FileFacts>>)
      modifies this`backupItems
      ensures backupItems == old(backupItems) + if files.Some? then ExistingItems(files.value) else []
    {
      if files.None? {
        return;
      }
      var fs := files.value;
      var i := 0;
      ghost var start := backupItems;
      while i < |fs|
        invariant 0 <= i <= |fs|
        invariant backupItems == start + ExistingItems(fs[..i])
      {
        var made := CreateBackupItem(fs[i]);
        AppendSnoc(start, fs, i, backupItems);
        if made.Success? {
          backupItems := backupItems + [made.value];
        }
        i := i + 1;
      }
      assert fs[..i] == fs;
    }

    /**
     * `PerformVMBackupAsync`: `current` is the active connection, `run` what
     * the PowerShell backup returns (or throws), and `id`, `creationTime`
     * and `length` what `FileInfo` reports on the file it names (reading the
     * length of a missing file throws). Every exception becomes a failed result.
     */
    method PerformVMBackupAsync(current: Option<ConnectionProfile>, run: Result<BackupResult>,
      id: ObjectId, creationTime: TimeStamp, length: Result<int>)
      returns (r: BackupResult)
      modifies this`backupItems
      ensures current.None? ==> r == BackupResult(false, NoConnectionMessage, "") && backupItems == old(backupItems)
      ensures current.Some? && credentialManager.None? ==>
        r == BackupResult(false, Message(NullReference), "") && backupItems == old(backupItems)
      ensures current.Some? && credentialManager.Some? && credentialManager.value.GetPassword(current.value.name) == "" ==>
        r == BackupResult(false, NoCredentialsMessage, "") && backupItems == old(backupItems)
      ensures current.Some? && credentialManager.Some? && credentialManager.value.GetPassword(current.value.name) != "" ==>
        match run
        case Failure(e) => r == BackupResult(false, Message(e), "") && backupItems == old(backupItems)
        case Success(result) =>
          if !(result.isSuccessful && result.outputFilePath != "") then
            r == result && backupItems == old(backupItems)
          else match CreateBackupItem(FileFacts(id, result.outputFilePath, creationTime, length))
            case Failure(e) => r == BackupResult(false, Message(e), "") && backupItems == old(backupItems)
            case Success(item) => r == result && backupItems == old(backupItems) + [item]
    {
      if current.None? {
        return BackupResult(false, NoConnectionMessage, "");
      }
      if credentialManager.None? {
        return BackupResult(false, Message(NullReference), "");
      }
      var securePassword := credentialManager.value.GetPassword(current.value.name);
      if |securePassword| == 0 {
        return BackupResult(false, NoCredentialsMessage, "");
      }
      match run {
        case Failure(e) =>
          r := BackupResult(false, Message(e), "");
        case Success(result) =>
          r := result;
          if result.isSuccessful && result.outputFilePath != "" {
            var made := CreateBackupItem(FileFacts(id, result.outputFilePath, creationTime, length));
            match made {
              case Failure(e) =>
                r := BackupResult(false, Message(e), "");
              case Success(item) =>
                backupItems := backupItems + [item];
            }
          }
      }
    }

    /**
     * `DeleteBackup`: deletes the file (`deleted` is the outcome of that, `Pass`
     * when there was no file) and then forgets the item; an exception leaves
     * the list as it was and answers false.
     */
    method DeleteBackup(item: BackupItem, deleted: Outcome) returns (ok: bool)
      modifies this`backupItems
      ensures ok <==> deleted.Pass?
      ensures ok ==> backupItems == RemoveFirst(old(backupItems), item)
      ensures ok && item in old(backupItems) ==>
        multiset(backupItems) == multiset(old(backupItems)) - multiset{item}
      ensures !ok ==> backupItems == old(backupItems)
    {
      if deleted.Fail? {
        return false;
      }
      if item in backupItems {
        RemoveFirstMultiset(backupItems, item);
      }
      backupItems := RemoveFirst(backupItems, item);
      ok := true;
    }
  }

  /**
   * A manager built by the constructor as written can never back up: even
   * with a connection and a run that would succeed, the null credential
   * manager makes the call fail before the script starts.
   */
  method AsWrittenBackupFails(profile: ConnectionProfile, result: BackupResult,
    id: ObjectId, creationTime: TimeStamp, length: Result<int>)
    returns (r: BackupResult)
    ensures r == BackupResult(false, Message(NullReference), "")
  {
    var manager := new BackupManager.AsWritten(None);
    r := manager.PerformVMBackupAsync(Some(profile), Success(result), id, creationTime, length);
  }

  /**
   * With the credential manager injected, a connection whose password is
   * stored gets the script's result, and a successful run lists the file it
   * names; only a file whose length cannot be read turns it into a failure.
   */
  method InjectedBackupRuns(profile: ConnectionProfile, password: string, result: BackupResult,
    id: ObjectId, creationTime: TimeStamp, length: Result<int>)
    returns (r: BackupResult, items: seq<BackupItem>)
    requires password != ""
    ensures !(result.isSuccessful && result.outputFilePath != "") ==> r == result && items == []
    ensures result.isSuccessful && result.outputFilePath != "" ==>
      match CreateBackupItem(FileFacts(id, result.outputFilePath, creationTime, length))
      case Failure(e) => r == BackupResult(false, Message(e), "") && items == []
      case Success(item) => r == result && items == [item]
  {
    var credentials := new CredentialManager(map[profile.name := password], map[profile.name := profile.sourceUsername]);
    var manager := new BackupManager(credentials, None);
    r := manager.PerformVMBackupAsync(Some(profile), Success(result), id, creationTime, length);
    items := manager.backupItems;
  }

  /** The item a listed file contributes: none when it cannot be made. */
  function Loaded(file: FileFacts): seq<BackupItem>
  {
    if CreateBackupItem(file).Success? then [CreateBackupItem(file).value] else []
  }

  /** The items `LoadExistingBackups` adds for the listed files, in order. */
  function ExistingItems(files: seq<FileFacts>): (items: seq<BackupItem>)
    ensures |items| <= |files|
  {
    if files == [] then [] else ExistingItems(files[..|files| - 1]) + Loaded(files[|files| - 1])
  }

  lemma ExistingItemsSnoc(fs: seq<FileFacts>, i: nat)
    requires i < |fs|
    ensures ExistingItems(fs[..i + 1]) == ExistingItems(fs[..i]) + Loaded(fs[i])
  {
    assert fs[..i + 1][..i] == fs[..i];
  }

  /** One turn of the loading loop: adding the next file's item extends the items of the files so far. */
  lemma AppendSnoc(start: seq<BackupItem>, fs: seq<FileFacts>, i: nat, items: seq<BackupItem>)
    requires i < |fs| && items == start + ExistingItems(fs[..i])
    ensures items + Loaded(fs[i]) == start + ExistingItems(fs[..i + 1])
  {
    ExistingItemsSnoc(fs, i);
  }

  /** The loaded items are exactly the items of the listed files that could be made. */
  lemma {:induction false} ExistingItemsMembers(files: seq<FileFacts>)
    ensures forall item :: item in ExistingItems(files) <==>
      exists k :: 0 <= k < |files| && CreateBackupItem(files[k]) == Success(item)
    decreases |files|
  {
    if files != [] {
      var p := files[..|files| - 1];
      ExistingItemsMembers(p);
      forall item
        ensures item in ExistingItems(files) <==>
          exists k :: 0 <= k < |files| && CreateBackupItem(files[k]) == Success(item)
      {
        if item in ExistingItems(files) {
          if item in ExistingItems(p) {
            var k :| 0 <= k < |p| && CreateBackupItem(p[k]) == Success(item);
            assert files[k] == p[k];
          } else {
            assert CreateBackupItem(files[|files| - 1]) == Success(item);
          }
        }
        if exists k :: 0 <= k < |files| && CreateBackupItem(files[k]) == Success(item) {
          var k :| 0 <= k < |files| && CreateBackupItem(files[k]) == Success(item);
          if k < |files| - 1 {
            assert p[k] == files[k];
          }
        }
      }
    }
  }

  /**
   * When every listed file's length can be read, there is one item per file
   * and each file gives the item at its own position: at that path, completed.
   */
  lemma {:induction false} ExistingItemsAt(files: seq<FileFacts>, k: nat)
    requires forall j :: 0 <= j < |files| ==> files[j].length.Success?
    requires k < |files|
    ensures |ExistingItems(files)| == |files|
    ensures CreateBackupItem(files[k]) == Success(ExistingItems(files)[k])
    ensures ExistingItems(files)[k].filePath == files[k].path && ExistingItems(files)[k].status == "Completed"
    decreases |files|
  {
    var p := files[..|files| - 1];
    if k < |files| - 1 {
      ExistingItemsAt(p, k);
    } else if p != [] {
      ExistingItemsAt(p, 0);
    }
  }
}
