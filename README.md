# UiDesktopApp2 core, modelled in Dafny

UiDesktopApp2 is a WPF desktop assistant for migrating virtual machines between
VMware vCenter servers. This project models the application logic behind its pages.
What the application does not decide itself comes in as parameters: the file system,
the Windows credential vault, PowerShell and the clock all enter that way.

- **Profile store** (`ProfileStore`). This is the JSON-backed list of saved
  connection profiles. Names are unique ignoring case. Saving replaces a profile by
  object identity or appends a new one. Deleting removes the first
  case-insensitive match. Every write of `connection_profiles.json` is counted.
  The file contents are the list as last written.
- **Store mirrors** (`ConnectionManagement`, and the pages that reload the store
  after each change).
- **Credential store** (`Credentials`). Passwords and user names are kept per
  profile name. Deleting a credential that does not exist throws.
- **The two script registries** (`ScriptRegistry` and `ScriptPaths`):
  - `ScriptRegistry` registers a script only if its file exists. Bulk registration
    of a folder keeps the first path registered under each name.
  - `ScriptPaths` overwrites unconditionally. Its lookup joins the stored path to
    the base directory.
- **View-model rules:**
  - The filters of the data, migration, backup, profile and log pages.
  - The migration queue.
  - The "N - Copy" name search for duplicated profiles.
  - Backup retention and clean-up.
  - The validation history.
  - The connection page's save, load and delete commands.
  - The settings page's theme switch.
- **Small classifiers** (`BackupManagement`, `DataView`, `Commands`, `Converters`):
  backup classification, OS classification, `RelayCommand` and the null-to-visibility
  converter.

The modules follow the source tree:

- Services: `ProfileStore`, `ConnectionManagement`, `Credentials`, `ScriptRegistry`,
  `ScriptPaths`, `BackupManagement`, `Commands`.
- Converters: `Converters`.
- ViewModels/Pages: `ConnectionView`, `ConnectionSettings`, `ValidationView`,
  `Migration`, `DataView`, `BackupView`, `LogsView`, `Settings`.
- ViewModels/Dialogs: `ProfileManagement`.
- Models, and the UI library's severity enum: `Models`, `InfoBar`.

`Text`, `Paths`, `Sequences` and `Sorting` model the .NET string, path, list and
LINQ operations the code relies on.

How the model handles state and errors:

- **Classes.** Entities the source changes in place are classes. This covers view
  models, the store, registries, `MigrationTask`, `VirtualMachineInfo` and
  `VCenterServer`.
- **Values.** `ConnectionProfile` and `BackupItem` are datatypes. Each carries an
  `id` that stands for its object identity, so `ReferenceEquals` and
  `List.Remove` can be modelled.
- **Exceptions.** These are `Result`/`Outcome` values carrying an `Error`.
- **Catch-and-report paths.** These are modelled branch by branch.

## Model

| member | source | states |
|---|---|---|
| `ProfileStore.FindByName` | Services/JsonProfileManager.cs:36-40 | the index found is the first profile whose name equals the query ignoring case; none is reported only when no profile matches |
| `ProfileStore.IndexOfObject` | Services/JsonProfileManager.cs:63 | the index found holds the very object saved; none means the object is not in the list |
| `ProfileStore.Lookup` | Services/JsonProfileManager.cs:36-40 | `GetProfile` finds a profile exactly when some stored name equals the query ignoring case, and then it is the first such one |
| `ProfileStore.DeleteOutcome` | Services/JsonProfileManager.cs:83-116 | delete fails exactly on a blank name, or when a profile was removed and writing the file failed; a write failure reports the write exception with its own message |
| `ProfileStore.SaveFailsIff` | Services/JsonProfileManager.cs:46-60 | saving throws exactly on a null profile, a blank name or a name another object already has ignoring case, each with its own exception |
| `ProfileStore.SaveReplacesSameObject` | Services/JsonProfileManager.cs:63-67 | saving an object already stored replaces it at its index, with length and every other entry unchanged |
| `ProfileStore.SaveAppendsNewObject` | Services/JsonProfileManager.cs:68-71 | saving an object not yet stored appends it, so the list grows by exactly one |
| `ProfileStore.SaveKeepsNamesDistinct` | Services/JsonProfileManager.cs:54-71 | names that were pairwise distinct ignoring case stay so after any successful save |
| `ProfileStore.SaveKeepsIdsDistinct` | Services/JsonProfileManager.cs:63-71 | no object is stored twice after a successful save |
| `ProfileStore.SaveThenLookup` | Services/JsonProfileManager.cs:36-71 | after a successful save, looking its name up gives back the saved profile |
| `ProfileStore.DeleteErrorsAndNoop` | Services/JsonProfileManager.cs:87-109 | deleting a blank name throws; deleting an unknown name leaves the list as it was |
| `ProfileStore.DeleteRemovesFirstMatch` | Services/JsonProfileManager.cs:95-101 | a delete that finds the name removes exactly the first match and keeps the rest in order |
| `ProfileStore.DeleteThenLookupFails` | Services/JsonProfileManager.cs:95-101 | with distinct names, no profile of the deleted name is left |
| `ProfileStore.DeleteIdempotent` | Services/JsonProfileManager.cs:83-116 | a delete keeps names distinct, and deleting the same name twice equals deleting it once |
| `ProfileStore.ProfileManager.constructor` | Services/JsonProfileManager.cs:18-29 | the list is the deserialised file, or empty when the file is missing or unreadable; nothing has been written yet |
| `ProfileStore.ProfileManager.GetAllProfiles` | Services/JsonProfileManager.cs:31-34 | returns the stored list in stored order |
| `ProfileStore.ProfileManager.GetProfile` | Services/JsonProfileManager.cs:36-40 | returns the case-insensitive lookup of the name |
| `ProfileStore.ProfileManager.SaveToFile` | Services/JsonProfileManager.cs:145-162 | each call is one write; the file holds the list after a successful write, and the old contents after a failed one, which is rethrown |
| `ProfileStore.ProfileManager.SaveProfile` | Services/JsonProfileManager.cs:42-81 | a rejected save changes nothing and writes nothing; an accepted one changes the list as specified and always writes the file once (a failed write leaves the list changed) |
| `ProfileStore.ProfileManager.DeleteProfile` | Services/JsonProfileManager.cs:83-116 | answers the delete outcome; writes the file only when a profile was actually removed; a blank name changes nothing |
| `ConnectionManagement.ConnectionManager.constructor` | Services/ConnectionManager.cs:24-34 | `ServerProfiles` starts as the store's profiles in store order, with nothing selected |
| `ConnectionManagement.ConnectionManager.LoadProfiles` | Services/ConnectionManager.cs:36-44 | after the reload `ServerProfiles` is exactly the store's list, so nothing stale survives |
| `ConnectionManagement.ConnectionManager.AddProfile` | Services/ConnectionManager.cs:65-69 | the store changes as a save does, and its file and write count too (a refused save writes nothing, an accepted one writes once and the file holds the list unless the write fails); on success the mirror equals the store; when the store throws the reload is skipped and the mirror is unchanged; the two selections never change |
| `ConnectionManagement.ConnectionManager.RemoveProfile` | Services/ConnectionManager.cs:71-75 | the same for deletion: succeeds exactly on a non-blank name whose removal was written (or that was absent); a blank or absent name writes nothing, a present one writes once; mirror synced on success, untouched on failure; selections untouched |
| `Credentials.CredentialManager.constructor` | Services/WindowsCredentialManager.cs:14-17 | the store starts with the given credentials |
| `Credentials.CredentialManager.GetPassword` | Services/WindowsCredentialManager.cs:59-87 | the stored password, or an empty one when none is stored under the key |
| `Credentials.CredentialManager.SavePassword` | Services/WindowsCredentialManager.cs:19-57 | stores or replaces the password and user name under the key, nothing else; a refused vault write rethrows its error and stores nothing |
| `Credentials.CredentialManager.DeletePassword` | Services/WindowsCredentialManager.cs:89-105 | removes an existing credential; a missing one throws the not-found error and changes nothing |
| `ScriptRegistry.ScriptPath` | Services/PowerShellScriptManager.cs:41-56 | succeeds exactly for a registered name, with its stored path; otherwise a `KeyNotFoundException` naming the script |
| `ScriptRegistry.RegisterThenLookup` | Services/PowerShellScriptManager.cs:19-39 | registration succeeds exactly when the file exists, and the name then resolves to the full path; otherwise it throws file-not-found and the map is unchanged |
| `ScriptRegistry.RegisterKeepsOtherNames` | Services/PowerShellScriptManager.cs:31 | registering one name leaves every other name's lookup unchanged |
| `ScriptRegistry.RegisterEachKeepsEarlier` | Services/PowerShellScriptManager.cs:74-93 | first wins: every name registered before the scan keeps its path, wherever the scan stops |
| `ScriptRegistry.RegisterEachAddsOnlyStems` | Services/PowerShellScriptManager.cs:74-93 | the scan adds no name other than the stem of a listed file |
| `ScriptRegistry.RegisterEachSuccessCoversAll` | Services/PowerShellScriptManager.cs:74-93 | a scan that does not throw leaves every listed file's stem registered |
| `ScriptRegistry.RegisterEachFirstWins` | Services/PowerShellScriptManager.cs:74-93 | when several listed files share a stem that was not registered before, the name keeps the path of the first of them |
| `ScriptRegistry.RegisterEachAppend` | Services/PowerShellScriptManager.cs:74-93 | scanning two listings in a row is scanning their concatenation, and a throw in the first skips the second |
| `ScriptRegistry.RegisterEachKeepsPrefix` | Services/PowerShellScriptManager.cs:74-93 | whatever the files before a throwing registration registered stays registered, with the same path |
| `ScriptRegistry.MissingRootRegistersNothing` | Services/PowerShellScriptManager.cs:68-72 | a missing scripts folder throws directory-not-found and registers nothing |
| `ScriptRegistry.PowerShellScriptManager.constructor` | Services/PowerShellScriptManager.cs:14-17 | starts with no scripts |
| `ScriptRegistry.PowerShellScriptManager.RegisterScript` | Services/PowerShellScriptManager.cs:19-39 | map and outcome are those of the registration rule |
| `ScriptRegistry.PowerShellScriptManager.GetScriptPath` | Services/PowerShellScriptManager.cs:41-56 | answers the lookup rule |
| `ScriptRegistry.PowerShellScriptManager.RegisterAllScripts` | Services/PowerShellScriptManager.cs:63-94 | map and outcome are those of the bulk scan over the recursive `*.ps1` listing |
| `ScriptPaths.ScriptPath` | Services/PowerShellManager.cs:20-29 | a registered name yields the base directory joined with its stored path; an unregistered one throws file-not-found with the script's name |
| `ScriptPaths.RegisterThenLookup` | Services/PowerShellManager.cs:15-28 | a registered name resolves to its joined path, and registering A leaves the lookup of every B other than A unchanged |
| `ScriptPaths.PowerShellScriptManager.constructor` | Services/PowerShellManager.cs:11-13 | starts with no scripts |
| `ScriptPaths.PowerShellScriptManager.RegisterScript` | Services/PowerShellManager.cs:15-18 | stores or overwrites the entry unconditionally and nothing else |
| `ScriptPaths.PowerShellScriptManager.GetScriptPath` | Services/PowerShellManager.cs:20-29 | answers the lookup rule above |
| `BackupManagement.DetermineBackupType` | Services/BackupManager.cs:272-284 | the kind is one of four, chosen case-sensitively by the first marker present in the file name, in priority order |
| `BackupManagement.BackupTypeIgnoresFolder` | Services/BackupManager.cs:274 | only the file name counts: the folder a backup sits in does not change its kind |
| `BackupManagement.CreateBackupItemNamed` | Services/BackupManager.cs:253-267 | a file `stem.ext` in any folder whose length can be read is listed under `stem`, at its path, with that size, as "Completed", typed by its name; when reading the length throws, making the item fails with that error |
| `BackupManagement.ValidateBackup` | Services/BackupManager.cs:131-163 | valid exactly when the file exists, is not empty and, for a `.json` extension in any case, reads and parses |
| `BackupManagement.BackupManager.AsWritten` | Services/BackupManager.cs:27-38 | the constructor as written leaves the credential manager null and loads the existing backups |
| `BackupManagement.BackupManager.constructor` | Services/BackupManager.cs:27-38 | the constructor with the credential manager injected; loads the existing backups |
| `BackupManagement.BackupManager.LoadExistingBackups` | Services/BackupManager.cs:305-333 | appends, in listing order, the item of every listed `.json` file whose length can be read; a file whose read throws is skipped; a missing folder adds nothing |
| `BackupManagement.ExistingItems` | Services/BackupManager.cs:312-322 | at most one item per file |
| `BackupManagement.ExistingItemsMembers` | Services/BackupManager.cs:312-322 | an item is listed exactly when it is the item made from some listed file |
| `BackupManagement.ExistingItemsAt` | Services/BackupManager.cs:312-322 | when every file's length can be read: one item per file, the k-th made from the k-th file, at that path, "Completed" |
| `BackupManagement.BackupManager.PerformVMBackupAsync` | Services/BackupManager.cs:43-92 | no connection, a null credential manager and an empty password each fail with their message and add nothing; a thrown run fails with its message; otherwise the run's result is returned, and an item is added only for a successful run with an output path; when that file's length cannot be read the call fails with that error's message and adds nothing |
| `BackupManagement.AsWrittenBackupFails` | Services/BackupManager.cs:27-58 | a manager built as written fails every backup with the null-reference message, even for a connection and a run that would succeed |
| `BackupManagement.InjectedBackupRuns` | Services/BackupManager.cs:43-92 | with the credential manager injected and the password stored, the script's result is returned and a successful run with an output file is listed, or fails with the message of the length read's error |
| `BackupManagement.BackupManager.DeleteBackup` | Services/BackupManager.cs:203-221 | answers true exactly when the file deletion did not throw, and then removes one copy of the item; otherwise the list is unchanged |
| `BackupView.GetRetentionDays` | ViewModels/Pages/BackupViewModel.cs:875-886 | the five listed choices give at most 365 days; every other text gives `int.MaxValue` |
| `BackupView.KeepAllCutoffThrows` | ViewModels/Pages/BackupViewModel.cs:306 | for "Keep All" or any unlisted choice, the `AddDays` cutoff always throws |
| `BackupView.ListedRetentionCutoff` | ViewModels/Pages/BackupViewModel.cs:306 | for a listed choice, the cutoff lies exactly that many days before now (once a year has passed since 0001-01-01) |
| `BackupView.FilterBackupsMeaning` | ViewModels/Pages/BackupViewModel.cs:560-586 | non-backups never pass; the type must match unless "All Types"; "All Dates" keeps all, "This Year" keeps items since the year's start, and an unknown filter keeps everything |
| `BackupView.LastDaysFilter` | ViewModels/Pages/BackupViewModel.cs:574-576 | "Last N Days" keeps exactly the backups created at most N days before now |
| `BackupView.OldOnes` | ViewModels/Pages/BackupViewModel.cs:307 | every selected backup was created strictly before the cutoff |
| `BackupView.Kept` | ViewModels/Pages/BackupViewModel.cs:302-325 | every kept backup was created at or after the cutoff |
| `BackupView.KeptAndOldPartition` | ViewModels/Pages/BackupViewModel.cs:307-316 | every backup is either old or kept, never both, and none is lost |
| `BackupView.DropNextOld` | ViewModels/Pages/BackupViewModel.cs:313-316 | one turn of the loop (`List.Remove`) removes exactly the next old backup |
| `BackupView.DropAllOld` | ViewModels/Pages/BackupViewModel.cs:309-317 | removing every old backup leaves exactly the kept ones, in order |
| `BackupView.RemoveOldBackups` | ViewModels/Pages/BackupViewModel.cs:309-317 | the loop stops at the first undeletable old backup with the earlier removals kept; if none blocks, the history is exactly the kept backups |
| `BackupView.ScheduledBackupItemNamed` | ViewModels/Pages/BackupViewModel.cs:655-667 | a timed backup's item is named `<prefix><nameStamp>.backup`; its path, from a separate clock reading, has the file name `<prefix><pathStamp>.backup`; the two agree exactly when the readings render the same; "Complete", its kind's type, created at its own reading |
| `BackupView.ImportProgressMonotone` | ViewModels/Pages/BackupViewModel.cs:698-701 | the progress reports never go back |
| `BackupView.ImportProgressCapped` | ViewModels/Pages/BackupViewModel.cs:698-701 | no report exceeds the last one, which is 100 |
| `BackupView.ImportProgressPositive` | ViewModels/Pages/BackupViewModel.cs:698-701 | a report is at least 1 exactly when (i+1)·100 reaches n |
| `BackupView.ImportProgressBounds` | ViewModels/Pages/BackupViewModel.cs:693-705 | reports lie in 0..100, never go back, end at 100, and are 0 while fewer than one file in a hundred is done |
| `BackupView.BackupViewModel.constructor` | ViewModels/Pages/BackupViewModel.cs:127-143 | the page starts with the loaded history, nothing selected, all four actions disabled, idle, "30 Days" retention and the ready status |
| `BackupView.BackupViewModel.ShowStatusMessage` | ViewModels/Pages/BackupViewModel.cs:930-945 | the status bar shows the given title, message and severity |
| `BackupView.BackupViewModel.CleanupBackups` | ViewModels/Pages/BackupViewModel.cs:302-325 | a cutoff that throws changes nothing and reports the error; otherwise old backups are removed up to the first deletion that throws (then that error is reported), or all of them with the removed count |
| `BackupView.BackupViewModel.DeleteBackup` | ViewModels/Pages/BackupViewModel.cs:387-406 | no selection changes nothing, the status included; otherwise the bar is shown, and a throwing file deletion keeps the history and reports, or one copy of the item is removed and success is reported |
| `BackupView.BackupViewModel.SetSelectedBackup` | ViewModels/Pages/BackupViewModel.cs:542-548 | on a change: restore iff "Complete", download iff the file exists, delete iff selected, verify iff not "Verifying"; a null selection disables all four |
| `BackupView.BackupViewModel.StartBackupOperation` | ViewModels/Pages/BackupViewModel.cs:588-609 | the busy state is reset whatever the operation does, and its exception reaches the caller |
| `BackupView.BackupViewModel.RunTimedBackup` | ViewModels/Pages/BackupViewModel.cs:611-753 | on success the new item, built from the separate clock readings for its name, creation time and path, goes in front of the history (a configuration backup also records its time); a failure changes the history not at all and reports the error; the busy state is reset either way |
| `BackupView.BackupViewModel.CreateBackup` | ViewModels/Pages/BackupViewModel.cs:146-166 | a cancelled dialog changes nothing (history, busy state, status); otherwise the busy state is reset; a write failure shows the error and adds nothing; success puts the full backup in front of the history and leaves the status alone |
| `BackupView.BackupViewModel.ImportVMTemplates` | ViewModels/Pages/BackupViewModel.cs:693-705 | one report per file, each the progress formula, bounded by 100, never going back, the last 100; the template count grows by the file count |
| `BackupView.BackupViewModel.ImportTemplates` | ViewModels/Pages/BackupViewModel.cs:239-263 | a cancelled dialog changes nothing at all; otherwise the busy state is reset, and either the count grows by the files picked and "Success" is shown, or the import's exception leaves the count and is reported as "Import Error" / "Template import failed: ..." |
| `ConnectionSettings.SetProperty` | ViewModels/Pages/ConnectionSettingsViewModel.cs:161-169 | the field ends up holding the value; true and one event exactly when the old value differed |
| `ConnectionSettings.SetPropertyIdempotent` | ViewModels/Pages/ConnectionSettingsViewModel.cs:161-169 | setting the same value again raises nothing and answers false |
| `ConnectionSettings.FilteredProfilesMeaning` | ViewModels/Pages/ConnectionSettingsViewModel.cs:51-58 | a blank or null filter shows every profile; otherwise exactly the profiles whose name, source vCenter or source user contains the filter ignoring case, in list order |
| `ConnectionSettings.CanSaveMeansOnlyClashFails` | ViewModels/Pages/ConnectionSettingsViewModel.cs:106-124 | when saving is enabled the store can refuse only for a name clash, and deleting is enabled too |
| `ConnectionSettings.ConnectionSettingsViewModel.constructor` | ViewModels/Pages/ConnectionSettingsViewModel.cs:21-33 | starts with the store's profiles sorted by name, no filter, no selection |
| `ConnectionSettings.ConnectionSettingsViewModel.SetSearchFilter` | ViewModels/Pages/ConnectionSettingsViewModel.cs:37-46 | a change raises `SearchFilter` then `FilteredProfiles`; an equal value raises nothing |
| `ConnectionSettings.ConnectionSettingsViewModel.SetSelectedProfile` | ViewModels/Pages/ConnectionSettingsViewModel.cs:66-71 | a change loads the new selection's stored password (empty for none) and raises both events; an equal value changes nothing |
| `ConnectionSettings.ConnectionSettingsViewModel.LoadProfiles` | ViewModels/Pages/ConnectionSettingsViewModel.cs:138-151 | `Profiles` becomes the store's profiles sorted by name (a permutation, sorted) |
| `ConnectionSettings.ConnectionSettingsViewModel.NewProfile` | ViewModels/Pages/ConnectionSettingsViewModel.cs:93-104 | appends a fresh "New Profile" with empty fields and selects it |
| `ConnectionSettings.ConnectionSettingsViewModel.SaveProfile` | ViewModels/Pages/ConnectionSettingsViewModel.cs:112-122 | a refused save changes nothing (no write, no credential, no event); an accepted one writes once; a failed write then stops before the credential and the reload; otherwise the file holds the list; a refused credential then stops before the reload; otherwise the password and user name are stored under the name and the list is reloaded with one `FilteredProfiles` event |
| `ConnectionSettings.ConnectionSettingsViewModel.DeleteProfile` | ViewModels/Pages/ConnectionSettingsViewModel.cs:126-132 | no selection throws a null reference and changes nothing; the store writes once exactly when the non-blank name was present; a store failure or a missing credential stops with the selection, password, events and credentials kept; otherwise the password and user name are removed, the list reloaded, the selection and password box cleared, raising `FilteredProfiles`, `SelectedProfile` and `Password` |
| `ConnectionSettings.ReplaceObject` | ViewModels/Pages/ConnectionSettingsViewModel.cs:60-64 | an in-place edit of one profile object: the list keeps its length and ids, the entries of that object show the edit, the others are unchanged |
| `ConnectionSettings.EditedFoundUnderNewName` | ViewModels/Pages/ConnectionSettingsViewModel.cs:112-132 | after renaming the selected profile to a free name, the store finds it under the new name and deleting that name removes exactly that entry |
| `ConnectionSettings.ConnectionSettingsViewModel.SetPassword` | ViewModels/Pages/ConnectionSettingsViewModel.cs:79-87 | the password box's value is taken, with one "Password" event exactly when it changed |
| `ConnectionSettings.ConnectionSettingsViewModel.EditSelectedProfile` | ViewModels/Pages/ConnectionSettingsViewModel.cs:60-64 | editing the selection's name and source fields changes that one object, as both the page's list and the store's list see it, and writes no file; with nothing selected nothing changes |
| `ConnectionView.ServerAddressOf` | ViewModels/Pages/ConnectionViewModel.cs:310-312 | both branches of the ternary give the server's own address |
| `ConnectionView.FirstWithAddress` | ViewModels/Pages/ConnectionViewModel.cs:382 | the index found is the first server with that address; none means no server has it |
| `ConnectionView.SaveRefusal` | ViewModels/Pages/ConnectionViewModel.cs:296-328 | saving is refused exactly when the name is blank, no server is selected, its address is blank or the name is stored; the first failing check's message |
| `ConnectionView.ConnectionViewModel.constructor` | ViewModels/Pages/ConnectionViewModel.cs:33-48 | the five servers are fresh, with the four fixed addresses and the custom entry last; nothing selected or entered |
| `ConnectionView.ConnectionViewModel.LoadSavedProfiles` | ViewModels/Pages/ConnectionViewModel.cs:191-217 | the list becomes the store's profiles in order, and the count is reported |
| `ConnectionView.ConnectionViewModel.TestSourceConnection` | ViewModels/Pages/ConnectionViewModel.cs:220-253 | no source server reports that; otherwise the test's success, failure text or exception is reported |
| `ConnectionView.ConnectionViewModel.TestDestinationConnection` | ViewModels/Pages/ConnectionViewModel.cs:256-289 | the same for the destination side |
| `ConnectionView.ConnectionViewModel.SaveAsProfile` | ViewModels/Pages/ConnectionViewModel.cs:292-367 | a refusal saves nothing and reports its message; otherwise the new profile is appended and written once, a failed write is reported and stores no credential; after a good write a non-blank password is stored with its user name, the list reloaded and the name cleared, unless the vault refuses it, which is reported with no reload |
| `ConnectionView.ConnectionViewModel.StoreNewProfile` | ViewModels/Pages/ConnectionViewModel.cs:331-356 | after the checks: appended profile written once; on a good write the non-blank password and its user name stored, list reloaded, name cleared; a failed write or a vault refusal reported as "Failed to save profile" with no reload |
| `ConnectionView.ConnectionViewModel.LoadProfile` | ViewModels/Pages/ConnectionViewModel.cs:370-418 | no selection changes only the status; otherwise the first server at the profile's address is selected, else the custom entry is moved there and selected; the user name is taken, and the password only when one is stored |
| `ConnectionView.ConnectionViewModel.DeleteProfile` | ViewModels/Pages/ConnectionViewModel.cs:421-458 | no selection reports that and changes nothing; the store writes once exactly when the non-blank name was present; a store failure is reported with the list, selection and credentials kept; otherwise the profile is gone, its password and user name removed (a missing credential swallowed), the list reloaded and the selection cleared |
| `ConnectionView.ConnectionViewModel.CopySourceToDestination` | ViewModels/Pages/ConnectionViewModel.cs:517-525 | the destination server, user and password become the source's |
| `ValidationView.ValidateProfileConnection` | ViewModels/Pages/ValidationViewModel.cs:161-187 | "Success" iff the server accepted, "Failed" iff it refused, "Error" iff the test threw; version or "N/A"; message by the same cases; always the profile's name |
| `ValidationView.StatusSeverity` | ViewModels/Pages/ValidationViewModel.cs:107-109 | green exactly for "Success", red otherwise |
| `ValidationView.GreenOnlyWhenConnected` | ViewModels/Pages/ValidationViewModel.cs:103-109 | the status bar turns green exactly when the server accepted the connection |
| `ValidationView.RowDependsOnNameOnly` | ViewModels/Pages/ValidationViewModel.cs:168-186 | the row depends on the profile only through its name |
| `ValidationView.ValidationViewModel.constructor` | ViewModels/Pages/ValidationViewModel.cs:53-63 | starts with the store's profiles, an empty history and the initial status |
| `ValidationView.ValidationViewModel.LoadProfiles` | ViewModels/Pages/ValidationViewModel.cs:65-74 | the list becomes the store's profiles in order |
| `ValidationView.ValidationViewModel.RefreshProfiles` | ViewModels/Pages/ValidationViewModel.cs:77-81 | reloads the profiles and empties the history |
| `ValidationView.ValidationViewModel.AddNewProfile` | ViewModels/Pages/ValidationViewModel.cs:84-91 | only shows the not-implemented warning |
| `ValidationView.ValidationViewModel.TestConnectionAsync` | ViewModels/Pages/ValidationViewModel.cs:94-123 | no profile does nothing; otherwise the new row goes in front (newest first) and the status bar shows it |
| `ValidationView.ValidationViewModel.EditProfile` | ViewModels/Pages/ValidationViewModel.cs:126-135 | no profile does nothing; otherwise announces the profile |
| `ValidationView.ValidationViewModel.DeleteProfile` | ViewModels/Pages/ValidationViewModel.cs:138-159 | no profile does nothing; the store writes once exactly when the non-blank name was present; on success the list is reloaded and the deletion reported, also for an unknown name whatever the write would have done; a failed write or the store's exception is reported with the list kept |
| `ProfileManagement.FilterProfilesMeaning` | ViewModels/Dialogs/ProfileManagementViewModel.cs:81-90 | non-profiles and a blank search pass; otherwise exactly the profiles whose name, server address or user name contains the text ignoring case |
| `ProfileManagement.CopyCandidatesDistinct` | ViewModels/Dialogs/ProfileManagementViewModel.cs:166-173 | no two candidate names are equal ignoring case, so the search never meets a stored name twice |
| `ProfileManagement.CopyCandidateNotBlank` | ViewModels/Dialogs/ProfileManagementViewModel.cs:166-173 | every candidate is a non-blank name |
| `ProfileManagement.DuplicateAlwaysSaved` | ViewModels/Dialogs/ProfileManagementViewModel.cs:166-183 | the copy under its first free name is always accepted and appended, and found again under that name, in any store whose objects are distinct |
| `ProfileManagement.SearchStep` | ViewModels/Dialogs/ProfileManagementViewModel.cs:168-172 | each taken candidate is a stored name not met before, so the search ends |
| `ProfileManagement.ProfileManagementViewModel.constructor` | ViewModels/Dialogs/ProfileManagementViewModel.cs:51-71 | starts with the store's profiles loaded and reported, nothing selected, no search |
| `ProfileManagement.ProfileManagementViewModel.ShowStatusMessage` | ViewModels/Dialogs/ProfileManagementViewModel.cs:263-275 | the bar shows the given title, message and severity; nothing else changes |
| `ProfileManagement.ProfileManagementViewModel.LoadProfiles` | ViewModels/Dialogs/ProfileManagementViewModel.cs:93-117 | the list is cleared and refilled from the store in order; the count is reported |
| `ProfileManagement.ProfileManagementViewModel.FindDuplicateName` | ViewModels/Dialogs/ProfileManagementViewModel.cs:166-173 | returns "N - Copy", then "N - Copy (1)", … whichever comes first that the store does not know |
| `ProfileManagement.ProfileManagementViewModel.DuplicateProfile` | ViewModels/Dialogs/ProfileManagementViewModel.cs:160-200 | no selection changes nothing; otherwise a copy of the source's server, user and password under the first free name is appended and written once; on a good write a non-empty stored password is copied with the user name and the list reloaded; a failed write or a vault refusal is reported as "Duplicate Error" with its message, the credentials and list kept |
| `ProfileManagement.ProfileManagementViewModel.DeleteProfile` | ViewModels/Dialogs/ProfileManagementViewModel.cs:210-240 | no selection changes nothing; the store writes once exactly when the non-blank name was present; a store failure is reported with list, selection and credentials kept; otherwise the profile is gone, its credential removed (a missing one swallowed), the list reloaded and the selection cleared |
| `ProfileManagement.ProfileManagementViewModel.SelectProfile` | ViewModels/Dialogs/ProfileManagementViewModel.cs:255-261 | raises `ProfileSelected` with the selection only when there is one, and changes nothing else |
| `Migration.FilterVMsMeaning` | ViewModels/Pages/MigrationViewModel.cs:399-423 | non-VMs never pass; the exact power state unless "All States", the lower-cased search in name, cluster or datastore unless blank, candidacy when asked |
| `Migration.ClearedFiltersShowAll` | ViewModels/Pages/MigrationViewModel.cs:375-382 | under the cleared filters every VM passes |
| `Migration.CheckedMembers` | ViewModels/Pages/MigrationViewModel.cs:189 | the checked VMs are exactly the selected ones of the list |
| `Migration.NewNamesProperties` | ViewModels/Pages/MigrationViewModel.cs:196-212 | the appended names were not queued, every candidate ends up queued, and a queue without duplicate names keeps none |
| `Migration.NewNamesSnoc` | ViewModels/Pages/MigrationViewModel.cs:198-211 | meeting one more VM appends it exactly when its name is not queued by then |
| `Migration.CountQueued` | ViewModels/Pages/MigrationViewModel.cs:214 | the pending count is at most the queue length |
| `Migration.CountQueuedAppend` | ViewModels/Pages/MigrationViewModel.cs:214 | the pending count of two queues together is the sum of their counts |
| `Migration.CountQueuedRemove` | ViewModels/Pages/MigrationViewModel.cs:223-224 | removing a task lowers the count by one exactly when it was queued |
| `Migration.CountQueuedAllQueued` | ViewModels/Pages/MigrationViewModel.cs:200-214 | tasks that are all queued count in full |
| `Migration.CancelledTasksMembers` | ViewModels/Pages/MigrationViewModel.cs:267-278 | the history gains exactly the in-progress active tasks, each once |
| `Migration.CancelledTasksStep` | ViewModels/Pages/MigrationViewModel.cs:267-278 | one step of the walk takes a task exactly when it is in progress and met for the first time |
| `Migration.SettingsError` | ViewModels/Pages/MigrationViewModel.cs:425-440 | passes exactly when both destinations are chosen; the cluster is checked first, then the datastore |
| `Migration.MappingsOf` | ViewModels/Pages/MigrationViewModel.cs:543-554 | never more mappings than lines |
| `Migration.MappingLineParses` | ViewModels/Pages/MigrationViewModel.cs:545-552 | a line written from a mapping with comma-free, trimmed fields reads back as that mapping |
| `Migration.MappingsRoundTrip` | ViewModels/Pages/MigrationViewModel.cs:543-554 | reading back the lines of such mappings gives the mappings, in order |
| `Migration.HeaderSkipped` | ViewModels/Pages/MigrationViewModel.cs:543 | the first line is never read as a mapping, whatever it holds |
| `Migration.EnqueueNew` | ViewModels/Pages/MigrationViewModel.cs:196-212 | the queue keeps its prefix and gains one new queued task per VM whose name is not queued by then; the pending count grows by the number added |
| `Migration.CancelInProgress` | ViewModels/Pages/MigrationViewModel.cs:267-278 | every in-progress task becomes cancelled by the user and is returned once, in order; other tasks are untouched |
| `Migration.CancelIfInProgress` | ViewModels/Pages/MigrationViewModel.cs:269-276 | a task is cancelled exactly when it was in progress |
| `Migration.MigrationViewModel.constructor` | ViewModels/Pages/MigrationViewModel.cs:149-163 | empty queue, lists, history and network mappings; "Cold Migration", "Ready to migrate", "All States", candidates only |
| `Migration.MigrationViewModel.AddSelectedVMsToQueue` | ViewModels/Pages/MigrationViewModel.cs:187-216 | nothing checked leaves the queue; otherwise existing tasks are kept, one queued task per new name is appended, the pending count equals the queued tasks, and the message counts every checked VM |
| `Migration.MigrationViewModel.RemoveFromQueue` | ViewModels/Pages/MigrationViewModel.cs:219-227 | only a queued-list member is removed, its first occurrence only, and the pending count follows |
| `Migration.MigrationViewModel.StopMigration` | ViewModels/Pages/MigrationViewModel.cs:263-283 | when running: in-progress tasks cancelled and moved to history once, active list emptied, flag cleared, status set; otherwise nothing changes; the queue, selection, mappings, filters and destinations never change |
| `Migration.MigrationViewModel.ValidateMigrationSettings` | ViewModels/Pages/MigrationViewModel.cs:425-440 | passes exactly when both destinations are set, else reports the first missing one; only the status can change |
| `Migration.MigrationViewModel.LoadNetworkMappingsFromFile` | ViewModels/Pages/MigrationViewModel.cs:538-555 | a read that throws leaves no mappings and fails with its error; otherwise the mappings become those parsed from the file's lines after the header; nothing but the mappings changes |
| `Migration.MigrationViewModel.LoadNetworkMappings` | ViewModels/Pages/MigrationViewModel.cs:329-349 | a cancelled dialog changes nothing; a chosen file is loaded, reporting the file name, or the read error with no mappings left; only the mappings and the status change |
| `Migration.MigrationViewModel.ClearFilters` | ViewModels/Pages/MigrationViewModel.cs:375-382 | resets the three filters and the status, after which every VM passes; nothing else changes |
| `DataView.GetOsType` | ViewModels/Pages/DataViewModel.cs:341-351 | "Windows" whenever the OS names Windows ignoring case; otherwise "Linux" iff a Linux keyword occurs; else "Other" |
| `DataView.FilterVirtualMachinesMeaning` | ViewModels/Pages/DataViewModel.cs:286-323 | the conjunction of the five filters, each inactive at its default; non-VMs never pass |
| `DataView.FilteredLength` | ViewModels/Pages/DataViewModel.cs:336-339 | the view never holds more VMs than the collection |
| `DataView.FilteredMembers` | ViewModels/Pages/DataViewModel.cs:286-323 | the view holds exactly the VMs that pass |
| `DataView.ClearedFiltersShowAll` | ViewModels/Pages/DataViewModel.cs:140-151 | under the default settings every VM is shown, in order |
| `DataView.PowerStateCountsDisjoint` | ViewModels/Pages/DataViewModel.cs:328-329 | two different power-state counts together never exceed the total |
| `DataView.OsTypeCountsDisjoint` | ViewModels/Pages/DataViewModel.cs:330-331 | two different OS-type counts together never exceed the total |
| `DataView.DataViewModel.constructor` | ViewModels/Pages/DataViewModel.cs:98-110 | the inventory with default filters, no selection and its statistics |
| `DataView.DataViewModel.UpdateStatistics` | ViewModels/Pages/DataViewModel.cs:325-334 | the counters are the collection's counts, powered on plus off and Windows plus Linux are at most the total |
| `DataView.DataViewModel.UpdateDisplayedCount` | ViewModels/Pages/DataViewModel.cs:336-339 | the displayed count is the view's size, at most the total |
| `DataView.DataViewModel.ClearFilters` | ViewModels/Pages/DataViewModel.cs:140-151 | every filter back to its default, so every VM is displayed |
| `DataView.DataViewModel.SelectAllVMs` | ViewModels/Pages/DataViewModel.cs:154-163 | the selection is the filtered VMs in view order, each marked; other VMs keep their mark |
| `DataView.DataViewModel.ClearSelection` | ViewModels/Pages/DataViewModel.cs:166-174 | every VM unmarked and the selection emptied |
| `LogsView.LevelTagIgnoresCase` | ViewModels/Pages/LogsViewModel.cs:350 | upper-casing the level is immaterial to the case-insensitive tag search |
| `LogsView.GetFilterDate` | ViewModels/Pages/LogsViewModel.cs:374-383 | a date only for "Today", "Last 7 Days" and "Last 30 Days" (that many days before today, when representable); none otherwise |
| `LogsView.ApplyFilters` | ViewModels/Pages/LogsViewModel.cs:342-372 | fails exactly when the date cutoff throws |
| `LogsView.LevelStage` | ViewModels/Pages/LogsViewModel.cs:347-351 | the level stage keeps exactly the lines carrying "[LEVEL]" ignoring case, or all under "All Levels" |
| `LogsView.DateStage` | ViewModels/Pages/LogsViewModel.cs:353-362 | the date stage keeps exactly the lines dated at or after the cutoff, or all without a cutoff |
| `LogsView.SearchStage` | ViewModels/Pages/LogsViewModel.cs:364-368 | the search stage keeps exactly the lines containing the text ignoring case, or all for a blank search |
| `LogsView.ApplyFiltersIsTakeLast` | ViewModels/Pages/LogsViewModel.cs:342-372 | the three stages amount to one filter by the combined test, then the last 1000 |
| `LogsView.TakeLastOfWhere` | ViewModels/Pages/LogsViewModel.cs:371 | the last n survivors: at most n, in order, all passing, and all of them when at most n pass |
| `LogsView.ApplyFiltersMeaning` | ViewModels/Pages/LogsViewModel.cs:342-372 | at most 1000 lines, each in the file and passing, in file order; every passing line is shown when at most 1000 pass |
| `LogsView.ClearedFilterShowsTail` | ViewModels/Pages/LogsViewModel.cs:110-116 | with the filters cleared the viewer shows the file's last 1000 lines |
| `LogsView.FirstDateMatch` | ViewModels/Pages/LogsViewModel.cs:388 | the leftmost position at or after the start where the date pattern matches, and no match before it |
| `LogsView.AsWrittenFindsNoDate` | ViewModels/Pages/LogsViewModel.cs:385-394 | the pattern as written finds no date in a line where no '[' is followed by a space |
| `LogsView.AsWrittenDateFilterEmpties` | ViewModels/Pages/LogsViewModel.cs:353-361 | as written, once a date cutoff applies, no such line passes and the view is empty |
| `LogsView.AsWrittenMissesDocumentedLine` | ViewModels/Pages/LogsViewModel.cs:387-388 | a line in the documented `[yyyy-MM-dd ...]` format carries no date for the pattern as written, and its own date for the corrected one |
| `LogsView.CorrectedLineDateReadsFormat` | ViewModels/Pages/LogsViewModel.cs:385-394 | the corrected pattern reads a documented line's date, and the line passes a cutoff exactly when that date parses and is not before it |
| `LogsView.MergeDefaultsFails` | ViewModels/Pages/LogsViewModel.cs:276-284 | the merge fails exactly when a missing default cannot be created |
| `LogsView.MergeDefaultsContents` | ViewModels/Pages/LogsViewModel.cs:276-284 | listed names stay in front, each missing default is added exactly once, nothing else is added |
| `LogsView.LogFileListContents` | ViewModels/Pages/LogsViewModel.cs:267-289 | the published list is sorted, holds every listed name and all five defaults and nothing else, and no default twice |
| `LogsView.LogFileListFails` | ViewModels/Pages/LogsViewModel.cs:276-284 | loading fails exactly when a missing default cannot be created |
| `LogsView.LogsViewModel.constructor` | ViewModels/Pages/LogsViewModel.cs:74-79 | "Application.log" selected and filters cleared; the file list is loaded (empty when listing or creating a default log fails), then the last 1000 lines of the selected log are shown with their status, or the not-found or error texts |
| `LogsView.LogsViewModel.LoadLogFiles` | ViewModels/Pages/LogsViewModel.cs:255-297 | publishes the merged, sorted list and its count, or an empty list and the error |
| `LogsView.LogsViewModel.LoadLogContent` | ViewModels/Pages/LogsViewModel.cs:299-340 | a missing file, an unreadable one and a filter error each report; otherwise the filtered lines joined with CRLF and the shown/total counts |
| `LogsView.LogsViewModel.ClearFilter` | ViewModels/Pages/LogsViewModel.cs:110-116 | resets search, level and date, then shows the file's last 1000 lines |
| `Settings.RequestedTheme` | ViewModels/Pages/SettingsViewModel.cs:73-88 | Light exactly for "theme_light", Dark for anything else |
| `Settings.ThemeToApply` | ViewModels/Pages/SettingsViewModel.cs:69-96 | nothing to apply exactly when the requested theme is current |
| `Settings.ChangeThemeIdempotent` | ViewModels/Pages/SettingsViewModel.cs:69-96 | switching twice with the same parameter applies the theme at most once |
| `Settings.SettingsViewModel.constructor` | ViewModels/Pages/SettingsViewModel.cs:24-27 | not initialised, no version, unknown theme |
| `Settings.SettingsViewModel.OnNavigatedTo` | ViewModels/Pages/SettingsViewModel.cs:29-37 | initialises only while not yet initialised, and only when reading the theme does not throw |
| `Settings.SettingsViewModel.InitializeViewModel` | ViewModels/Pages/SettingsViewModel.cs:41-53 | the initialised flag, theme and version change only when the theme is read without an exception |
| `Settings.SettingsViewModel.OnChangeTheme` | ViewModels/Pages/SettingsViewModel.cs:69-96 | a requested theme that is already current, or an `Apply` that throws, changes nothing; otherwise it is applied once and becomes current |
| `Commands.NewRelayCommand` | Services/RelayCommand.cs:15-19 | throws argument-null exactly for a missing action; otherwise keeps the action and guard |
| `Commands.ParameterIgnored` | Services/RelayCommand.cs:21-25 | neither `CanExecute` nor `Execute` depends on the parameter |
| `Commands.GuardDecides` | Services/RelayCommand.cs:21-25 | with no guard the command can always run; with one it answers the guard; `Execute` runs the action |
| `Converters.Convert` | Converters/NullToVisibilityConverter.cs:10-23 | never Hidden; Visible exactly when nullness agrees with inverse mode |
| `Converters.ConvertBack` | Converters/NullToVisibilityConverter.cs:25-28 | always throws not-implemented |
| `Converters.TruthTable` | Converters/NullToVisibilityConverter.cs:13-22 | the four cases of the truth table; a null or lower-case "inverse" parameter is not inverse mode |
| `Models.AddDays` | ViewModels/Pages/BackupViewModel.cs:306 | succeeds exactly for a day count and result within the DateTime range, giving the time that many days later |
| `Models.DaysBack` | ViewModels/Pages/LogsViewModel.cs:379-380 | going n days back succeeds exactly when at least n days have passed since 0001-01-01 |
| `Models.VirtualMachineInfo.constructor` | Models/VirtualMachineInfo.cs:11-28 | a VM with the given fields, not selected |
| `Models.MigrationTask.constructor` | Models/MigrationTask.cs:10-19 | a task with the given name, type, status and details |
| `Models.VCenterServer.constructor` | Models/VCenterServer.cs:11-24 | a server with the given name, address and description |
| `Text.ContainsIffOccurs` | ViewModels/Pages/ConnectionSettingsViewModel.cs:55-57 | `Contains` finds the text exactly when it occurs at some index |
| `Text.LowerContainsIffContainsIgnoreCase` | ViewModels/Pages/MigrationViewModel.cs:411-414 | lower-casing both sides and searching ordinally accepts exactly what the ignore-case search accepts |
| `Text.NatToString` | ViewModels/Dialogs/ProfileManagementViewModel.cs:109 | a count renders as a non-empty string of digits |
| `Text.DigitsValueOfNatToString` | ViewModels/Dialogs/ProfileManagementViewModel.cs:171 | reading the digits back gives the count |
| `Text.NatToStringInjective` | ViewModels/Dialogs/ProfileManagementViewModel.cs:171 | different counters render differently |
| `Text.Trim` | ViewModels/Pages/MigrationViewModel.cs:550-551 | the result occurs in the input between blank margins and neither starts nor ends with white space |
| `Text.BlankIffTrimEmpty` | ViewModels/Pages/ConnectionViewModel.cs:296 | a string is blank exactly when trimming leaves nothing |
| `Text.TrimOfTrimmed` | ViewModels/Pages/MigrationViewModel.cs:550-551 | a string without outer white space is its own trim |
| `Text.Split` | ViewModels/Pages/MigrationViewModel.cs:545 | at least one piece, none holding the separator |
| `Text.JoinSplit` | ViewModels/Pages/LogsViewModel.cs:322 | joining the pieces back gives the original |
| `Text.SplitJoin` | ViewModels/Pages/MigrationViewModel.cs:545 | splitting separator-free pieces joined gives the pieces back |
| `Paths.CombineShape` | Services/PowerShellManager.cs:25 | the joined path ends with the second part, starts with the first unless the second is rooted, and is the second when it is rooted |
| `Paths.GetFileName` | Services/BackupManager.cs:274 | the file name is a separator-free suffix of the path |
| `Paths.StemShape` | Services/BackupManager.cs:256 | the name without extension is the file name cut at its last '.' |
| `Paths.ExtensionShape` | Services/BackupManager.cs:149 | a non-empty extension is a '.' and what follows the last '.', at the end of the file name |
| `Paths.StemAndExtension` | Services/BackupManager.cs:149-256 | stem plus extension is the file name |
| `Paths.FileNameOfCombine` | ViewModels/Pages/BackupViewModel.cs:661 | joining a plain file name to a folder and taking the file name back gives that name |
| `Paths.StemOfCombine` | Services/BackupManager.cs:256 | a one-extension file joined to a folder has its stem as the name without extension |
| `Sequences.FirstIndex` | Services/JsonProfileManager.cs:100 | the position of the first occurrence |
| `Sequences.FirstIndexUnique` | Services/JsonProfileManager.cs:100 | the first occurrence is the one index holding the element with none before it |
| `Sequences.RemoveFirstMultiset` | ViewModels/Pages/BackupViewModel.cs:398 | `List.Remove` of a present element takes out exactly one copy |
| `Sequences.RemoveFirstAt` | ViewModels/Pages/MigrationViewModel.cs:223 | removal shifts every later element one place down |
| `Sequences.RemoveFirstLeavesNoCopy` | Services/JsonProfileManager.cs:100 | without duplicates, nothing of the removed element stays |
| `Sequences.RemoveFirstKeepsDistinct` | ViewModels/Pages/MigrationViewModel.cs:223 | removal keeps a list free of duplicates |
| `Sequences.RemoveFirstOfDistinct` | ViewModels/Pages/MigrationViewModel.cs:223 | in a duplicate-free list, removal leaves no copy and no duplicates |
| `Sequences.TakeLast` | ViewModels/Pages/LogsViewModel.cs:371 | the last n elements, or all when fewer |
| `Sequences.Where` | ViewModels/Pages/LogsViewModel.cs:347-368 | never longer than the input |
| `Sequences.WhereMembers` | ViewModels/Pages/LogsViewModel.cs:347-368 | an element survives exactly when it is in the input and passes |
| `Sequences.WhereIsSubsequence` | ViewModels/Pages/LogsViewModel.cs:347-368 | the survivors keep their order |
| `Sequences.WhereCongruent` | ViewModels/Pages/LogsViewModel.cs:347-368 | the result depends only on which elements the test accepts |
| `Sequences.WhereAll` | ViewModels/Pages/ConnectionSettingsViewModel.cs:52-53 | a test that accepts everything filters nothing out |
| `Sequences.WhereWhere` | ViewModels/Pages/LogsViewModel.cs:347-368 | two chained filters are one filter by the conjunction |
| `Sequences.SuffixOfSubsequence` | ViewModels/Pages/LogsViewModel.cs:371 | a suffix of an order-preserving selection is still one |
| `Sorting.InsertBy` | ViewModels/Pages/ConnectionSettingsViewModel.cs:143 | inserting into a sorted list keeps it sorted and adds exactly that element |
| `Sorting.SortBy` | ViewModels/Pages/LogsViewModel.cs:271 | `OrderBy` gives a sorted permutation of its input |
| `Sorting.SortByMembers` | ViewModels/Pages/ConnectionSettingsViewModel.cs:143 | sorting keeps exactly the elements it was given |

## Left out

- **I/O.**
  - File and JSON I/O is not modelled. `LoadProfiles`, `SaveToFile`, the backup and
    log file reads and writes, and directory creation are reduced to the values
    they produce or the failures they raise, passed in as parameters.
  - `JsonProfileManager.LoadProfiles` is the constructor's `stored` argument.
  - `EnsureDirectoriesExist` is not modelled.
- **Credential vault.** The Windows credential vault P/Invoke calls are reduced
  to two maps. A refused `CredWrite` is the parameter `vaultError` of
  `SavePassword`, holding the text of the `Win32Exception`, which the model
  cannot compute. The same holds for the `IOException` of a failed profile-file
  write, passed as `writeError`.
- **PowerShell.** PowerShell execution is left out: `PerformBackup`,
  `RestoreBackupAsync` and `GetVMInventoryAsync` of the backup manager. Only the
  guards of `PerformVMBackupAsync` are modelled, with the script's result as a
  parameter.
- **Connection tests.**
  - Remote connection tests are results passed in.
  - `ConnectionManager.TestSourceConnection` is an empty stub and is not modelled.
  - `ConnectionViewModel.ManageProfilesAsync` is not modelled: it opens a dialog.
  - `InitializeAvailableServers` is modelled as the constructor's fixed server list.
- **ProfileManagementViewModel.** `TestConnectionAsync`, `EditProfile`,
  `ExportProfile`, `AddNewProfile`, `ImportProfiles` and `RefreshAsync` are
  dialog, log or stub calls and are not modelled.
- **Asynchrony.**
  - Async continuations run synchronously in the model. This applies for example
    to the `Task.Run` reload in `ProfileManagementViewModel.DeleteProfile`.
  - `Task.Delay`, auto-hide timers and property-change notifications outside the
    connection-settings page are not modelled.
  - The `OnPropertyChanged` handlers that refresh a collection view are not
    modelled.
- **MigrationViewModel.** `StartMigrationAsync`, `ExecuteMigrationAsync`,
  `ValidateSelectedVMsAsync`, `ScheduleMigrationAsync`, `RefreshVMListAsync`,
  `ExportMigrationPlan`, `GenerateMigrationPlan`, `LoadSampleData`,
  `LoadDestinationResources` are left out. They are simulated delays, HTML building, dialogs and sample data.
  The constructor starts with the lists those would fill empty.
- **DataViewModel.** `RefreshDataAsync`, `ExportData`, `ExportSelected`,
  `ViewDetails`, `AddToMigrationQueue`, `LoadSampleData` and `ExportToCsv` are
  dialogs and file writes. The inventory is a constructor argument.
- **BackupViewModel.** These are dialogs, processes, sample data or drive queries,
  and are not modelled:
  - `RefreshAsync`, `ScheduleConfigBackup`, `BackupSettings` and `RestoreBackupAsync`.
  - `DownloadBackup`, `VerifyBackupAsync`, `CancelBackup` and `OpenBackupFolder`.
  - `TestRestoreAsync`, `ExportSettings`, `ImportSettings` and `UpdateStorageInfo`.
  - `CreateBackupData`, `LoadSettings` and `LoadBackupHistory`; the history is a
    constructor argument.
  - `CreateFullBackupAsync` is modelled only as its outcome.
- **LogsViewModel.**
  - `OpenLogFolder`, `ExportSelected`, `ExportAll`, `ClearLog` and `ArchiveLogs`
    are not modelled.
  - The filters take the date a line carries as the parameter `lineDate`.
    `AsWrittenLineDate` is the regular expression of `LineMatchesDateFilter` as
    written, and `CorrectedLineDate` the pattern the line format calls for. Either
    can be passed in.
  - LogsView.FirstDateMatch: `\d` and `\s` are modelled as ASCII digits and ASCII
    white space, not the Unicode classes .NET matches. `DateTime.TryParse` of the
    date group is the parameter `parseDate`.
  - `GetCurrentLogFilePath` is `Paths.Combine`.
- **SettingsViewModel.**
  - `GetAssemblyVersion` is reduced to its text.
  - The registry probe behind `GetAppTheme` is a parameter.
- **Numbers and formatting.**
  - Floating-point and culture formatting are not modelled: `FormatFileSize` (both
    copies), `BackupItem.SizeFormatted`, `StorageUsagePercentage`, the `double` task
    progress, and the `N0` or `yyyy-MM-dd` renderings.
  - A time stamp is an input that the model only requires to consist of digits,
    '-' and '_'.
- **Case and ordering.**
  - Case folding is ASCII only. Non-ASCII case mappings of `ToLower`, `ToUpper` and
    `OrdinalIgnoreCase` are not modelled.
  - `OrderBy` with the culture's string comparer is modelled as ordinal order in a
    insertion sort, which is not the culture comparer. LINQ's sort is stable; the
    model proves the result sorted and a permutation, and does not prove the order
    among elements with equal keys.
- **Shared profile objects.** The connection-settings page and the store hold
  the same `ConnectionProfile` objects, and the page's editors change them in
  place. The model represents this aliasing through the profiles' ids: an edit
  replaces the profile with that id in both lists (`ConnectionSettings.ReplaceObject`).
  Other pages hold their own copies in the model, and no edit there is modelled.
- ConnectionSettings.ConnectionSettingsViewModel.SetPassword: a `SecureString` is
  compared by reference in the source and by content in the model. Setting a new
  object with the same characters raises no event in the model.
- **`RelayCommand.RaiseCanExecuteChanged`.** It only raises a UI event and is left
  out.
- **Types the modelled code needs but the source lacks.**
  - `ConnectionProfile` has no `SourceVCenter` or `SourceUsername`; the model adds
    them as fields.
  - `ConnectionResult` declares `IsConnected`, while the callers use `IsSuccessful`
    and a constructor; the model has one success flag.
  - `MigrationStatus`, `CurrentConnection` and `BackupResult` are not declared in
    any file here. They are defined by their use.
- **Duplicate class.** `PowerShellScriptManager` is declared both in
  PowerShellScriptManager.cs and in PowerShellManager.cs. The two are modelled as
  two classes in separate modules.
- **`ConnectionViewModel.GetAllProfiles` and `DebugProfiles`.** `GetAllProfiles`
  reads an undeclared `_profiles` field, so it does not compile as written, and
  `DebugProfiles` only writes log output. Neither is modelled.
- **Unreachable catch.** The "Unexpected error" catch of the validation page's
  `TestConnectionAsync` (ViewModels/Pages/ValidationViewModel.cs:112-118) is not
  modelled. `ValidateProfileConnectionAsync` (lines 161-187) catches every
  exception of the connection test and returns it as an "Error" row, and what
  follows in the try block only inserts that row and sets the status fields.
  Nothing there throws, so the catch cannot fire.
- **Loop-body helpers.** `Migration.EnqueueNew`, `Migration.CancelInProgress`,
  `BackupView.RemoveOldBackups`, `ConnectionView.ConnectionViewModel.StoreNewProfile`
  and `ProfileManagement.ProfileManagementViewModel.FindDuplicateName` carry out the
  same state changes as the source's inline loops and blocks. The model moves them
  into methods of their own.
- BackupView.BackupViewModel.ImportVMTemplates: does not model the `break` on a requested cancellation (lines 697-698), because `CancelBackup` is left out. With it, fewer than one report per file could be made while the template count still grows by the file count. It also does not model the 32-bit overflow of `(i + 1) * 100`, which would only occur past 21 million files. Its progress reports are stated for unbounded integers. With more than 100 files the first reports are 0, not at least 1 (`BackupView.ImportProgressPositive`).
- Models.AddDays: the model checks days against the range that `AddDays` itself accepts. It does not model `double` day counts or the rounding of fractional days, since only whole days occur.

## Findings

| source | as written | input that shows it | evidently intended | confidence | as-written member | corrected member |
|---|---|---|---|---|---|---|
| Services/BackupManager.cs:21 | `_credentialManager` is declared but never assigned: the constructor (lines 27-38) takes no credential manager, so `PerformVMBackupAsync` dereferences null at line 58 and every backup run fails with a null-reference message | any call with a current connection, on a manager built by the constructor as written | the credential manager is injected through the constructor, so a stored password is found and the backup runs | not executed | `BackupManagement.AsWrittenBackupFails` | `BackupManagement.InjectedBackupRuns` |
| ViewModels/Pages/LogsViewModel.cs:388 | the date pattern is `\[ (\d{4}-\d{2}-\d{2})\s`, which needs a space after the '[' that the line format of line 387, `[2024-01-15 14:30:25.123]`, does not have, so `LineMatchesDateFilter` reads no date from such a line and every date filter empties the view | any log of lines like `[2024-01-15 14:30:25.123] [INFORMATION] started` with "Today", "Last 7 Days" or "Last 30 Days" selected | the pattern `\[(\d{4}-\d{2}-\d{2})\s`, so lines dated on or after the cutoff are shown | not executed | `LogsView.AsWrittenDateFilterEmpties` | `LogsView.CorrectedLineDateReadsFormat` |
