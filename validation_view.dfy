// The validation page: the saved profiles, and a newest-first history of
// connection tests, each reduced to a status, the server version and a message.
// What the connection manager's test returns or throws comes in as a parameter.
module ValidationView {
  import opened Wrappers
  import Models
  import opened ProfileStore
  import opened InfoBar
  import Text

  const SuccessStatus := "Success"
  const FailedStatus := "Failed"
  const ErrorStatus := "Error"
  const NoVersion := "N/A"
  const ConnectedMessage := "Connection established successfully"
  const UnknownErrorMessage := "Unknown error"

  /** One row of the history (the page's own `ValidationResult`, not the model class of that name). */
  datatype ValidationResult = ValidationResult(profileName: string, status: string, version: string, message: string)

  /**
   * `ValidateProfileConnectionAsync`: `test` is what testing `profile`
   * returned, or the exception it threw. Every exception becomes an "Error" row.
   */
  function ValidateProfileConnection(profile: Models.ConnectionProfile, test: Result<Models.ConnectionResult>): (r: ValidationResult)
    ensures r.profileName == profile.name
    ensures r.status in {SuccessStatus, FailedStatus, ErrorStatus}
    ensures r.status == SuccessStatus <==> test.Success? && test.value.isSuccessful
    ensures r.status == FailedStatus <==> test.Success? && !test.value.isSuccessful
    ensures r.status == ErrorStatus <==> test.Failure?
    ensures test.Failure? ==> r.version == NoVersion && r.message == Message(test.error)
    ensures test.Success? ==>
      r.version == (if test.value.version.Some? then test.value.version.value else NoVersion)
    ensures test.Success? && test.value.isSuccessful ==> r.message == ConnectedMessage
    ensures test.Success? && !test.value.isSuccessful ==>
      r.message == (if test.value.errorMessage.Some? then test.value.errorMessage.value else UnknownErrorMessage)
  {
    match test
    case Failure(e) => ValidationResult(profile.name, ErrorStatus, NoVersion, Message(e))
    case Success(c) =>
      ValidationResult(
        profile.name,
        if c.isSuccessful then SuccessStatus else FailedStatus,
        if c.version.Some? then c.version.value else NoVersion,
        if c.isSuccessful then ConnectedMessage
        else if c.errorMessage.Some? then c.errorMessage.value else UnknownErrorMessage)
  }

  /** The status bar's colour for a row: green exactly for "Success". */
  function StatusSeverity(status: string): (s: InfoBarSeverity)
    ensures s in {InfoBarSeverity.Success, InfoBarSeverity.Error}
    ensures s == InfoBarSeverity.Success <==> status == SuccessStatus
  {
    if status == SuccessStatus then InfoBarSeverity.Success else InfoBarSeverity.Error
  }

  /**
   * The status bar turns green exactly when the server accepted the
   * connection: a failed test and a thrown exception both show as errors.
   */
  lemma GreenOnlyWhenConnected(profile: Models.ConnectionProfile, test: Result<Models.ConnectionResult>)
    ensures StatusSeverity(ValidateProfileConnection(profile, test).status) == InfoBarSeverity.Success
      <==> test.Success? && test.value.isSuccessful
  {
  }

  /** The same profile tested with the same outcome gives the same row, whatever else the profile holds. */
  lemma RowDependsOnNameOnly(p: Models.ConnectionProfile, q: Models.ConnectionProfile, test: Result<Models.ConnectionResult>)
    requires p.name == q.name
    ensures ValidateProfileConnection(p, test) == ValidateProfileConnection(q, test)
  {
  }

  class ValidationViewModel {
    const profileManager: ProfileManager
    var connectionProfiles: seq<Models.ConnectionProfile>
    /** Newest first. */
    var validationResults: seq<ValidationResult>
    var isLoading: bool
    var statusTitle: string
    var statusMessage: string
    var statusSeverity: InfoBarSeverity
    var showStatus: bool

    constructor (profileManager: ProfileManager)
      ensures this.profileManager == profileManager
      ensures connectionProfiles == profileManager.profiles && validationResults == []
      ensures !isLoading && statusTitle == "Ready" && statusMessage == "Connection validation system initialized"
      ensures statusSeverity == Informational && !showStatus
    {
      this.profileManager := profileManager;
      connectionProfiles := [];
      validationResults := [];
      isLoading := false;
      statusTitle := "Ready";
      statusMessage := "Connection validation system initialized";
      statusSeverity := Informational;
      showStatus := false;
      new;
      LoadProfiles();
    }

    /** `LoadProfiles`: clears the list and adds the store's profiles one by one. */
    method LoadProfiles()
      modifies this`connectionProfiles
      ensures connectionProfiles == profileManager.profiles
    {
      connectionProfiles := [];
      var profiles := profileManager.GetAllProfiles();
      for i := 0 to |profiles|
        invariant connectionProfiles == profiles[..i]
      {
        connectionProfiles := connectionProfiles + [profiles[i]];
      }
      assert profiles[..|profiles|] == profiles;
    }

    /** `RefreshProfiles`: reloads the profiles and forgets every earlier test. */
    method RefreshProfiles()
      modifies this`connectionProfiles, this`validationResults
      ensures connectionProfiles == profileManager.profiles
      ensures validationResults == []
    {
      LoadProfiles();
      validationResults := [];
    }

    /** `AddNewProfile`: only announces that creating a profile here is not implemented. */
    method AddNewProfile()
      modifies this`statusTitle, this`statusMessage, this`statusSeverity, this`showStatus
      ensures statusTitle == "Add Profile" && statusMessage == "Profile creation not yet implemented"
      ensures statusSeverity == Warning && showStatus
    {
      statusTitle := "Add Profile";
      statusMessage := "Profile creation not yet implemented";
      statusSeverity := Warning;
      showStatus := true;
    }

    /**
     * `TestConnectionAsync`: no profile does nothing; otherwise the row for
     * the test goes in front of the history and the status bar shows it.
     */
    method TestConnectionAsync(profile: Option<Models.ConnectionProfile>, test: Result<Models.ConnectionResult>)
      modifies this`validationResults, this`isLoading, this`statusTitle, this`statusMessage,
        this`statusSeverity, this`showStatus
      ensures profile.None? ==>
        validationResults == old(validationResults) && isLoading == old(isLoading)
        && statusTitle == old(statusTitle) && statusMessage == old(statusMessage)
        && statusSeverity == old(statusSeverity) && showStatus == old(showStatus)
      ensures profile.Some? ==>
        && validationResults == [ValidateProfileConnection(profile.value, test)] + old(validationResults)
        && statusTitle == validationResults[0].status && statusMessage == validationResults[0].message
        && statusSeverity == StatusSeverity(validationResults[0].status)
        && showStatus && !isLoading
    {
      if profile.None? {
        return;
      }
      isLoading := true;
      var result := ValidateProfileConnection(profile.value, test);
      validationResults := [result] + validationResults;
      statusTitle := result.status;
      statusMessage := result.message;
      statusSeverity := StatusSeverity(result.status);
      showStatus := true;
      isLoading := false;
    }

    /** `EditProfile`: only announces which profile would be edited. */
    method EditProfile(profile: Option<Models.ConnectionProfile>)
      modifies this`statusTitle, this`statusMessage, this`statusSeverity, this`showStatus
      ensures profile.None? ==>
        statusTitle == old(statusTitle) && statusMessage == old(statusMessage)
        && statusSeverity == old(statusSeverity) && showStatus == old(showStatus)
      ensures profile.Some? ==>
        statusTitle == "Edit Profile" && statusMessage == "Editing profile: " + profile.value.name
        && statusSeverity == Informational && showStatus
    {
      if profile.None? {
        return;
      }
      statusTitle := "Edit Profile";
      statusMessage := "Editing profile: " + profile.value.name;
      statusSeverity := Informational;
      showStatus := true;
    }

    /**
     * `DeleteProfile`: deletes the profile by name from the store and
     * reloads; what the store throws is reported instead, and the list is
     * then not reloaded.
     */
    method DeleteProfile(profile: Option<Models.ConnectionProfile>, writeError: Option<string>)
      requires profileManager.Valid()
      modifies profileManager, this`connectionProfiles, this`statusTitle, this`statusMessage,
        this`statusSeverity, this`showStatus
      ensures profileManager.Valid()
      ensures profile.None? || Text.IsBlank(profile.value.name) || Lookup(old(profileManager.profiles), profile.value.name).None? ==>
        profileManager.persisted == old(profileManager.persisted)
        && profileManager.writeCount == old(profileManager.writeCount)
      ensures profile.Some? && !Text.IsBlank(profile.value.name) && Lookup(old(profileManager.profiles), profile.value.name).Some? ==>
        profileManager.writeCount == old(profileManager.writeCount) + 1
        && profileManager.persisted == (if writeError.Some? then old(profileManager.persisted) else profileManager.profiles)
      ensures profile.None? ==>
        profileManager.profiles == old(profileManager.profiles) && connectionProfiles == old(connectionProfiles)
        && statusTitle == old(statusTitle) && statusMessage == old(statusMessage)
        && statusSeverity == old(statusSeverity) && showStatus == old(showStatus)
      ensures profile.Some? && DeleteSpec(old(profileManager.profiles), profile.value.name).Failure? ==>
        && profileManager.profiles == old(profileManager.profiles) && connectionProfiles == old(connectionProfiles)
        && statusTitle == "Delete Error"
        && statusMessage == "Error deleting profile: " + Message(DeleteSpec(old(profileManager.profiles), profile.value.name).error)
        && statusSeverity == InfoBarSeverity.Error && showStatus
      ensures profile.Some? && DeleteSpec(old(profileManager.profiles), profile.value.name).Success? ==>
        profileManager.profiles == DeleteSpec(old(profileManager.profiles), profile.value.name).value && showStatus
      ensures profile.Some? && DeleteSpec(old(profileManager.profiles), profile.value.name).Success? && writeError.None? ==>
        && connectionProfiles == profileManager.profiles
        && statusTitle == "Profile Deleted" && statusMessage == "Profile " + profile.value.name + " deleted successfully"
        && statusSeverity == InfoBarSeverity.Success
      ensures profile.Some? && DeleteSpec(old(profileManager.profiles), profile.value.name).Success? && writeError.Some? ==>
        if Lookup(old(profileManager.profiles), profile.value.name).Some? then
          && connectionProfiles == old(connectionProfiles)
          && statusTitle == "Delete Error" && statusMessage == "Error deleting profile: " + writeError.value
          && statusSeverity == InfoBarSeverity.Error
        else
          && connectionProfiles == profileManager.profiles
          && statusTitle == "Profile Deleted" && statusMessage == "Profile " + profile.value.name + " deleted successfully"
          && statusSeverity == InfoBarSeverity.Success
    {
      if profile.None? {
        return;
      }
      var o := profileManager.DeleteProfile(profile.value.name, writeError);
      match o {
        case Pass =>
          LoadProfiles();
          statusTitle := "Profile Deleted";
          statusMessage := "Profile " + profile.value.name + " deleted successfully";
          statusSeverity := InfoBarSeverity.Success;
        case Fail(e) =>
          statusTitle := "Delete Error";
          statusMessage := "Error deleting profile: " + Message(e);
          statusSeverity := InfoBarSeverity.Error;
      }
      showStatus := true;
    }
  }
}
