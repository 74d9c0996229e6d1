// The connection page: a fixed list of vCenter servers (the last one, "Custom
// Server", takes any address), the source and destination credentials, and
// saving, loading and deleting connection profiles through the profile store
// and the credential store.
module ConnectionView {
  import opened Wrappers
  import opened Text
  import opened Models
  import opened ProfileStore
  import opened Credentials

  const CustomServerName := "Custom Server"

  /**
   * The address a connection to `server` uses. The code distinguishes the
   * custom entry, but both branches read the same field, so every entry is
   * reached at its own address.
   */
  function ServerAddressOf(server: VCenterServer): (address: string)
    reads server
    ensures address == server.address
  {
    if server.name == CustomServerName then server.address else server.address
  }

  /** `FirstOrDefault(s => s.Address == address)`, as an index. */
  function FirstWithAddress(servers: seq<VCenterServer>, address: string): (r: Option<nat>)
    reads servers
    ensures r.Some? ==> r.value < |servers| && servers[r.value].address == address
    ensures r.Some? ==> forall k :: 0 <= k < r.value ==> servers[k].address != address
    ensures r.None? ==> forall k :: 0 <= k < |servers| ==> servers[k].address != address
    decreases |servers|
  {
    if servers == [] then None
    else if servers[0].address == address then Some(0)
    else match FirstWithAddress(servers[1..], address)
      case None => None
      case Some(i) => Some(i + 1)
  }

  class ConnectionViewModel {
    const store: ProfileManager
    const credentials: CredentialManager
    /** `AvailableServers`: four named vCenters and the custom entry, in that order. */
    const availableServers: seq<VCenterServer>
    var selectedSourceServer: Option<VCenterServer>
    var sourceUsername: string
    var sourcePassword: string
    var selectedDestinationServer: Option<VCenterServer>
    var destinationUsername: string
    var destinationPassword: string
    var profileName: string
    var savedProfiles: seq<ConnectionProfile>
    var selectedProfile: Option<ConnectionProfile>
    var statusMessage: string
    var isStatusOpen: bool

    /** The server list has its fixed shape: the custom entry last and no other entry of that name. */
    ghost predicate Valid()
      reads this, store
    {
      && store.Valid()
      && |availableServers| == 5
      && availableServers[4].name == CustomServerName
      && (forall k :: 0 <= k < 4 ==> availableServers[k].name != CustomServerName)
    }

    /** The custom entry, whose address `LoadProfile` overwrites. */
    function CustomServer(): VCenterServer
      requires |availableServers| == 5
    {
      availableServers[4]
    }

    /** `InitializeAvailableServers` runs in the constructor; nothing is selected and no profile is loaded. */
    constructor (store: ProfileManager, credentials: CredentialManager)
      requires store.Valid()
      ensures Valid()
      ensures this.store == store && this.credentials == credentials
      ensures forall k :: 0 <= k < |availableServers| ==> fresh(availableServers[k])
      ensures availableServers[0].address == "vcenter-prod.domain.com"
      ensures availableServers[1].address == "vcenter-dev.domain.com"
      ensures availableServers[2].address == "vcenter-test.domain.com"
      ensures availableServers[3].address == "vcenter-dr.domain.com"
      ensures availableServers[4].address == ""
      ensures selectedSourceServer.None? && selectedDestinationServer.None? && selectedProfile.None?
      ensures sourceUsername == "" && sourcePassword == "" && destinationUsername == "" && destinationPassword == ""
      ensures profileName == "" && savedProfiles == [] && statusMessage == "Ready" && !isStatusOpen
    {
      this.store := store;
      this.credentials := credentials;
      var prod := new VCenterServer("Production vCenter", "vcenter-prod.domain.com", "Production Environment");
      var dev := new VCenterServer("Development vCenter", "vcenter-dev.domain.com", "Development Environment");
      var test := new VCenterServer("Test vCenter", "vcenter-test.domain.com", "Test Environment");
      var dr := new VCenterServer("DR vCenter", "vcenter-dr.domain.com", "Disaster Recovery Site");
      var custom := new VCenterServer(CustomServerName, "", "Enter custom server address");
      availableServers := [prod, dev, test, dr, custom];
      selectedSourceServer := None;
      sourceUsername := "";
      sourcePassword := "";
      selectedDestinationServer := None;
      destinationUsername := "";
      destinationPassword := "";
      profileName := "";
      savedProfiles := [];
      selectedProfile := None;
      statusMessage := "Ready";
      isStatusOpen := false;
    }

    /** `LoadSavedProfiles`: refills the list from the store, in the store's order, and reports the count. */
    method LoadSavedProfiles()
      modifies this`savedProfiles, this`statusMessage, this`isStatusOpen
      ensures savedProfiles == store.profiles
      ensures statusMessage == "Loaded " + NatToString(|store.profiles|) + " saved profiles" && isStatusOpen
    {
      savedProfiles := [];
      var profiles := store.GetAllProfiles();
      var i := 0;
      while i < |profiles|
        invariant 0 <= i <= |profiles|
        invariant savedProfiles == profiles[..i]
      {
        savedProfiles := savedProfiles + [profiles[i]];
        i := i + 1;
      }
      assert profiles[..i] == profiles;
      statusMessage := "Loaded " + NatToString(|savedProfiles|) + " saved profiles";
      isStatusOpen := true;
    }

    /**
     * `TestSourceConnection`: `test` is what the connection manager's test
     * returns or throws for the source server and credentials.
     */
    method TestSourceConnection(test: Result<ConnectionResult>)
      modifies this`statusMessage, this`isStatusOpen
      ensures selectedSourceServer.None? ==> statusMessage == NoSourceServerMessage && isStatusOpen
      ensures selectedSourceServer.Some? ==> isStatusOpen && statusMessage == TestStatus("Source", test)
    {
      if selectedSourceServer.None? {
        statusMessage := NoSourceServerMessage;
        isStatusOpen := true;
        return;
      }
      statusMessage := "Testing source connection...";
      isStatusOpen := true;
      statusMessage := TestStatus("Source", test);
    }

    /** `TestDestinationConnection`: the same for the destination side. */
    method TestDestinationConnection(test: Result<ConnectionResult>)
      modifies this`statusMessage, this`isStatusOpen
      ensures selectedDestinationServer.None? ==> statusMessage == "Please select a destination server" && isStatusOpen
      ensures selectedDestinationServer.Some? ==> isStatusOpen && statusMessage == TestStatus("Destination", test)
    {
      if selectedDestinationServer.None? {
        statusMessage := "Please select a destination server";
        isStatusOpen := true;
        return;
      }
      statusMessage := "Testing destination connection...";
      isStatusOpen := true;
      statusMessage := TestStatus("Destination", test);
    }

    /**
     * `SaveAsProfile`: the first failing check (blank name, no server, blank
     * address, name already stored) reports and saves nothing. Otherwise the
     * new profile (a fresh object, `newId`) is stored; the password goes to the
     * credential store only when it is not blank; the list is reloaded and the
     * name field cleared. A failing write of the profile file is reported and
     * stops there.
     */
    method SaveAsProfile(newId: ObjectId, writeError: Option<string>, vaultError: Option<string>)
      requires Valid()
      requires forall k :: 0 <= k < |store.profiles| ==> store.profiles[k].id != newId
      modifies this`statusMessage, this`isStatusOpen, this`savedProfiles, this`profileName, store, credentials
      ensures Valid() && isStatusOpen
      ensures SaveRefusal(old(profileName), old(selectedSourceServer), old(store.profiles)).Some? ==>
        statusMessage == SaveRefusal(old(profileName), old(selectedSourceServer), old(store.profiles)).value
        && store.profiles == old(store.profiles) && store.persisted == old(store.persisted)
        && store.writeCount == old(store.writeCount)
        && credentials.passwords == old(credentials.passwords) && credentials.userNames == old(credentials.userNames)
        && profileName == old(profileName) && savedProfiles == old(savedProfiles)
      ensures SaveRefusal(old(profileName), old(selectedSourceServer), old(store.profiles)).None? ==>
        var profile := ConnectionProfile(newId, old(profileName), old(selectedSourceServer).value.address,
          sourceUsername, sourcePassword, "", "");
        store.profiles == old(store.profiles) + [profile] && store.writeCount == old(store.writeCount) + 1
        && (writeError.Some? ==>
          statusMessage == SaveFailedText(writeError.value) && store.persisted == old(store.persisted)
          && credentials.passwords == old(credentials.passwords) && credentials.userNames == old(credentials.userNames)
          && profileName == old(profileName) && savedProfiles == old(savedProfiles))
        && (writeError.None? ==> store.persisted == store.profiles)
        && (writeError.None? && !IsBlank(sourcePassword) && vaultError.Some? ==>
          statusMessage == SaveFailedText(vaultError.value)
          && credentials.passwords == old(credentials.passwords) && credentials.userNames == old(credentials.userNames)
          && profileName == old(profileName) && savedProfiles == old(savedProfiles))
        && (writeError.None? && (IsBlank(sourcePassword) || vaultError.None?) ==>
          credentials.passwords ==
            (if IsBlank(sourcePassword) then old(credentials.passwords)
             else old(credentials.passwords)[profile.name := sourcePassword])
          && credentials.userNames ==
            (if IsBlank(sourcePassword) then old(credentials.userNames)
             else old(credentials.userNames)[profile.name := sourceUsername])
          && savedProfiles == store.profiles && profileName == ""
          && statusMessage == SavedText(profile.name))
    {
      if IsBlank(profileName) {
        statusMessage := NoProfileNameMessage;
        isStatusOpen := true;
        return;
      }
      if selectedSourceServer.None? {
        statusMessage := NoSourceServerMessage;
        isStatusOpen := true;
        return;
      }
      var serverAddress := ServerAddressOf(selectedSourceServer.value);
      if IsBlank(serverAddress) {
        statusMessage := NoServerAddressMessage;
        isStatusOpen := true;
        return;
      }
      var existingProfile := store.GetProfile(profileName);
      if existingProfile.Some? {
        statusMessage := ExistsText(profileName);
        isStatusOpen := true;
        return;
      }
      var profile := ConnectionProfile(newId, profileName, serverAddress, sourceUsername, sourcePassword, "", "");
      StoreNewProfile(profile, writeError, vaultError);
    }

    /**
     * The rest of `SaveAsProfile` once its checks have passed: appends the
     * new profile and, when the file was written, stores a non-blank
     * password, reloads and clears the name field. A refusal of the vault
     * (`vaultError`) is reported like a failed write, before the reload.
     */
    method StoreNewProfile(profile: ConnectionProfile, writeError: Option<string>, vaultError: Option<string>)
      requires Valid()
      requires forall k :: 0 <= k < |store.profiles| ==> store.profiles[k].id != profile.id
      requires !IsBlank(profile.name) && !HasNameClash(store.profiles, profile)
      modifies this`statusMessage, this`isStatusOpen, this`savedProfiles, this`profileName, store, credentials
      ensures Valid() && isStatusOpen
      ensures store.profiles == old(store.profiles) + [profile] && store.writeCount == old(store.writeCount) + 1
      ensures writeError.Some? ==>
        statusMessage == SaveFailedText(writeError.value) && store.persisted == old(store.persisted)
        && credentials.passwords == old(credentials.passwords) && credentials.userNames == old(credentials.userNames)
        && profileName == old(profileName) && savedProfiles == old(savedProfiles)
      ensures writeError.None? ==> store.persisted == store.profiles
      ensures writeError.None? && !IsBlank(profile.password) && vaultError.Some? ==>
        statusMessage == SaveFailedText(vaultError.value)
        && credentials.passwords == old(credentials.passwords) && credentials.userNames == old(credentials.userNames)
        && profileName == old(profileName) && savedProfiles == old(savedProfiles)
      ensures writeError.None? && (IsBlank(profile.password) || vaultError.None?) ==>
        credentials.passwords ==
          (if IsBlank(profile.password) then old(credentials.passwords)
           else old(credentials.passwords)[profile.name := profile.password])
        && credentials.userNames ==
          (if IsBlank(profile.password) then old(credentials.userNames)
           else old(credentials.userNames)[profile.name := profile.username])
        && savedProfiles == store.profiles && profileName == ""
        && statusMessage == SavedText(profile.name)
    {
      SaveAppendsNewObject(store.profiles, profile);
      var o := store.SaveProfile(Some(profile), writeError);
      if o.Fail? {
        statusMessage := SaveFailedText(Message(o.error));
        isStatusOpen := true;
        return;
      }
      if !IsBlank(profile.password) {
        o := credentials.SavePassword(profile.name, profile.username, profile.password, vaultError);
        if o.Fail? {
          statusMessage := SaveFailedText(Message(o.error));
          isStatusOpen := true;
          return;
        }
      }
      LoadSavedProfiles();
      profileName := "";
      statusMessage := SavedText(profile.name);
      isStatusOpen := true;
    }

    /**
     * `LoadProfile`: selects the first server at the profile's address, or
     * else moves the custom entry to that address and selects it; takes the
     * user name, and the stored password when there is one.
     */
    method LoadProfile()
      requires Valid()
      modifies this`selectedSourceServer, this`sourceUsername, this`sourcePassword
      modifies this`statusMessage, this`isStatusOpen, CustomServer()
      ensures Valid() && isStatusOpen
      ensures old(selectedProfile).None? ==>
        statusMessage == "Please select a profile to load"
        && selectedSourceServer == old(selectedSourceServer)
        && sourceUsername == old(sourceUsername) && sourcePassword == old(sourcePassword)
        && CustomServer().address == old(CustomServer().address)
      ensures old(selectedProfile).Some? ==>
        var p := old(selectedProfile).value;
        var hit := old(FirstWithAddress(availableServers, p.serverAddress));
        && (hit.Some? ==>
              selectedSourceServer == Some(availableServers[hit.value])
              && CustomServer().address == old(CustomServer().address))
        && (hit.None? ==> selectedSourceServer == Some(CustomServer()) && CustomServer().address == p.serverAddress)
        && selectedSourceServer.Some? && selectedSourceServer.value.address == p.serverAddress
        && sourceUsername == p.username
        && sourcePassword == (if credentials.GetPassword(p.name) != "" then credentials.GetPassword(p.name) else old(sourcePassword))
        && statusMessage == "Loaded profile: " + p.name
    {
      if selectedProfile.None? {
        statusMessage := "Please select a profile to load";
        isStatusOpen := true;
        return;
      }
      var p := selectedProfile.value;
      var matchingServer := FirstWithAddress(availableServers, p.serverAddress);
      if matchingServer.Some? {
        selectedSourceServer := Some(availableServers[matchingServer.value]);
      } else {
        var customServer := CustomServer();
        customServer.address := p.serverAddress;
        selectedSourceServer := Some(customServer);
      }
      sourceUsername := p.username;
      var securePassword := credentials.GetPassword(p.name);
      if |securePassword| > 0 {
        sourcePassword := securePassword;
      }
      statusMessage := "Loaded profile: " + p.name;
      isStatusOpen := true;
    }

    /**
     * `DeleteProfile`: removes the selection from the store, then tries to
     * remove its credential (a failure there is swallowed), reloads and clears
     * the selection. An exception from the store is reported instead.
     */
    method DeleteProfile(writeError: Option<string>)
      requires Valid()
      modifies this`selectedProfile, this`savedProfiles, this`statusMessage, this`isStatusOpen, store, credentials
      ensures Valid() && isStatusOpen
      ensures old(selectedProfile).None? ==>
        statusMessage == "Please select a profile to delete"
        && store.profiles == old(store.profiles) && credentials.passwords == old(credentials.passwords)
        && store.persisted == old(store.persisted) && store.writeCount == old(store.writeCount)
        && credentials.userNames == old(credentials.userNames)
        && savedProfiles == old(savedProfiles) && selectedProfile.None?
      ensures old(selectedProfile).Some? ==>
        var name := old(selectedProfile).value.name;
        var spec := DeleteSpec(old(store.profiles), name);
        var deleted := DeleteOutcome(old(store.profiles), name, writeError);
        && store.profiles == (if spec.Success? then spec.value else old(store.profiles))
        && (if !IsBlank(name) && Lookup(old(store.profiles), name).Some? then
              store.writeCount == old(store.writeCount) + 1
              && store.persisted == (if writeError.Some? then old(store.persisted) else store.profiles)
            else store.writeCount == old(store.writeCount) && store.persisted == old(store.persisted))
        && (deleted.Fail? ==>
              statusMessage == DeleteFailedText(Message(deleted.error)) && savedProfiles == old(savedProfiles)
              && selectedProfile == old(selectedProfile) && credentials.passwords == old(credentials.passwords)
              && credentials.userNames == old(credentials.userNames))
        && (deleted.Pass? ==>
              savedProfiles == store.profiles && selectedProfile.None?
              && credentials.passwords == old(credentials.passwords) - {name}
              && credentials.userNames ==
                (if name in old(credentials.passwords) then old(credentials.userNames) - {name}
                 else old(credentials.userNames))
              && statusMessage == DeletedText(name))
    {
      if selectedProfile.None? {
        statusMessage := "Please select a profile to delete";
        isStatusOpen := true;
        return;
      }
      var profileName := selectedProfile.value.name;
      var o := store.DeleteProfile(profileName, writeError);
      if o.Fail? {
        statusMessage := DeleteFailedText(Message(o.error));
        isStatusOpen := true;
        return;
      }
      var ignored := credentials.DeletePassword(profileName);
      LoadSavedProfiles();
      selectedProfile := None;
      statusMessage := DeletedText(profileName);
      isStatusOpen := true;
    }

    /** `CopySourceToDestination`: the destination side becomes a copy of the source side. */
    method CopySourceToDestination()
      modifies this`selectedDestinationServer, this`destinationUsername, this`destinationPassword
      modifies this`statusMessage, this`isStatusOpen
      ensures selectedDestinationServer == selectedSourceServer
      ensures destinationUsername == sourceUsername && destinationPassword == sourcePassword
      ensures statusMessage == "Copied source connection to destination" && isStatusOpen
    {
      selectedDestinationServer := selectedSourceServer;
      destinationUsername := sourceUsername;
      destinationPassword := sourcePassword;
      statusMessage := "Copied source connection to destination";
      isStatusOpen := true;
    }
  }

  /** The status text after a connection test of the given side. */
  function TestStatus(side: string, test: Result<ConnectionResult>): string
  {
    match test
    case Failure(e) => "Connection test error: " + Message(e)
    case Success(result) =>
      if result.isSuccessful then side + " connection successful"
      else side + " connection failed: " + (if result.errorMessage.Some? then result.errorMessage.value else "")
  }

  const NoProfileNameMessage := "Please enter a profile name"
  const NoSourceServerMessage := "Please select a source server"
  const NoServerAddressMessage := "Please enter a server address"

  function ExistsText(name: string): string
  {
    "Profile '" + name + "' already exists. Please choose a different name."
  }

  function SaveFailedText(message: string): string
  {
    "Failed to save profile: " + message
  }

  function SavedText(name: string): string
  {
    "Profile '" + name + "' saved successfully"
  }

  function DeleteFailedText(message: string): string
  {
    "Failed to delete profile: " + message
  }

  function DeletedText(name: string): string
  {
    "Successfully deleted profile: " + name
  }

  /**
   * The message `SaveAsProfile` stops with, if one of its checks fails, in the
   * order they are made; `None` when the profile gets saved.
   */
  function SaveRefusal(profileName: string, server: Option<VCenterServer>, stored: seq<ConnectionProfile>): (r: Option<string>)
    reads if server.Some? then {server.value} else {}
    ensures r.None? <==>
      !IsBlank(profileName) && server.Some? && !IsBlank(server.value.address) && Lookup(stored, profileName).None?
  {
    if IsBlank(profileName) then Some(NoProfileNameMessage)
    else if server.None? then Some(NoSourceServerMessage)
    else if IsBlank(ServerAddressOf(server.value)) then Some(NoServerAddressMessage)
    else if Lookup(stored, profileName).Some? then
      Some(ExistsText(profileName))
    else None
  }
}
