// ConnectionManager: despite its name it holds no connection, only a copy of
// the profile store's list (`ServerProfiles`) that it rebuilds after every
// change it makes through the store, and the two selected profiles.
module ConnectionManagement {
  import opened Wrappers
  import opened Models
  import opened Text
  import opened ProfileStore

  class ConnectionManager {
    const profileManager: ProfileManager
    var serverProfiles: seq<ConnectionProfile>
    var selectedSourceProfile: Option<ConnectionProfile>
    var selectedDestinationProfile: Option<ConnectionProfile>

    ghost predicate Valid()
      reads this, profileManager
    {
      profileManager.Valid()
    }

    /** Builds the mirror from the store right away. */
    constructor (profileManager: ProfileManager)
      requires profileManager.Valid()
      ensures this.profileManager == profileManager && Valid()
      ensures serverProfiles == profileManager.profiles
      ensures selectedSourceProfile.None? && selectedDestinationProfile.None?
    {
      this.profileManager := profileManager;
      serverProfiles := [];
      selectedSourceProfile := None;
      selectedDestinationProfile := None;
      new;
      LoadProfiles();
    }

    /** Clears `ServerProfiles`, then adds the store's profiles one by one in the store's order. */
    method LoadProfiles()
      modifies this`serverProfiles
      ensures serverProfiles == profileManager.profiles
    {
      var profiles := profileManager.GetAllProfiles();
      serverProfiles := [];
      var i := 0;
      while i < |profiles|
        invariant 0 <= i <= |profiles|
        invariant serverProfiles == profiles[..i]
      {
        serverProfiles := serverProfiles + [profiles[i]];
        i := i + 1;
      }
    }

    /** Saves through the store, then reloads; an exception from the store skips the reload. */
    method AddProfile(profile: Option<ConnectionProfile>, writeError: Option<string>) returns (o: Outcome)
      requires Valid()
      modifies this`serverProfiles, profileManager
      ensures Valid()
      ensures profileManager.profiles ==
        (if SaveSpec(old(profileManager.profiles), profile).Success?
         then SaveSpec(old(profileManager.profiles), profile).value else old(profileManager.profiles))
      ensures o.Pass? <==> SaveSpec(old(profileManager.profiles), profile).Success? && writeError.None?
      ensures SaveSpec(old(profileManager.profiles), profile).Failure? ==>
        profileManager.persisted == old(profileManager.persisted)
        && profileManager.writeCount == old(profileManager.writeCount)
      ensures SaveSpec(old(profileManager.profiles), profile).Success? ==>
        profileManager.writeCount == old(profileManager.writeCount) + 1
        && profileManager.persisted == (if writeError.Some? then old(profileManager.persisted) else profileManager.profiles)
      ensures o.Pass? ==> serverProfiles == profileManager.profiles
      ensures o.Fail? ==> serverProfiles == old(serverProfiles)
      ensures selectedSourceProfile == old(selectedSourceProfile)
      ensures selectedDestinationProfile == old(selectedDestinationProfile)
    {
      o := profileManager.SaveProfile(profile, writeError);
      if o.Pass? {
        LoadProfiles();
      }
    }

    /** Deletes through the store, then reloads; an exception from the store skips the reload. */
    method RemoveProfile(profileName: string, writeError: Option<string>) returns (o: Outcome)
      requires Valid()
      modifies this`serverProfiles, profileManager
      ensures Valid()
      ensures profileManager.profiles ==
        (if DeleteSpec(old(profileManager.profiles), profileName).Success?
         then DeleteSpec(old(profileManager.profiles), profileName).value else old(profileManager.profiles))
      ensures o.Pass? <==>
        (!IsBlank(profileName) && (Lookup(old(profileManager.profiles), profileName).None? || writeError.None?))
      ensures IsBlank(profileName) || Lookup(old(profileManager.profiles), profileName).None? ==>
        profileManager.persisted == old(profileManager.persisted)
        && profileManager.writeCount == old(profileManager.writeCount)
      ensures !IsBlank(profileName) && Lookup(old(profileManager.profiles), profileName).Some? ==>
        profileManager.writeCount == old(profileManager.writeCount) + 1
        && profileManager.persisted == (if writeError.Some? then old(profileManager.persisted) else profileManager.profiles)
      ensures o.Pass? ==> serverProfiles == profileManager.profiles
      ensures o.Fail? ==> serverProfiles == old(serverProfiles)
      ensures selectedSourceProfile == old(selectedSourceProfile)
      ensures selectedDestinationProfile == old(selectedDestinationProfile)
    {
      o := profileManager.DeleteProfile(profileName, writeError);
      if o.Pass? {
        LoadProfiles();
      }
    }
  }
}
