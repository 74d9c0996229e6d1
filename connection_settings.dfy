// The connection-settings page: the store's profiles sorted by name, a search
// box narrowing them, the selected profile with its stored password, and the
// commands to add, save and delete a profile. Property-change notifications are
// recorded by name, in the order they are raised.
module ConnectionSettings {
  import opened Wrappers
  import opened Text
  import opened Models
  import opened Sequences
  import opened Sorting
  import opened ProfileStore
  import opened Credentials

  /** The outcome of `SetProperty`: the new field value, the answer, and the events raised. */
  datatype Assignment<T> = Assignment(field: T, changed: bool, raised: seq<string>)

  /**
   * `SetProperty(ref field, value, name)`: afterwards the field holds `value`
   * either way; it answers true, and raises the change event once, exactly
   * when the old value was different.
   */
  function SetProperty<T(==)>(field: T, value: T, name: string): (r: Assignment<T>)
    ensures r.field == value
    ensures r.changed <==> field != value
    ensures r.raised == if r.changed then [name] else []
  {
    if field == value then Assignment(field, false, []) else Assignment(value, true, [name])
  }

  /** Setting a property twice to the same value raises nothing the second time. */
  lemma SetPropertyIdempotent<T>(field: T, value: T, name: string)
    ensures var once := SetProperty(field, value, name);
      SetProperty(once.field, value, name) == Assignment(value, false, [])
  {
  }

  /** A profile passes the search when the text occurs, ignoring case, in its name, source vCenter or source user name. */
  predicate MatchesSearch(p: ConnectionProfile, filter: string)
  {
    ContainsIgnoreCase(p.name, filter) || ContainsIgnoreCase(p.sourceVCenter, filter)
    || ContainsIgnoreCase(p.sourceUsername, filter)
  }

  function SearchPredicate(filter: string): ConnectionProfile -> bool
  {
    (p: ConnectionProfile) => MatchesSearch(p, filter)
  }

  /** A null search filter counts as blank. */
  predicate IsBlankFilter(filter: Option<string>)
  {
    filter.None? || IsBlank(filter.value)
  }

  /** `FilteredProfiles`: all profiles under a blank filter, else those matching it, in list order. */
  function FilteredProfiles(profiles: seq<ConnectionProfile>, filter: Option<string>): seq<ConnectionProfile>
  {
    if IsBlankFilter(filter) then profiles else Where(profiles, SearchPredicate(filter.value))
  }

  /**
   * The filtered list keeps the list's order and holds exactly the profiles
   * that match; a blank or null filter shows the whole list.
   */
  lemma FilteredProfilesMeaning(profiles: seq<ConnectionProfile>, filter: Option<string>)
    ensures IsSubsequence(FilteredProfiles(profiles, filter), profiles)
    ensures IsBlankFilter(filter) ==> FilteredProfiles(profiles, filter) == profiles
    ensures !IsBlankFilter(filter) ==> forall p :: p in FilteredProfiles(profiles, filter) <==>
      p in profiles && MatchesSearch(p, filter.value)
  {
    if IsBlankFilter(filter) {
      WhereAll(profiles, (p: ConnectionProfile) => true);
      WhereIsSubsequence(profiles, (p: ConnectionProfile) => true);
    } else {
      WhereIsSubsequence(profiles, SearchPredicate(filter.value));
      forall p
        ensures p in FilteredProfiles(profiles, filter) <==> p in profiles && MatchesSearch(p, filter.value)
      {
        WhereMembers(profiles, SearchPredicate(filter.value), p);
      }
    }
  }

  /** `CanSaveProfile`: a profile is selected and its name, source vCenter and source user name are all filled in. */
  predicate CanSaveProfile(selected: Option<ConnectionProfile>)
  {
    selected.Some? && !IsBlank(selected.value.name) && !IsBlank(selected.value.sourceVCenter)
    && !IsBlank(selected.value.sourceUsername)
  }

  /** `CanDeleteProfile`: a profile is selected. */
  predicate CanDeleteProfile(selected: Option<ConnectionProfile>)
  {
    selected.Some?
  }

  /**
   * When saving is enabled the store can only refuse the profile for a name
   * another stored profile already has; and whatever can be saved can be
   * deleted.
   */
  lemma CanSaveMeansOnlyClashFails(ps: seq<ConnectionProfile>, selected: Option<ConnectionProfile>)
    requires CanSaveProfile(selected)
    ensures SaveSpec(ps, selected).Failure? <==> HasNameClash(ps, selected.value)
    ensures CanDeleteProfile(selected)
  {
    SaveFailsIff(ps, selected);
  }

  /**
   * A list after the profile object `edited.id` has been changed in place:
   * the list holds the object itself, so each of its entries shows the edit.
   */
  function ReplaceObject(ps: seq<ConnectionProfile>, edited: ConnectionProfile): (r: seq<ConnectionProfile>)
    ensures |r| == |ps|
    ensures forall k :: 0 <= k < |ps| ==> r[k].id == ps[k].id
    ensures forall k :: 0 <= k < |ps| ==> r[k] == (if ps[k].id == edited.id then edited else ps[k])
  {
    if ps == [] then []
    else [if ps[0].id == edited.id then edited else ps[0]] + ReplaceObject(ps[1..], edited)
  }

  /**
   * After an in-place edit the store finds the object under its new name: when
   * the edited object is stored and no other object has that name (ignoring
   * case), looking the new name up gives the edited object, and a delete by
   * the new name removes it.
   */
  lemma EditedFoundUnderNewName(ps: seq<ConnectionProfile>, edited: ConnectionProfile, k: nat)
    requires IdsDistinct(ps) && k < |ps| && ps[k].id == edited.id && !IsBlank(edited.name)
    requires forall j :: 0 <= j < |ps| && j != k ==> !EqualsIgnoreCase(ps[j].name, edited.name)
    ensures Lookup(ReplaceObject(ps, edited), edited.name) == Some(edited)
    ensures var r := ReplaceObject(ps, edited);
      DeleteSpec(r, edited.name) == Success(r[..k] + r[k + 1..])
  {
    var r := ReplaceObject(ps, edited);
    assert r[k] == edited;
    assert EqualsIgnoreCase(r[k].name, edited.name);
    forall j | 0 <= j < |r| && j != k
      ensures !EqualsIgnoreCase(r[j].name, edited.name)
    {
      assert ps[j].id != edited.id;
    }
    assert FindByName(r, edited.name) == Some(k);
  }

  function ByName(p: ConnectionProfile): string
  {
    p.name
  }

  class ConnectionSettingsViewModel {
    const store: ProfileManager
    const credentials: CredentialManager
    /** `Profiles`, rebuilt by `LoadProfiles`. */
    var profiles: seq<ConnectionProfile>
    /** `_searchFilter`, null until first set. */
    var searchFilter: Option<string>
    var selectedProfile: Option<ConnectionProfile>
    /** The contents of the `Password` secure string. */
    var password: string
    /** The names of the property-change events raised so far, oldest first. */
    var events: seq<string>

    ghost predicate Valid()
      reads this, store
    {
      store.Valid()
    }

    constructor (store: ProfileManager, credentials: CredentialManager)
      requires store.Valid()
      ensures Valid() && this.store == store && this.credentials == credentials
      ensures profiles == SortBy(store.profiles, ByName)
      ensures searchFilter.None? && selectedProfile.None? && password == ""
      ensures events == ["FilteredProfiles"]
    {
      this.store := store;
      this.credentials := credentials;
      profiles := [];
      searchFilter := None;
      selectedProfile := None;
      password := "";
      events := [];
      new;
      LoadProfiles();
    }

    /** The `FilteredProfiles` view of the current list and filter. */
    function Filtered(): seq<ConnectionProfile>
      reads this
    {
      FilteredProfiles(profiles, searchFilter)
    }

    /** The `SearchFilter` setter: a change also announces a new `FilteredProfiles`. */
    method SetSearchFilter(value: Option<string>)
      modifies this`searchFilter, this`events
      ensures searchFilter == value
      ensures events == old(events) + (if old(searchFilter) != value then ["SearchFilter", "FilteredProfiles"] else [])
    {
      var a := SetProperty(searchFilter, value, "SearchFilter");
      searchFilter := a.field;
      events := events + a.raised;
      if a.changed {
        events := events + ["FilteredProfiles"];
      }
    }

    /**
     * The `SelectedProfile` setter: on a change, `Password` becomes the
     * stored password of the new selection (empty for none or an unknown
     * name). Every such password is a new secure string, so `Password`
     * always announces a change.
     */
    method SetSelectedProfile(value: Option<ConnectionProfile>)
      modifies this`selectedProfile, this`password, this`events
      ensures selectedProfile == value
      ensures old(selectedProfile) == value ==> password == old(password) && events == old(events)
      ensures old(selectedProfile) != value ==>
        password == (if value.Some? then credentials.GetPassword(value.value.name) else "")
        && events == old(events) + ["SelectedProfile", "Password"]
    {
      var a := SetProperty(selectedProfile, value, "SelectedProfile");
      selectedProfile := a.field;
      events := events + a.raised;
      if a.changed {
        password := if value.Some? then credentials.GetPassword(value.value.name) else "";
        events := events + ["Password"];
      }
    }

    /** The `Password` setter, bound to the password box: one "Password" event exactly when the value changes. */
    method SetPassword(value: string)
      modifies this`password, this`events
      ensures password == value
      ensures events == old(events) + (if old(password) != value then ["Password"] else [])
    {
      var a := SetProperty(password, value, "Password");
      password := a.field;
      events := events + a.raised;
    }

    /**
     * The page's editors writing the selection's name, source vCenter and
     * source user name into the selected object. That object is the one the
     * page's list and the store's list hold, so every entry of it shows the
     * edit; nothing is written to the file. With nothing selected the editors
     * write nowhere.
     */
    method EditSelectedProfile(name: string, sourceVCenter: string, sourceUsername: string)
      requires Valid()
      modifies store`profiles, this`profiles, this`selectedProfile
      ensures Valid()
      ensures store.persisted == old(store.persisted) && store.writeCount == old(store.writeCount)
      ensures old(selectedProfile).None? ==>
        selectedProfile.None? && profiles == old(profiles) && store.profiles == old(store.profiles)
      ensures old(selectedProfile).Some? ==>
        var edited := old(selectedProfile).value.(name := name, sourceVCenter := sourceVCenter, sourceUsername := sourceUsername);
        && selectedProfile == Some(edited)
        && profiles == ReplaceObject(old(profiles), edited)
        && store.profiles == ReplaceObject(old(store.profiles), edited)
    {
      if selectedProfile.None? {
        return;
      }
      var edited := selectedProfile.value.(name := name, sourceVCenter := sourceVCenter, sourceUsername := sourceUsername);
      selectedProfile := Some(edited);
      profiles := ReplaceObject(profiles, edited);
      store.profiles := ReplaceObject(store.profiles, edited);
    }

    /** `LoadProfiles`: the store's profiles ordered by name. */
    method LoadProfiles()
      modifies this`profiles, this`events
      ensures profiles == SortBy(store.profiles, ByName)
      ensures events == old(events) + ["FilteredProfiles"]
    {
      profiles := [];
      var all := store.GetAllProfiles();
      var sorted := SortBy(all, ByName);
      var i := 0;
      while i < |sorted|
        invariant 0 <= i <= |sorted|
        invariant profiles == sorted[..i]
        invariant events == old(events)
      {
        profiles := profiles + [sorted[i]];
        i := i + 1;
      }
      assert sorted[..i] == sorted;
      events := events + ["FilteredProfiles"];
    }

    /** `NewProfile`: appends a fresh "New Profile" (object `newId`) and selects it. */
    method NewProfile(newId: ObjectId)
      requires selectedProfile.None? || selectedProfile.value.id != newId
      modifies this`profiles, this`selectedProfile, this`password, this`events
      ensures var np := ConnectionProfile(newId, "New Profile", "", "", "", "", "");
        profiles == old(profiles) + [np] && selectedProfile == Some(np)
        && password == credentials.GetPassword("New Profile")
        && events == old(events) + ["SelectedProfile", "Password"]
    {
      var np := ConnectionProfile(newId, "New Profile", "", "", "", "", "");
      profiles := profiles + [np];
      SetSelectedProfile(Some(np));
    }

    /**
     * `SaveProfile`: stores the selection, then its password under its name,
     * then reloads. An exception from the store or the credential vault
     * (`vaultError`) propagates and stops the rest.
     */
    method SaveProfile(writeError: Option<string>, vaultError: Option<string>) returns (o: Outcome)
      requires Valid()
      modifies store, credentials, this`profiles, this`events
      ensures Valid()
      ensures SaveSpec(old(store.profiles), selectedProfile).Failure? ==>
        o == Fail(SaveSpec(old(store.profiles), selectedProfile).error)
        && store.profiles == old(store.profiles) && credentials.passwords == old(credentials.passwords)
        && store.persisted == old(store.persisted) && store.writeCount == old(store.writeCount)
        && credentials.userNames == old(credentials.userNames)
        && profiles == old(profiles) && events == old(events)
      ensures SaveSpec(old(store.profiles), selectedProfile).Success? ==>
        store.profiles == SaveSpec(old(store.profiles), selectedProfile).value
        && store.writeCount == old(store.writeCount) + 1
      ensures SaveSpec(old(store.profiles), selectedProfile).Success? && writeError.Some? ==>
        o == Fail(IOFailure(writeError.value)) && credentials.passwords == old(credentials.passwords)
        && store.persisted == old(store.persisted) && credentials.userNames == old(credentials.userNames)
        && profiles == old(profiles) && events == old(events)
      ensures SaveSpec(old(store.profiles), selectedProfile).Success? && writeError.None? ==>
        store.persisted == store.profiles
      ensures SaveSpec(old(store.profiles), selectedProfile).Success? && writeError.None? && vaultError.Some? ==>
        o == Fail(Other(vaultError.value)) && credentials.passwords == old(credentials.passwords)
        && credentials.userNames == old(credentials.userNames)
        && profiles == old(profiles) && events == old(events)
      ensures SaveSpec(old(store.profiles), selectedProfile).Success? && writeError.None? && vaultError.None? ==>
        o == Pass && events == old(events) + ["FilteredProfiles"]
        && credentials.passwords == old(credentials.passwords)[selectedProfile.value.name := password]
        && credentials.userNames == old(credentials.userNames)[selectedProfile.value.name := selectedProfile.value.sourceUsername]
        && profiles == SortBy(store.profiles, ByName)
    {
      o := store.SaveProfile(selectedProfile, writeError);
      if o.Fail? {
        return;
      }
      o := credentials.SavePassword(selectedProfile.value.name, selectedProfile.value.sourceUsername, password, vaultError);
      if o.Fail? {
        return;
      }
      LoadProfiles();
    }

    /**
     * `DeleteProfile`: deletes the selection from the store and its credential
     * (which throws when none is stored), reloads and clears the selection.
     * With nothing selected it throws a null reference; any exception stops
     * the rest.
     */
    method DeleteProfile(writeError: Option<string>) returns (o: Outcome)
      requires Valid()
      modifies store, credentials, this`profiles, this`selectedProfile, this`password, this`events
      ensures Valid()
      ensures old(selectedProfile).None? ==>
        o == Fail(NullReference) && store.profiles == old(store.profiles)
        && store.persisted == old(store.persisted) && store.writeCount == old(store.writeCount)
        && credentials.passwords == old(credentials.passwords) && credentials.userNames == old(credentials.userNames)
        && profiles == old(profiles) && selectedProfile.None? && password == old(password) && events == old(events)
      ensures old(selectedProfile).Some? ==>
        var name := old(selectedProfile).value.name;
        var spec := DeleteSpec(old(store.profiles), name);
        var deleted := DeleteOutcome(old(store.profiles), name, writeError);
        && store.profiles == (if spec.Success? then spec.value else old(store.profiles))
        && (if !IsBlank(name) && Lookup(old(store.profiles), name).Some? then
              store.writeCount == old(store.writeCount) + 1
              && store.persisted == (if writeError.Some? then old(store.persisted) else store.profiles)
            else store.writeCount == old(store.writeCount) && store.persisted == old(store.persisted))
        && (deleted.Fail? ==>
              o == deleted && credentials.passwords == old(credentials.passwords)
              && credentials.userNames == old(credentials.userNames)
              && selectedProfile == old(selectedProfile) && profiles == old(profiles)
              && password == old(password) && events == old(events))
        && (deleted.Pass? && name !in old(credentials.passwords) ==>
              o == Fail(Other(NotFoundMessage)) && credentials.passwords == old(credentials.passwords)
              && credentials.userNames == old(credentials.userNames)
              && selectedProfile == old(selectedProfile) && profiles == old(profiles)
              && password == old(password) && events == old(events))
        && (deleted.Pass? && name in old(credentials.passwords) ==>
              o == Pass && credentials.passwords == old(credentials.passwords) - {name}
              && credentials.userNames == old(credentials.userNames) - {name}
              && profiles == SortBy(store.profiles, ByName) && selectedProfile.None? && password == ""
              && events == old(events) + ["FilteredProfiles", "SelectedProfile", "Password"])
    {
      if selectedProfile.None? {
        return Fail(NullReference);
      }
      var name := selectedProfile.value.name;
      o := store.DeleteProfile(name, writeError);
      if o.Fail? {
        return;
      }
      o := credentials.DeletePassword(name);
      if o.Fail? {
        return;
      }
      LoadProfiles();
      SetSelectedProfile(None);
    }
  }
}
