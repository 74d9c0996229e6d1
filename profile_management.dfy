// ProfileManagementViewModel (ViewModels/Dialogs/ProfileManagementViewModel.cs):
// the profile dialog's search filter, the "N - Copy", "N - Copy (1)", ... name
// search of Duplicate, Delete with best-effort credential removal, and the
// ProfileSelected event. The view's own list is reloaded from the store after
// each change; the reload, which the source starts on the thread pool, is taken
// to complete before the command's own status message is shown.
module ProfileManagement {
  import opened Wrappers
  import opened Text
  import opened Models
  import opened ProfileStore
  import opened Credentials
  import InfoBar

  type InfoBarSeverity = InfoBar.InfoBarSeverity

  /** `t`, ignoring case, occurs somewhere in `field`. */
  ghost predicate OccursIgnoringCase(field: string, t: string)
  {
    exists i :: OccursAt(ToUpper(field), ToUpper(t), i)
  }

  /** `FilterProfiles(item)` under the search text `searchText`. */
  predicate FilterProfiles(item: Item<ConnectionProfile>, searchText: string)
  {
    match item
    case Foreign => true
    case Entry(p) =>
      IsBlank(searchText)
      || ContainsIgnoreCase(p.name, searchText)
      || ContainsIgnoreCase(p.serverAddress, searchText)
      || ContainsIgnoreCase(p.username, searchText)
  }

  /**
   * What the filter lets through: anything that is not a profile, everything
   * under a blank search, and otherwise exactly the profiles in whose name,
   * server address or user name the search text occurs ignoring case.
   */
  lemma FilterProfilesMeaning(item: Item<ConnectionProfile>, searchText: string)
    ensures item.Foreign? || IsBlank(searchText) ==> FilterProfiles(item, searchText)
    ensures item.Entry? && !IsBlank(searchText) ==>
      (FilterProfiles(item, searchText) <==>
        (OccursIgnoringCase(item.value.name, searchText)
         || OccursIgnoringCase(item.value.serverAddress, searchText)
         || OccursIgnoringCase(item.value.username, searchText)))
  {
    if item.Entry? {
      var p := item.value;
      ContainsIffOccurs(ToUpper(p.name), ToUpper(searchText));
      ContainsIffOccurs(ToUpper(p.serverAddress), ToUpper(searchText));
      ContainsIffOccurs(ToUpper(p.username), ToUpper(searchText));
    }
  }

  /** The k-th name Duplicate tries: "N - Copy" first, then "N - Copy (k)". */
  function CopyCandidate(name: string, k: nat): string
  {
    if k == 0 then name + " - Copy" else name + " - Copy (" + NatToString(k) + ")"
  }

  /** Upper-casing leaves a tail that has no lower-case letter where it was. */
  lemma UpperOfFixedTail(a: string, s: string)
    requires forall i :: 0 <= i < |s| ==> UpperChar(s[i]) == s[i]
    ensures ToUpper(a + s) == ToUpper(a) + s
  {
    var l := ToUpper(a + s);
    var r := ToUpper(a) + s;
    assert |l| == |r|;
    forall i | 0 <= i < |l|
      ensures l[i] == r[i]
    {
      if i < |a| {
        assert (a + s)[i] == a[i];
      } else {
        assert (a + s)[i] == s[i - |a|];
      }
    }
  }

  /** The counter suffix " (d)" of a candidate has no lower-case letter. */
  lemma CounterSuffixFixed(d: string)
    requires forall i :: 0 <= i < |d| ==> IsDigit(d[i])
    ensures forall i :: 0 <= i < |" (" + d + ")"| ==> UpperChar((" (" + d + ")")[i]) == (" (" + d + ")")[i]
  {
    var tail := " (" + d + ")";
    forall i | 0 <= i < |tail|
      ensures UpperChar(tail[i]) == tail[i]
    {
      if 2 <= i < 2 + |d| {
        assert tail[i] == d[i - 2];
      }
    }
  }

  /** Upper-cased, a candidate is the upper-cased "N - Copy" followed by the unchanged counter suffix. */
  lemma UpperOfCandidate(name: string, k: nat)
    requires k >= 1
    ensures ToUpper(CopyCandidate(name, k)) == ToUpper(name + " - Copy") + " (" + NatToString(k) + ")"
  {
    var tail := " (" + NatToString(k) + ")";
    CounterSuffixFixed(NatToString(k));
    assert CopyCandidate(name, k) == (name + " - Copy") + tail;
    UpperOfFixedTail(name + " - Copy", tail);
  }

  /** The first candidate is shorter than every later one, upper-cased. */
  lemma FirstCandidateShorter(name: string, m: nat)
    requires m >= 1
    ensures |ToUpper(CopyCandidate(name, m))| > |ToUpper(CopyCandidate(name, 0))|
  {
    UpperOfCandidate(name, m);
  }

  /** Two counter suffixes after the same prefix are equal only for the same digits. */
  lemma CounterSuffixCancel(u: string, a: string, b: string)
    requires u + " (" + a + ")" == u + " (" + b + ")"
    ensures a == b
  {
    var l := u + " (" + a + ")";
    var r := u + " (" + b + ")";
    assert |a| == |b|;
    forall i | 0 <= i < |a|
      ensures a[i] == b[i]
    {
      assert l[|u| + 2 + i] == a[i];
      assert r[|u| + 2 + i] == b[i];
    }
  }

  /** No two candidates are the same name ignoring case, so the search never revisits a stored profile. */
  lemma CopyCandidatesDistinct(name: string, j: nat, k: nat)
    requires j != k
    ensures !EqualsIgnoreCase(CopyCandidate(name, j), CopyCandidate(name, k))
  {
    if j == 0 {
      FirstCandidateShorter(name, k);
    } else if k == 0 {
      FirstCandidateShorter(name, j);
    } else {
      UpperOfCandidate(name, j);
      UpperOfCandidate(name, k);
      if ToUpper(CopyCandidate(name, j)) == ToUpper(CopyCandidate(name, k)) {
        CounterSuffixCancel(ToUpper(name + " - Copy"), NatToString(j), NatToString(k));
        NatToStringInjective(j, k);
      }
    }
  }

  /** Every candidate has a non-blank name: the 'C' of "Copy" is there. */
  lemma CopyCandidateNotBlank(name: string, k: nat)
    ensures !IsBlank(CopyCandidate(name, k))
  {
    assert CopyCandidate(name, k)[|name| + 3] == 'C';
  }

  /** The store knows every candidate before the k-th. */
  predicate AllTaken(ps: seq<ConnectionProfile>, name: string, k: nat)
  {
    forall j :: 0 <= j < k ==> Lookup(ps, CopyCandidate(name, j)).Some?
  }

  /** `k` is the first candidate that the store does not know. */
  predicate IsFirstFreeCopy(ps: seq<ConnectionProfile>, name: string, k: nat)
  {
    Lookup(ps, CopyCandidate(name, k)).None? && AllTaken(ps, name, k)
  }

  /** Every name in `seen` is an upper-cased candidate before the c-th. */
  ghost predicate SeenBefore(seen: set<string>, name: string, c: nat)
  {
    forall x :: x in seen ==> exists j :: 0 <= j < c && x == ToUpper(CopyCandidate(name, j))
  }

  /** The case-folded names in the store. */
  ghost function FoldedNames(ps: seq<ConnectionProfile>): set<string>
  {
    set k | 0 <= k < |ps| :: ToUpper(ps[k].name)
  }

  /** The profile Duplicate saves: a new object with the new name and the source's server, user and password. */
  function DuplicateOf(source: ConnectionProfile, id: ObjectId, name: string): ConnectionProfile
  {
    ConnectionProfile(id, name, source.serverAddress, source.username, source.password, "", "")
  }

  /**
   * The duplicate of `source` under its first free name is always accepted by
   * the store (so only the file write can make Duplicate fail), it is appended,
   * and it is found again under that name.
   */
  lemma DuplicateAlwaysSaved(ps: seq<ConnectionProfile>, source: ConnectionProfile, id: ObjectId, k: nat)
    requires IdsDistinct(ps)
    requires forall i :: 0 <= i < |ps| ==> ps[i].id != id
    requires IsFirstFreeCopy(ps, source.name, k)
    ensures var d := DuplicateOf(source, id, CopyCandidate(source.name, k));
      SaveSpec(ps, Some(d)) == Success(ps + [d])
      && Lookup(ps + [d], d.name) == Some(d)
  {
    var d := DuplicateOf(source, id, CopyCandidate(source.name, k));
    CopyCandidateNotBlank(source.name, k);
    assert !HasNameClash(ps, d);
    SaveAppendsNewObject(ps, d);
    var r := ps + [d];
    assert r[|ps|] == d && EqualsIgnoreCase(r[|ps|].name, d.name);
    forall j | 0 <= j < |ps|
      ensures !EqualsIgnoreCase(r[j].name, d.name)
    {
      assert r[j] == ps[j];
    }
    assert FindByName(r, d.name) == Some(|ps|);
  }

  /** A candidate the store knows is one of the store's case-folded names. */
  lemma StoredCandidateFolded(ps: seq<ConnectionProfile>, name: string, c: nat)
    requires Lookup(ps, CopyCandidate(name, c)).Some?
    ensures ToUpper(CopyCandidate(name, c)) in FoldedNames(ps)
  {
    var w :| 0 <= w < |ps| && EqualsIgnoreCase(ps[w].name, CopyCandidate(name, c));
    assert ToUpper(CopyCandidate(name, c)) == ToUpper(ps[w].name);
  }

  /** The c-th candidate was not met among the earlier ones. */
  lemma CandidateNotSeen(seen: set<string>, name: string, c: nat)
    requires SeenBefore(seen, name, c)
    ensures ToUpper(CopyCandidate(name, c)) !in seen
  {
    forall j | 0 <= j < c
      ensures ToUpper(CopyCandidate(name, j)) != ToUpper(CopyCandidate(name, c))
    {
      CopyCandidatesDistinct(name, j, c);
    }
  }

  /** Meeting one more element of a finite set leaves fewer of it unmet. */
  lemma UnmetShrinks(all: set<string>, seen: set<string>, x: string)
    requires x in all && x !in seen
    ensures |all - (seen + {x})| < |all - seen|
  {
    assert all - seen == (all - (seen + {x})) + {x};
  }

  /** Meeting the c-th candidate: the met names are candidates before the (c+1)-th. */
  lemma SeenBeforeStep(seen: set<string>, name: string, c: nat)
    requires SeenBefore(seen, name, c)
    ensures SeenBefore(seen + {ToUpper(CopyCandidate(name, c))}, name, c + 1)
  {
    var current := ToUpper(CopyCandidate(name, c));
    forall x | x in seen + {current}
      ensures exists j :: 0 <= j < c + 1 && x == ToUpper(CopyCandidate(name, j))
    {
      if x in seen {
        var j :| 0 <= j < c && x == ToUpper(CopyCandidate(name, j));
        assert 0 <= j < c + 1;
      } else {
        assert x == current;
      }
    }
  }

  /**
   * One round of the name search: a candidate the store knows is a stored
   * name not met before, so the stored names not yet met become fewer.
   */
  lemma SearchStep(ps: seq<ConnectionProfile>, name: string, c: nat, seen: set<string>)
    requires Lookup(ps, CopyCandidate(name, c)).Some?
    requires AllTaken(ps, name, c)
    requires seen <= FoldedNames(ps)
    requires SeenBefore(seen, name, c)
    ensures var next := seen + {ToUpper(CopyCandidate(name, c))};
      next <= FoldedNames(ps) && SeenBefore(next, name, c + 1) && AllTaken(ps, name, c + 1)
      && |FoldedNames(ps) - next| < |FoldedNames(ps) - seen|
  {
    var current := ToUpper(CopyCandidate(name, c));
    StoredCandidateFolded(ps, name, c);
    CandidateNotSeen(seen, name, c);
    UnmetShrinks(FoldedNames(ps), seen, current);
    SeenBeforeStep(seen, name, c);
  }

  class ProfileManagementViewModel {
    const store: ProfileManager
    const credentials: CredentialManager
    /** `Profiles`, the list the dialog shows. */
    var profiles: seq<ConnectionProfile>
    var selectedProfile: Option<ConnectionProfile>
    var searchText: string
    var statusTitle: string
    var statusMessage: string
    var statusSeverity: InfoBarSeverity
    var showStatus: bool
    /** The arguments of every `ProfileSelected` event raised, oldest first. */
    var selectedEvents: seq<ConnectionProfile>

    ghost predicate Valid()
      reads this, store
    {
      store.Valid()
    }

    /** The constructor, with the initial profile load taken as done. */
    constructor (store: ProfileManager, credentials: CredentialManager)
      requires store.Valid()
      ensures Valid()
      ensures this.store == store && this.credentials == credentials
      ensures profiles == store.profiles && selectedProfile.None? && searchText == "" && selectedEvents == []
      ensures statusTitle == "Profiles Loaded" && statusMessage == "Loaded " + NatToString(|store.profiles|) + " profiles"
      ensures statusSeverity == InfoBar.Success && showStatus
    {
      this.store := store;
      this.credentials := credentials;
      selectedProfile := None;
      searchText := "";
      selectedEvents := [];
      profiles := [];
      statusTitle := "Ready";
      statusMessage := "";
      statusSeverity := InfoBar.Informational;
      showStatus := false;
      new;
      LoadProfiles();
    }

    /** `ShowStatusMessage`: the bar is shown; the timed auto-hide is not modelled. */
    method ShowStatusMessage(title: string, message: string, severity: InfoBarSeverity)
      modifies this`statusTitle, this`statusMessage, this`statusSeverity, this`showStatus
      ensures statusTitle == title && statusMessage == message && statusSeverity == severity && showStatus
      ensures profiles == old(profiles) && selectedProfile == old(selectedProfile)
      ensures searchText == old(searchText) && selectedEvents == old(selectedEvents)
    {
      statusTitle := title;
      statusMessage := message;
      statusSeverity := severity;
      showStatus := true;
    }

    /** `LoadProfilesAsync`: clears the list, refills it from the store and reports the count. */
    method LoadProfiles()
      modifies this`profiles, this`statusTitle, this`statusMessage, this`statusSeverity, this`showStatus
      ensures profiles == store.profiles
      ensures statusTitle == "Profiles Loaded" && statusMessage == "Loaded " + NatToString(|store.profiles|) + " profiles"
      ensures statusSeverity == InfoBar.Success && showStatus
      ensures selectedProfile == old(selectedProfile) && searchText == old(searchText)
      ensures selectedEvents == old(selectedEvents)
    {
      profiles := [];
      var all := store.GetAllProfiles();
      var i := 0;
      while i < |all|
        invariant 0 <= i <= |all|
        invariant profiles == all[..i]
        invariant selectedProfile == old(selectedProfile) && searchText == old(searchText)
        invariant selectedEvents == old(selectedEvents)
      {
        profiles := profiles + [all[i]];
        i := i + 1;
      }
      assert all[..i] == all;
      ShowStatusMessage("Profiles Loaded", "Loaded " + NatToString(|profiles|) + " profiles", InfoBar.Success);
    }

    /**
     * The name search of `DuplicateProfile`: asks the store for "N - Copy",
     * "N - Copy (1)", ... until one is unknown. It ends because each known
     * candidate is a different stored name.
     */
    method FindDuplicateName(name: string) returns (duplicateName: string, ghost k: nat)
      ensures duplicateName == CopyCandidate(name, k)
      ensures IsFirstFreeCopy(store.profiles, name, k)
    {
      duplicateName := name + " - Copy";
      var counter: nat := 1;
      k := 0;
      ghost var seen: set<string> := {};
      var found := store.GetProfile(duplicateName);
      while found.Some?
        invariant counter == k + 1
        invariant duplicateName == CopyCandidate(name, k)
        invariant found == Lookup(store.profiles, duplicateName)
        invariant AllTaken(store.profiles, name, k)
        invariant seen <= FoldedNames(store.profiles)
        invariant SeenBefore(seen, name, k)
        decreases |FoldedNames(store.profiles) - seen|
      {
        SearchStep(store.profiles, name, k, seen);
        seen := seen + {ToUpper(duplicateName)};
        duplicateName := name + " - Copy (" + NatToString(counter) + ")";
        assert duplicateName == CopyCandidate(name, counter);
        k := counter;
        counter := counter + 1;
        found := store.GetProfile(duplicateName);
      }
    }

    /**
     * `DuplicateProfile`: saves a copy of the selection under its first free
     * name under the fresh object identity `newId`, copies a non-empty stored
     * password to the new name, reloads and reports. `writeError` is the message of
     * the exception writing the profile file throws, if it does, which the catch turns into an error
     * status after the store's list has already grown. `vaultError` is the
     * message of the exception the credential vault throws when it refuses the
     * copied password, which the same catch reports.
     */
    method DuplicateProfile(newId: ObjectId, writeError: Option<string>, vaultError: Option<string>)
      requires Valid()
      requires forall i :: 0 <= i < |store.profiles| ==> store.profiles[i].id != newId
      modifies this`profiles, this`statusTitle, this`statusMessage, this`statusSeverity, this`showStatus
      modifies store, credentials
      ensures Valid()
      ensures selectedProfile == old(selectedProfile) && selectedEvents == old(selectedEvents) && searchText == old(searchText)
      ensures old(selectedProfile).None? ==>
        store.profiles == old(store.profiles) && store.persisted == old(store.persisted)
        && store.writeCount == old(store.writeCount)
        && credentials.passwords == old(credentials.passwords) && credentials.userNames == old(credentials.userNames)
        && profiles == old(profiles)
        && statusTitle == old(statusTitle) && statusMessage == old(statusMessage)
        && statusSeverity == old(statusSeverity) && showStatus == old(showStatus)
      ensures old(selectedProfile).Some? ==>
        var source := old(selectedProfile).value;
        exists k: nat :: (IsFirstFreeCopy(old(store.profiles), source.name, k)
          && var d := DuplicateOf(source, newId, CopyCandidate(source.name, k));
          store.profiles == old(store.profiles) + [d] && store.writeCount == old(store.writeCount) + 1
          && Lookup(store.profiles, d.name) == Some(d) && showStatus
          && (if writeError.Some? then
                store.persisted == old(store.persisted)
                && credentials.passwords == old(credentials.passwords)
                && credentials.userNames == old(credentials.userNames) && profiles == old(profiles)
                && statusTitle == "Duplicate Error" && statusMessage == writeError.value && statusSeverity == InfoBar.Error
              else if old(credentials.GetPassword(source.name)) != "" && vaultError.Some? then
                store.persisted == store.profiles
                && credentials.passwords == old(credentials.passwords)
                && credentials.userNames == old(credentials.userNames) && profiles == old(profiles)
                && statusTitle == "Duplicate Error" && statusMessage == vaultError.value && statusSeverity == InfoBar.Error
              else
                store.persisted == store.profiles && profiles == store.profiles
                && credentials.passwords ==
                  (if old(credentials.GetPassword(source.name)) == "" then old(credentials.passwords)
                   else old(credentials.passwords)[d.name := old(credentials.GetPassword(source.name))])
                && credentials.userNames ==
                  (if old(credentials.GetPassword(source.name)) == "" then old(credentials.userNames)
                   else old(credentials.userNames)[d.name := source.username])
                && statusTitle == "Profile Duplicated" && statusMessage == "Created duplicate profile: " + d.name
                && statusSeverity == InfoBar.Success))
    {
      if selectedProfile.None? {
        return;
      }
      var source := selectedProfile.value;
      var duplicateName, k := FindDuplicateName(source.name);
      var duplicate := DuplicateOf(source, newId, duplicateName);
      DuplicateAlwaysSaved(store.profiles, source, newId, k);
      var o := store.SaveProfile(Some(duplicate), writeError);
      if o.Fail? {
        ShowStatusMessage("Duplicate Error", Message(o.error), InfoBar.Error);
        return;
      }
      var securePassword := credentials.GetPassword(source.name);
      if |securePassword| > 0 {
        o := credentials.SavePassword(duplicate.name, duplicate.username, securePassword, vaultError);
        if o.Fail? {
          ShowStatusMessage("Duplicate Error", Message(o.error), InfoBar.Error);
          return;
        }
      }
      LoadProfiles();
      ShowStatusMessage("Profile Duplicated", "Created duplicate profile: " + duplicateName, InfoBar.Success);
    }

    /**
     * `DeleteProfile`: removes the selection from the store, then tries to
     * remove its credential (a failure there is swallowed), reloads, clears the
     * selection and reports. A store failure becomes an error status.
     */
    method DeleteProfile(writeError: Option<string>)
      requires Valid()
      modifies this`profiles, this`selectedProfile, this`statusTitle, this`statusMessage, this`statusSeverity
      modifies this`showStatus, store, credentials
      ensures Valid()
      ensures selectedEvents == old(selectedEvents) && searchText == old(searchText)
      ensures old(selectedProfile).None? ==>
        store.profiles == old(store.profiles) && store.persisted == old(store.persisted)
        && store.writeCount == old(store.writeCount)
        && credentials.passwords == old(credentials.passwords) && credentials.userNames == old(credentials.userNames)
        && profiles == old(profiles) && selectedProfile.None?
        && statusTitle == old(statusTitle) && statusMessage == old(statusMessage)
        && statusSeverity == old(statusSeverity) && showStatus == old(showStatus)
      ensures old(selectedProfile).Some? ==>
        var name := old(selectedProfile).value.name;
        var spec := DeleteSpec(old(store.profiles), name);
        var deleted := DeleteOutcome(old(store.profiles), name, writeError);
        && store.profiles == (if spec.Success? then spec.value else old(store.profiles))
        && (if !IsBlank(name) && Lookup(old(store.profiles), name).Some? then
              store.writeCount == old(store.writeCount) + 1
              && store.persisted == (if writeError.Some? then old(store.persisted) else store.profiles)
            else store.writeCount == old(store.writeCount) && store.persisted == old(store.persisted))
        && showStatus
        && (deleted.Fail? ==>
              profiles == old(profiles) && selectedProfile == old(selectedProfile)
              && credentials.passwords == old(credentials.passwords)
              && credentials.userNames == old(credentials.userNames)
              && statusTitle == "Delete Error" && statusMessage == Message(deleted.error)
              && statusSeverity == InfoBar.Error)
        && (deleted.Pass? ==>
              profiles == store.profiles && selectedProfile.None?
              && credentials.passwords == old(credentials.passwords) - {name}
              && credentials.userNames ==
                (if name in old(credentials.passwords) then old(credentials.userNames) - {name}
                 else old(credentials.userNames))
              && statusTitle == "Profile Deleted" && statusMessage == "Deleted profile: " + name
              && statusSeverity == InfoBar.Success)
    {
      if selectedProfile.None? {
        return;
      }
      var profileName := selectedProfile.value.name;
      var o := store.DeleteProfile(profileName, writeError);
      if o.Fail? {
        ShowStatusMessage("Delete Error", Message(o.error), InfoBar.Error);
        return;
      }
      var ignored := credentials.DeletePassword(profileName);
      LoadProfiles();
      selectedProfile := None;
      ShowStatusMessage("Profile Deleted", "Deleted profile: " + profileName, InfoBar.Success);
    }

    /** `SelectProfile`: raises `ProfileSelected` with the selection, if there is one. */
    method SelectProfile()
      modifies this`selectedEvents
      ensures selectedEvents == old(selectedEvents) + (if old(selectedProfile).Some? then [old(selectedProfile).value] else [])
      ensures profiles == old(profiles) && selectedProfile == old(selectedProfile) && searchText == old(searchText)
      ensures statusTitle == old(statusTitle) && statusMessage == old(statusMessage) && showStatus == old(showStatus)
      ensures statusSeverity == old(statusSeverity)
    {
      if selectedProfile.Some? {
        selectedEvents := selectedEvents + [selectedProfile.value];
      }
    }
  }
}
