// JsonProfileManager: the in-memory list of connection profiles behind every
// page, with case-insensitive unique names, update by identity or append on
// save, and a delete that ignores unknown names. The JSON file is an abstract
// sink: the list last written and the number of write attempts.
module ProfileStore {
  import opened Wrappers
  import opened Text
  import opened Models

  const EmptyNameMessage: string := "Profile name cannot be empty"

  predicate NamesDistinct(ps: seq<ConnectionProfile>)
  {
    forall i, j :: 0 <= i < j < |ps| ==> !EqualsIgnoreCase(ps[i].name, ps[j].name)
  }

  /** No object appears twice in the list. */
  predicate IdsDistinct(ps: seq<ConnectionProfile>)
  {
    forall i, j :: 0 <= i < j < |ps| ==> ps[i].id != ps[j].id
  }

  /** Index of the first profile whose name equals `name` ignoring case. */
  function FindByName(ps: seq<ConnectionProfile>, name: string): (r: Option<nat>)
    ensures r.Some? ==> r.value < |ps| && EqualsIgnoreCase(ps[r.value].name, name)
    ensures r.Some? ==> forall k :: 0 <= k < r.value ==> !EqualsIgnoreCase(ps[k].name, name)
    ensures r.None? ==> forall k :: 0 <= k < |ps| ==> !EqualsIgnoreCase(ps[k].name, name)
    decreases |ps|
  {
    if ps == [] then None
    else if EqualsIgnoreCase(ps[0].name, name) then Some(0)
    else match FindByName(ps[1..], name)
      case None => None
      case Some(i) => Some(i + 1)
  }

  /** Index of the profile object `id` (`FindIndex(p => ReferenceEquals(p, profile))`). */
  function IndexOfObject(ps: seq<ConnectionProfile>, id: ObjectId): (r: Option<nat>)
    ensures r.Some? ==> r.value < |ps| && ps[r.value].id == id
    ensures r.None? ==> forall k :: 0 <= k < |ps| ==> ps[k].id != id
    decreases |ps|
  {
    if ps == [] then None
    else if ps[0].id == id then Some(0)
    else match IndexOfObject(ps[1..], id)
      case None => None
      case Some(i) => Some(i + 1)
  }

  /** `GetProfile(name)`: the first profile named `name` ignoring case, or null. */
  function Lookup(ps: seq<ConnectionProfile>, name: string): (r: Option<ConnectionProfile>)
    ensures r.Some? <==> exists k :: 0 <= k < |ps| && EqualsIgnoreCase(ps[k].name, name)
    ensures r.Some? ==> exists k :: (0 <= k < |ps| && ps[k] == r.value
      && EqualsIgnoreCase(ps[k].name, name)
      && forall j :: 0 <= j < k ==> !EqualsIgnoreCase(ps[j].name, name))
  {
    match FindByName(ps, name)
    case None => None
    case Some(i) => Some(ps[i])
  }

  /** `p` is a different object with the same name as `q`, ignoring case. */
  predicate Clashes(q: ConnectionProfile, p: ConnectionProfile)
  {
    q.id != p.id && EqualsIgnoreCase(q.name, p.name)
  }

  predicate HasNameClash(ps: seq<ConnectionProfile>, p: ConnectionProfile)
  {
    exists k :: 0 <= k < |ps| && Clashes(ps[k], p)
  }

  /** The list after `SaveProfile(p)`, or the exception it throws before changing the list. */
  function SaveSpec(ps: seq<ConnectionProfile>, p: Option<ConnectionProfile>): Result<seq<ConnectionProfile>>
  {
    match p
    case None => Failure(ArgumentNull("profile"))
    case Some(q) =>
      if IsBlank(q.name) then Failure(Argument(EmptyNameMessage, ""))
      else if HasNameClash(ps, q) then Failure(InvalidOperation("Profile with name '" + q.name + "' already exists"))
      else match IndexOfObject(ps, q.id)
        case Some(i) => Success(ps[i := q])
        case None => Success(ps + [q])
  }

  /** The list after `DeleteProfile(name)`, or the exception it throws. */
  function DeleteSpec(ps: seq<ConnectionProfile>, name: string): Result<seq<ConnectionProfile>>
  {
    if IsBlank(name) then Failure(Argument(EmptyNameMessage, "name"))
    else match FindByName(ps, name)
      case None => Success(ps)
      case Some(i) => Success(ps[..i] + ps[i + 1..])
  }

  /**
   * What `DeleteProfile(name)` answers when writing the file throws an
   * `IOException` with the runtime's message `m` exactly when `writeError ==
   * Some(m)`: the exception of a blank name, the write error when a
   * profile was removed and the file could not be written, and success
   * otherwise (an unknown name writes nothing).
   */
  function DeleteOutcome(ps: seq<ConnectionProfile>, name: string, writeError: Option<string>): (o: Outcome)
    ensures o.Fail? <==> DeleteSpec(ps, name).Failure? || (Lookup(ps, name).Some? && writeError.Some?)
    ensures DeleteSpec(ps, name).Failure? ==> o == Fail(DeleteSpec(ps, name).error)
    ensures DeleteSpec(ps, name).Success? && o.Fail? ==> o == Fail(IOFailure(writeError.value))
  {
    match DeleteSpec(ps, name)
    case Failure(e) => Fail(e)
    case Success(_) => if Lookup(ps, name).Some? && writeError.Some? then Fail(IOFailure(writeError.value)) else Pass
  }

  /** Saving fails, and changes nothing, exactly on a null profile, a blank name or a name taken by another object. */
  lemma SaveFailsIff(ps: seq<ConnectionProfile>, p: Option<ConnectionProfile>)
    ensures SaveSpec(ps, p).Failure? <==> p.None? || IsBlank(p.value.name) || HasNameClash(ps, p.value)
    ensures p.None? ==> SaveSpec(ps, p).error == ArgumentNull("profile")
    ensures p.Some? && IsBlank(p.value.name) ==> SaveSpec(ps, p).error == Argument(EmptyNameMessage, "")
    ensures p.Some? && !IsBlank(p.value.name) && HasNameClash(ps, p.value) ==> SaveSpec(ps, p).error.InvalidOperation?
  {
  }

  /** Saving an object already in the list replaces it where it stands and touches nothing else. */
  lemma SaveReplacesSameObject(ps: seq<ConnectionProfile>, q: ConnectionProfile, i: nat)
    requires IdsDistinct(ps)
    requires i < |ps| && ps[i].id == q.id
    requires !IsBlank(q.name) && !HasNameClash(ps, q)
    ensures SaveSpec(ps, Some(q)).Success?
    ensures var r := SaveSpec(ps, Some(q)).value;
      |r| == |ps| && r[i] == q && forall k :: 0 <= k < |ps| && k != i ==> r[k] == ps[k]
  {
    var j := IndexOfObject(ps, q.id).value;
    assert ps[j].id == ps[i].id;
  }

  /** Saving an object not yet in the list appends it. */
  lemma SaveAppendsNewObject(ps: seq<ConnectionProfile>, q: ConnectionProfile)
    requires forall k :: 0 <= k < |ps| ==> ps[k].id != q.id
    requires !IsBlank(q.name) && !HasNameClash(ps, q)
    ensures SaveSpec(ps, Some(q)) == Success(ps + [q])
    ensures |SaveSpec(ps, Some(q)).value| == |ps| + 1
  {
  }

  /** A successful save keeps the names pairwise distinct ignoring case. */
  lemma SaveKeepsNamesDistinct(ps: seq<ConnectionProfile>, p: Option<ConnectionProfile>)
    requires IdsDistinct(ps) && NamesDistinct(ps)
    requires SaveSpec(ps, p).Success?
    ensures NamesDistinct(SaveSpec(ps, p).value)
  {
    var q := p.value;
    var r := SaveSpec(ps, p).value;
    assert !HasNameClash(ps, q);
    assert forall k :: 0 <= k < |ps| && ps[k].id != q.id ==> !EqualsIgnoreCase(ps[k].name, q.name) by {
      forall k | 0 <= k < |ps| && ps[k].id != q.id
        ensures !EqualsIgnoreCase(ps[k].name, q.name)
      {
        assert !Clashes(ps[k], q);
      }
    }
    match IndexOfObject(ps, q.id)
    case Some(i) =>
      assert r == ps[i := q];
      forall a, b | 0 <= a < b < |r|
        ensures !EqualsIgnoreCase(r[a].name, r[b].name)
      {
        if a == i {
          assert r[b] == ps[b];
        } else if b == i {
          assert r[a] == ps[a];
        }
      }
    case None =>
      assert r == ps + [q];
      forall a, b | 0 <= a < b < |r|
        ensures !EqualsIgnoreCase(r[a].name, r[b].name)
      {
        if b == |ps| {
          assert r[a] == ps[a];
        }
      }
  }

  /** A successful save keeps every object in the list at most once. */
  lemma SaveKeepsIdsDistinct(ps: seq<ConnectionProfile>, p: Option<ConnectionProfile>)
    requires IdsDistinct(ps)
    requires SaveSpec(ps, p).Success?
    ensures IdsDistinct(SaveSpec(ps, p).value)
  {
  }

  /** After a successful save, looking the name up finds the saved profile. */
  lemma SaveThenLookup(ps: seq<ConnectionProfile>, p: Option<ConnectionProfile>)
    requires IdsDistinct(ps) && NamesDistinct(ps)
    requires SaveSpec(ps, p).Success?
    ensures Lookup(SaveSpec(ps, p).value, p.value.name) == p
  {
    SaveKeepsNamesDistinct(ps, p);
    var q := p.value;
    var r := SaveSpec(ps, p).value;
    var k := if IndexOfObject(ps, q.id).Some? then IndexOfObject(ps, q.id).value else |ps|;
    assert r[k] == q;
    assert FindByName(r, q.name).Some?;
  }

  /** Deleting a blank name throws; deleting an unknown name changes nothing. */
  lemma DeleteErrorsAndNoop(ps: seq<ConnectionProfile>, name: string)
    ensures IsBlank(name) ==> DeleteSpec(ps, name) == Failure(Argument(EmptyNameMessage, "name"))
    ensures !IsBlank(name) && Lookup(ps, name).None? ==> DeleteSpec(ps, name) == Success(ps)
  {
  }

  /** A delete that finds the name removes exactly one profile, the first match, keeping the order of the rest. */
  lemma DeleteRemovesFirstMatch(ps: seq<ConnectionProfile>, name: string)
    requires !IsBlank(name) && Lookup(ps, name).Some?
    ensures var r := DeleteSpec(ps, name).value; var i := FindByName(ps, name).value;
      |r| == |ps| - 1 && r == ps[..i] + ps[i + 1..] && Lookup(ps, name) == Some(ps[i])
  {
  }

  /** With distinct names, after a delete no profile of that name is left. */
  lemma {:induction false} DeleteThenLookupFails(ps: seq<ConnectionProfile>, name: string)
    requires NamesDistinct(ps)
    requires !IsBlank(name)
    ensures Lookup(DeleteSpec(ps, name).value, name).None?
  {
    match FindByName(ps, name)
    case None =>
    case Some(i) =>
      var r := DeleteSpec(ps, name).value;
      forall k | 0 <= k < |r|
        ensures !EqualsIgnoreCase(r[k].name, name)
      {
        if k < i {
          assert r[k] == ps[k];
        } else {
          assert r[k] == ps[k + 1];
          assert !EqualsIgnoreCase(ps[i].name, ps[k + 1].name);
        }
      }
  }

  /** A delete keeps the names distinct, and doing it twice is the same as doing it once. */
  lemma DeleteIdempotent(ps: seq<ConnectionProfile>, name: string)
    requires NamesDistinct(ps)
    requires !IsBlank(name)
    ensures NamesDistinct(DeleteSpec(ps, name).value)
    ensures DeleteSpec(DeleteSpec(ps, name).value, name) == DeleteSpec(ps, name)
  {
    DeleteThenLookupFails(ps, name);
    var r := DeleteSpec(ps, name).value;
    match FindByName(ps, name)
    case None =>
    case Some(i) =>
      forall a, b | 0 <= a < b < |r|
        ensures !EqualsIgnoreCase(r[a].name, r[b].name)
      {
        var a', b' := if a < i then a else a + 1, if b < i then b else b + 1;
        assert r[a] == ps[a'] && r[b] == ps[b'];
      }
  }

  class ProfileManager {
    /** `_profiles`. */
    var profiles: seq<ConnectionProfile>
    /** The list as last written to connection_profiles.json. */
    var persisted: seq<ConnectionProfile>
    /** Number of `SaveToFile` calls. */
    var writeCount: nat

    ghost predicate Valid()
      reads this
    {
      IdsDistinct(profiles)
    }

    /** Loads the file: its deserialised list, or an empty list when it is missing or unreadable. */
    constructor (stored: Option<seq<ConnectionProfile>>)
      requires stored.Some? ==> IdsDistinct(stored.value)
      ensures Valid()
      ensures profiles == (if stored.Some? then stored.value else [])
      ensures persisted == profiles && writeCount == 0
    {
      profiles := if stored.Some? then stored.value else [];
      persisted := profiles;
      writeCount := 0;
    }

    method GetAllProfiles() returns (r: seq<ConnectionProfile>)
      ensures r == profiles
    {
      r := profiles;
    }

    method GetProfile(name: string) returns (r: Option<ConnectionProfile>)
      ensures r == Lookup(profiles, name)
    {
      var i := 0;
      while i < |profiles|
        invariant 0 <= i <= |profiles|
        invariant forall k :: 0 <= k < i ==> !EqualsIgnoreCase(profiles[k].name, name)
      {
        if EqualsIgnoreCase(profiles[i].name, name) {
          return Some(profiles[i]);
        }
        i := i + 1;
      }
      return None;
    }

    method SaveToFile(writeError: Option<string>) returns (o: Outcome)
      modifies this
      ensures profiles == old(profiles) && writeCount == old(writeCount) + 1
      ensures writeError.Some? ==> o == Fail(IOFailure(writeError.value)) && persisted == old(persisted)
      ensures writeError.None? ==> o == Pass && persisted == profiles
    {
      writeCount := writeCount + 1;
      if writeError.Some? {
        o := Fail(IOFailure(writeError.value));
      } else {
        persisted := profiles;
        o := Pass;
      }
    }

    /**
     * Validates, then replaces or appends, then writes the file. A failed write
     * is rethrown after the list has already changed.
     */
    method SaveProfile(p: Option<ConnectionProfile>, writeError: Option<string>) returns (o: Outcome)
      requires Valid()
      modifies this
      ensures Valid()
      ensures SaveSpec(old(profiles), p).Failure? ==>
        o == Fail(SaveSpec(old(profiles), p).error) && profiles == old(profiles)
        && persisted == old(persisted) && writeCount == old(writeCount)
      ensures SaveSpec(old(profiles), p).Success? ==>
        profiles == SaveSpec(old(profiles), p).value && writeCount == old(writeCount) + 1
        && (if writeError.Some? then o == Fail(IOFailure(writeError.value)) && persisted == old(persisted)
            else o == Pass && persisted == profiles)
    {
      if p.None? {
        return Fail(ArgumentNull("profile"));
      }
      var q := p.value;
      if IsBlank(q.name) {
        return Fail(Argument(EmptyNameMessage, ""));
      }
      var k := 0;
      while k < |profiles|
        invariant 0 <= k <= |profiles|
        invariant forall j :: 0 <= j < k ==> !Clashes(profiles[j], q)
      {
        if Clashes(profiles[k], q) {
          return Fail(InvalidOperation("Profile with name '" + q.name + "' already exists"));
        }
        k := k + 1;
      }
      var index := 0;
      while index < |profiles| && profiles[index].id != q.id
        invariant 0 <= index <= |profiles|
        invariant forall j :: 0 <= j < index ==> profiles[j].id != q.id
      {
        index := index + 1;
      }
      if index < |profiles| {
        profiles := profiles[index := q];
      } else {
        profiles := profiles + [q];
      }
      o := SaveToFile(writeError);
    }

    /** Removes the first profile named `name` ignoring case and writes the file; an unknown name only logs. */
    method DeleteProfile(name: string, writeError: Option<string>) returns (o: Outcome)
      requires Valid()
      modifies this
      ensures Valid()
      ensures o == DeleteOutcome(old(profiles), name, writeError)
      ensures DeleteSpec(old(profiles), name).Failure? ==>
        profiles == old(profiles) && persisted == old(persisted) && writeCount == old(writeCount)
      ensures DeleteSpec(old(profiles), name).Success? ==> profiles == DeleteSpec(old(profiles), name).value
      ensures !IsBlank(name) && Lookup(old(profiles), name).None? ==>
        persisted == old(persisted) && writeCount == old(writeCount)
      ensures !IsBlank(name) && Lookup(old(profiles), name).Some? ==>
        writeCount == old(writeCount) + 1
        && persisted == (if writeError.Some? then old(persisted) else profiles)
    {
      if IsBlank(name) {
        return Fail(Argument(EmptyNameMessage, "name"));
      }
      var i := 0;
      while i < |profiles| && !EqualsIgnoreCase(profiles[i].name, name)
        invariant 0 <= i <= |profiles|
        invariant forall k :: 0 <= k < i ==> !EqualsIgnoreCase(profiles[k].name, name)
      {
        i := i + 1;
      }
      if i < |profiles| {
        // List.Remove drops the first element that is this object; no earlier
        // element can be, since it would carry the same name.
        assert FindByName(profiles, name) == Some(i);
        profiles := profiles[..i] + profiles[i + 1..];
        o := SaveToFile(writeError);
      } else {
        o := Pass;
      }
    }
  }
}
