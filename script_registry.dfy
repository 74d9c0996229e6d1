// PowerShellScriptManager (Services/PowerShellScriptManager.cs): a dictionary
// from script name to the full path of an existing .ps1 file, filled one name
// at a time or by a scan of a scripts folder in which the first file of a name
// wins.
module ScriptRegistry {
  import opened Wrappers
  import opened Paths

  /**
   * The file system as the registry sees it: the application's base directory,
   * path resolution, existence tests and the recursive "*.ps1" listing.
   */
  datatype FileSystem = FileSystem(
    baseDirectory: string,
    fullPath: string -> string,
    relativePath: (string, string) -> string,
    fileExists: string -> bool,
    directoryExists: string -> bool,
    scriptFiles: string -> seq<string>)

  /** The dictionary after an operation, and whether the operation threw. */
  datatype Registration = Registration(scripts: map<string, string>, outcome: Outcome)

  function ScriptFullPath(fs: FileSystem, relative: string): string
  {
    fs.fullPath(Combine(fs.baseDirectory, relative))
  }

  /** `RegisterScript(name, relative)`. */
  function RegisterSpec(m: map<string, string>, name: string, relative: string, fs: FileSystem): Registration
  {
    var full := ScriptFullPath(fs, relative);
    if !fs.fileExists(full) then Registration(m, Fail(FileNotFound("PowerShell script not found: " + full)))
    else Registration(m[name := full], Pass)
  }

  /** The scan loop of `RegisterAllScripts` over `files`, from the dictionary `m`. */
  function RegisterEach(m: map<string, string>, files: seq<string>, fs: FileSystem): Registration
    decreases |files|
  {
    if files == [] then Registration(m, Pass)
    else
      var name := GetFileNameWithoutExtension(files[0]);
      if name in m then RegisterEach(m, files[1..], fs)
      else
        var r := RegisterSpec(m, name, fs.relativePath(fs.baseDirectory, files[0]), fs);
        if r.outcome.Fail? then r else RegisterEach(r.scripts, files[1..], fs)
  }

  /** `RegisterAllScripts(rootRelative)`. */
  function RegisterAllSpec(m: map<string, string>, rootRelative: string, fs: FileSystem): Registration
  {
    var root := ScriptFullPath(fs, rootRelative);
    if !fs.directoryExists(root) then Registration(m, Fail(DirectoryNotFound("Scripts root folder not found: " + root)))
    else RegisterEach(m, fs.scriptFiles(root), fs)
  }

  /** `GetScriptPath(name)`. */
  function ScriptPath(m: map<string, string>, name: string): (r: Result<string>)
    ensures r.Success? <==> name in m
    ensures r.Success? ==> r.value == m[name]
    ensures r.Failure? ==> r.error == KeyNotFound("Script '" + name + "' is not registered")
  {
    if name in m then Success(m[name]) else Failure(KeyNotFound("Script '" + name + "' is not registered"))
  }

  /** A script is registered exactly when its file exists; then looking it up gives its full path. */
  lemma RegisterThenLookup(m: map<string, string>, name: string, relative: string, fs: FileSystem)
    ensures var r := RegisterSpec(m, name, relative, fs);
      (r.outcome.Pass? <==> fs.fileExists(ScriptFullPath(fs, relative)))
      && (r.outcome.Pass? ==> ScriptPath(r.scripts, name) == Success(ScriptFullPath(fs, relative)))
      && (r.outcome.Fail? ==> r.scripts == m && r.outcome.error.FileNotFound?)
  {
  }

  /** Registering `name` overwrites that entry only. */
  lemma RegisterKeepsOtherNames(m: map<string, string>, name: string, relative: string, fs: FileSystem, other: string)
    requires other != name
    ensures ScriptPath(RegisterSpec(m, name, relative, fs).scripts, other) == ScriptPath(m, other)
  {
  }

  /**
   * First wins: whatever the scan meets, and wherever it stops, every name that
   * was registered before keeps its path.
   */
  lemma {:induction false} RegisterEachKeepsEarlier(m: map<string, string>, files: seq<string>, fs: FileSystem)
    ensures var r := RegisterEach(m, files, fs).scripts;
      forall n :: n in m ==> n in r && r[n] == m[n]
    decreases |files|
  {
    if files != [] {
      var name := GetFileNameWithoutExtension(files[0]);
      if name in m {
        RegisterEachKeepsEarlier(m, files[1..], fs);
      } else {
        var r := RegisterSpec(m, name, fs.relativePath(fs.baseDirectory, files[0]), fs);
        if r.outcome.Pass? {
          RegisterEachKeepsEarlier(r.scripts, files[1..], fs);
          assert r.scripts == m[name := ScriptFullPath(fs, fs.relativePath(fs.baseDirectory, files[0]))];
          assert RegisterEach(m, files, fs) == RegisterEach(r.scripts, files[1..], fs);
        }
      }
    }
  }

  /** `files[k]` is the first listed file whose stem is `n`. */
  predicate FirstWithStem(files: seq<string>, k: int, n: string)
  {
    0 <= k < |files| && GetFileNameWithoutExtension(files[k]) == n
    && forall j :: 0 <= j < k ==> GetFileNameWithoutExtension(files[j]) != n
  }

  /**
   * First wins within the listing too: a name that was not registered before
   * the scan and ends up registered holds the path of the first listed file
   * with that stem.
   */
  lemma {:induction false} RegisterEachFirstWins(m: map<string, string>, files: seq<string>, fs: FileSystem, n: string, k: int)
    requires n !in m && n in RegisterEach(m, files, fs).scripts
    requires FirstWithStem(files, k, n)
    ensures RegisterEach(m, files, fs).scripts[n] == ScriptFullPath(fs, fs.relativePath(fs.baseDirectory, files[k]))
    decreases |files|
  {
    var name := GetFileNameWithoutExtension(files[0]);
    var rest := files[1..];
    if name in m {
      assert k != 0;
      assert FirstWithStem(rest, k - 1, n) by {
        forall j | 0 <= j < k - 1
          ensures GetFileNameWithoutExtension(rest[j]) != n
        {
          assert rest[j] == files[j + 1];
        }
      }
      RegisterEachFirstWins(m, rest, fs, n, k - 1);
    } else {
      var r := RegisterSpec(m, name, fs.relativePath(fs.baseDirectory, files[0]), fs);
      assert r.outcome.Pass?;
      assert RegisterEach(m, files, fs) == RegisterEach(r.scripts, rest, fs);
      if name == n {
        assert k == 0;
        assert r.scripts == m[name := ScriptFullPath(fs, fs.relativePath(fs.baseDirectory, files[0]))];
        RegisterEachKeepsEarlier(r.scripts, rest, fs);
        assert n in r.scripts && r.scripts[n] == ScriptFullPath(fs, fs.relativePath(fs.baseDirectory, files[k]));
        assert RegisterEach(r.scripts, rest, fs).scripts[n] == r.scripts[n];
      } else {
        assert k != 0;
        assert FirstWithStem(rest, k - 1, n) by {
          forall j | 0 <= j < k - 1
            ensures GetFileNameWithoutExtension(rest[j]) != n
          {
            assert rest[j] == files[j + 1];
          }
        }
        RegisterEachFirstWins(r.scripts, rest, fs, n, k - 1);
      }
    }
  }

  /** Scanning two listings one after the other is scanning them joined, stopping at the first throw. */
  lemma {:induction false} RegisterEachAppend(m: map<string, string>, a: seq<string>, b: seq<string>, fs: FileSystem)
    ensures RegisterEach(m, a + b, fs) ==
      if RegisterEach(m, a, fs).outcome.Pass? then RegisterEach(RegisterEach(m, a, fs).scripts, b, fs)
      else RegisterEach(m, a, fs)
    decreases |a|
  {
    if a == [] {
      assert a + b == b;
    } else {
      assert (a + b)[0] == a[0] && (a + b)[1..] == a[1..] + b;
      var name := GetFileNameWithoutExtension(a[0]);
      if name in m {
        RegisterEachAppend(m, a[1..], b, fs);
      } else {
        var r := RegisterSpec(m, name, fs.relativePath(fs.baseDirectory, a[0]), fs);
        if r.outcome.Pass? {
          RegisterEachAppend(r.scripts, a[1..], b, fs);
        }
      }
    }
  }

  /**
   * What the scan registered before a file that throws stays registered:
   * every entry of a scan over a prefix that did not throw survives the whole
   * scan, whether it completes or throws later.
   */
  lemma RegisterEachKeepsPrefix(m: map<string, string>, files: seq<string>, k: nat, fs: FileSystem)
    requires k <= |files| && RegisterEach(m, files[..k], fs).outcome.Pass?
    ensures var before := RegisterEach(m, files[..k], fs).scripts;
      var r := RegisterEach(m, files, fs).scripts;
      forall n :: n in before ==> n in r && r[n] == before[n]
  {
    assert files == files[..k] + files[k..];
    RegisterEachAppend(m, files[..k], files[k..], fs);
    RegisterEachKeepsEarlier(RegisterEach(m, files[..k], fs).scripts, files[k..], fs);
  }

  /** The scan adds no name other than the stem of a listed file. */
  lemma {:induction false} RegisterEachAddsOnlyStems(m: map<string, string>, files: seq<string>, fs: FileSystem)
    ensures forall n :: n in RegisterEach(m, files, fs).scripts ==>
      n in m || exists k :: 0 <= k < |files| && GetFileNameWithoutExtension(files[k]) == n
    decreases |files|
  {
    if files != [] {
      var name := GetFileNameWithoutExtension(files[0]);
      var rest := files[1..];
      if name in m {
        RegisterEachAddsOnlyStems(m, rest, fs);
        assert forall k :: 0 <= k < |rest| ==> rest[k] == files[k + 1];
      } else {
        var r := RegisterSpec(m, name, fs.relativePath(fs.baseDirectory, files[0]), fs);
        if r.outcome.Pass? {
          RegisterEachAddsOnlyStems(r.scripts, rest, fs);
          assert forall k :: 0 <= k < |rest| ==> rest[k] == files[k + 1];
        }
      }
    }
  }

  /** A scan that does not throw leaves every listed file's stem registered. */
  lemma {:induction false} RegisterEachSuccessCoversAll(m: map<string, string>, files: seq<string>, fs: FileSystem)
    requires RegisterEach(m, files, fs).outcome.Pass?
    ensures forall k :: 0 <= k < |files| ==> GetFileNameWithoutExtension(files[k]) in RegisterEach(m, files, fs).scripts
    decreases |files|
  {
    if files != [] {
      var name := GetFileNameWithoutExtension(files[0]);
      var rest := files[1..];
      var next := if name in m then m
        else RegisterSpec(m, name, fs.relativePath(fs.baseDirectory, files[0]), fs).scripts;
      RegisterEachSuccessCoversAll(next, rest, fs);
      RegisterEachKeepsEarlier(next, rest, fs);
      assert forall k :: 1 <= k < |files| ==> files[k] == rest[k - 1];
    }
  }

  /** A missing scripts folder throws and registers nothing. */
  lemma MissingRootRegistersNothing(m: map<string, string>, rootRelative: string, fs: FileSystem)
    requires !fs.directoryExists(ScriptFullPath(fs, rootRelative))
    ensures RegisterAllSpec(m, rootRelative, fs).scripts == m
    ensures RegisterAllSpec(m, rootRelative, fs).outcome.error.DirectoryNotFound?
  {
  }

  class PowerShellScriptManager {
    /** `_scripts`, compared ordinally. */
    var scripts: map<string, string>

    constructor ()
      ensures scripts == map[]
    {
      scripts := map[];
    }

    method RegisterScript(scriptName: string, relativeScriptPath: string, fs: FileSystem) returns (o: Outcome)
      modifies this
      ensures Registration(scripts, o) == RegisterSpec(old(scripts), scriptName, relativeScriptPath, fs)
    {
      var fullPath := ScriptFullPath(fs, relativeScriptPath);
      if !fs.fileExists(fullPath) {
        return Fail(FileNotFound("PowerShell script not found: " + fullPath));
      }
      scripts := scripts[scriptName := fullPath];
      o := Pass;
    }

    method GetScriptPath(scriptName: string) returns (r: Result<string>)
      ensures r == ScriptPath(scripts, scriptName)
    {
      if scriptName in scripts {
        return Success(scripts[scriptName]);
      }
      return Failure(KeyNotFound("Script '" + scriptName + "' is not registered"));
    }

    /** Registers every .ps1 below the scripts folder under its file stem, skipping names already taken. */
    method RegisterAllScripts(scriptsRootRelativePath: string, fs: FileSystem) returns (o: Outcome)
      modifies this
      ensures Registration(scripts, o) == RegisterAllSpec(old(scripts), scriptsRootRelativePath, fs)
    {
      var scriptsRoot := ScriptFullPath(fs, scriptsRootRelativePath);
      if !fs.directoryExists(scriptsRoot) {
        return Fail(DirectoryNotFound("Scripts root folder not found: " + scriptsRoot));
      }
      var files := fs.scriptFiles(scriptsRoot);
      var i := 0;
      while i < |files|
        invariant 0 <= i <= |files|
        invariant RegisterEach(scripts, files[i..], fs) == RegisterEach(old(scripts), files, fs)
      {
        var relativePath := fs.relativePath(fs.baseDirectory, files[i]);
        var scriptName := GetFileNameWithoutExtension(files[i]);
        assert files[i..][1..] == files[i + 1..];
        if scriptName in scripts {
          i := i + 1;
          continue;
        }
        o := RegisterScript(scriptName, relativePath, fs);
        if o.Fail? {
          return;
        }
        i := i + 1;
      }
      o := Pass;
    }
  }
}
