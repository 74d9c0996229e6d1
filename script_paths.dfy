// The second PowerShellScriptManager (Services/PowerShellManager.cs): a
// dictionary from script name to a path relative to the base directory,
// overwritten without checks and joined to the base directory on lookup.
module ScriptPaths {
  import opened Wrappers
  import opened Paths

  /** `GetScriptPath(name)` over the dictionary `m`. */
  function ScriptPath(m: map<string, string>, baseDirectory: string, name: string): (r: Result<string>)
    ensures r.Success? <==> name in m
    ensures r.Success? ==> r.value == Combine(baseDirectory, m[name])
    ensures r.Failure? ==> r.error == FileNotFound("PowerShell script '" + name + "' not registered")
  {
    if name in m then Success(Combine(baseDirectory, m[name]))
    else Failure(FileNotFound("PowerShell script '" + name + "' not registered"))
  }

  /** Registering a name makes it resolve to its path under the base directory, and no other lookup changes. */
  lemma RegisterThenLookup(m: map<string, string>, baseDirectory: string, a: string, path: string, b: string)
    ensures ScriptPath(m[a := path], baseDirectory, a) == Success(Combine(baseDirectory, path))
    ensures b != a ==> ScriptPath(m[a := path], baseDirectory, b) == ScriptPath(m, baseDirectory, b)
  {
  }

  class PowerShellScriptManager {
    var scripts: map<string, string>

    constructor ()
      ensures scripts == map[]
    {
      scripts := map[];
    }

    /** Stores or overwrites the entry, whatever the path. */
    method RegisterScript(scriptName: string, scriptPath: string)
      modifies this
      ensures scripts == old(scripts)[scriptName := scriptPath]
    {
      scripts := scripts[scriptName := scriptPath];
    }

    method GetScriptPath(scriptName: string, baseDirectory: string) returns (r: Result<string>)
      ensures r == ScriptPath(scripts, baseDirectory, scriptName)
    {
      if scriptName in scripts {
        return Success(Combine(baseDirectory, scripts[scriptName]));
      }
      return Failure(FileNotFound("PowerShell script '" + scriptName + "' not registered"));
    }
  }
}
