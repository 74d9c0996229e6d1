// The Windows flavour of System.IO.Path that the script registries and the
// backup code use: Combine, GetFileName, GetFileNameWithoutExtension and
// GetExtension. Resolving a path against the disk (GetFullPath, GetRelativePath)
// is not string arithmetic and belongs to the file-system parameter of each
// caller.
module Paths {

  predicate IsDirectorySeparator(c: char)
  {
    c == '\\' || c == '/'
  }

  predicate IsDriveLetter(c: char)
  {
    'A' <= c <= 'Z' || 'a' <= c <= 'z'
  }

  predicate HasDrivePrefix(p: string)
  {
    |p| >= 2 && IsDriveLetter(p[0]) && p[1] == ':'
  }

  /** `Path.IsPathRooted`: starts with a separator or with a drive such as "C:". */
  predicate IsPathRooted(p: string)
  {
    (|p| >= 1 && IsDirectorySeparator(p[0])) || HasDrivePrefix(p)
  }

  /** `Path.Combine(a, b)` for two non-null arguments. */
  function Combine(a: string, b: string): string
  {
    if a == "" then b
    else if b == "" then a
    else if IsPathRooted(b) then b
    else if IsDirectorySeparator(a[|a| - 1]) || IsDirectorySeparator(b[0]) then a + b
    else a + "\\" + b
  }

  /** The combined path ends with `b`; it starts with `a` unless `b` is rooted, and then it is `b`. */
  lemma CombineShape(a: string, b: string)
    ensures var r := Combine(a, b);
      && |b| <= |r| && r[|r| - |b|..] == b
      && (a != "" && !IsPathRooted(b) ==> a <= r)
      && (b != "" && IsPathRooted(b) ==> r == b)
  {
    var r := Combine(a, b);
    if a != "" && b != "" && !IsPathRooted(b) {
      if IsDirectorySeparator(a[|a| - 1]) || IsDirectorySeparator(b[0]) {
        assert r == a + b;
      } else {
        assert r == a + "\\" + b;
      }
      assert r[..|a|] == a;
    }
  }

  /** The last index in `s` whose character satisfies `p`, or -1 (`LastIndexOf`). */
  function LastIndexWhere(s: string, p: char -> bool): (r: int)
    ensures -1 <= r < |s|
    ensures r >= 0 ==> p(s[r])
    ensures forall k :: r < k < |s| ==> !p(s[k])
    decreases |s|
  {
    if s == [] then -1
    else if p(s[|s| - 1]) then |s| - 1
    else LastIndexWhere(s[..|s| - 1], p)
  }

  function FileNameStart(p: string): (i: nat)
    ensures i <= |p|
    ensures forall k :: i <= k < |p| ==> !IsDirectorySeparator(p[k])
  {
    var sep := LastIndexWhere(p, IsDirectorySeparator);
    if sep >= 0 then sep + 1
    else if HasDrivePrefix(p) then 2
    else 0
  }

  /** `Path.GetFileName`: the part after the last separator (or after the drive). */
  function GetFileName(p: string): (r: string)
    ensures |r| <= |p| && r == p[|p| - |r|..]
    ensures forall k :: 0 <= k < |r| ==> !IsDirectorySeparator(r[k])
  {
    p[FileNameStart(p)..]
  }

  predicate IsDot(c: char)
  {
    c == '.'
  }

  /** `Path.GetFileNameWithoutExtension`: the file name up to its last '.'. */
  function GetFileNameWithoutExtension(p: string): string
  {
    var name := GetFileName(p);
    var dot := LastIndexWhere(name, IsDot);
    if dot < 0 then name else name[..dot]
  }

  /** `Path.GetExtension`: the file name from its last '.', or "" when there is none or it is the last character. */
  function GetExtension(p: string): string
  {
    var name := GetFileName(p);
    var dot := LastIndexWhere(name, IsDot);
    if dot < 0 || dot == |name| - 1 then "" else name[dot..]
  }

  /** The name without extension is the file name cut at its last '.', or all of it when it has none. */
  lemma StemShape(p: string)
    ensures var r := GetFileNameWithoutExtension(p);
      && r <= GetFileName(p)
      && ('.' in GetFileName(p) ==>
            |r| < |GetFileName(p)| && GetFileName(p)[|r|] == '.' && '.' !in GetFileName(p)[|r| + 1..])
      && ('.' !in GetFileName(p) ==> r == GetFileName(p))
  {
    var name := GetFileName(p);
    var dot := LastIndexWhere(name, IsDot);
    if dot >= 0 {
      assert '.' !in name[dot + 1..] by {
        forall k | dot + 1 <= k < |name|
          ensures name[k] != '.'
        {
          assert !IsDot(name[k]);
        }
      }
    } else {
      assert '.' !in name by {
        forall k | 0 <= k < |name|
          ensures name[k] != '.'
        {
          assert !IsDot(name[k]);
        }
      }
    }
  }

  /** A non-empty extension is a '.' and what follows the last '.', at the end of the file name. */
  lemma ExtensionShape(p: string)
    ensures var r := GetExtension(p);
      r != "" ==>
        && |r| >= 2 && r[0] == '.' && '.' !in r[1..]
        && |r| <= |GetFileName(p)| && r == GetFileName(p)[|GetFileName(p)| - |r|..]
  {
    var name := GetFileName(p);
    var dot := LastIndexWhere(name, IsDot);
    var r := GetExtension(p);
    if r != "" {
      assert r == name[dot..];
      assert '.' !in r[1..] by {
        forall k | 0 <= k < |r[1..]|
          ensures r[1..][k] != '.'
        {
          assert r[1..][k] == name[dot + 1 + k];
        }
      }
    }
  }

  /** A file name with an extension is its stem followed by that extension. */
  lemma StemAndExtension(p: string)
    requires GetExtension(p) != ""
    ensures GetFileNameWithoutExtension(p) + GetExtension(p) == GetFileName(p)
  {
    var name := GetFileName(p);
    var dot := LastIndexWhere(name, IsDot);
    assert name[..dot] + name[dot..] == name;
  }

  /** Combining a directory with a plain file name and taking the file name back gives that name. */
  lemma FileNameOfCombine(dir: string, name: string)
    requires name != "" && !HasDrivePrefix(name)
    requires forall k :: 0 <= k < |name| ==> !IsDirectorySeparator(name[k])
    ensures GetFileName(Combine(dir, name)) == name
  {
    var r := Combine(dir, name);
    var sep := LastIndexWhere(r, IsDirectorySeparator);
    if dir == "" {
      assert r == name;
      assert sep < 0;
    } else {
      var j := |r| - |name| - 1;
      if IsDirectorySeparator(dir[|dir| - 1]) {
        assert r == dir + name;
        assert r[j] == dir[|dir| - 1];
      } else {
        assert r == dir + "\\" + name;
        assert r[j] == '\\';
      }
      assert r[j + 1..] == name;
      assert sep == j;
    }
  }

  /** A file named `stem + ext` (one extension) combined into a folder has `stem` as its name without extension. */
  lemma StemOfCombine(dir: string, stem: string, ext: string)
    requires stem != "" && !HasDrivePrefix(stem + ext)
    requires |ext| >= 1 && ext[0] == '.' && '.' !in ext[1..]
    requires forall k :: 0 <= k < |stem + ext| ==> !IsDirectorySeparator((stem + ext)[k])
    ensures GetFileNameWithoutExtension(Combine(dir, stem + ext)) == stem
  {
    var name := stem + ext;
    FileNameOfCombine(dir, name);
    var dot := LastIndexWhere(name, IsDot);
    assert IsDot(name[|stem|]);
    forall k | |stem| < k < |name|
      ensures !IsDot(name[k])
    {
      assert name[k] == ext[1..][k - |stem| - 1];
    }
    assert dot == |stem|;
    assert name[..dot] == stem;
  }
}
