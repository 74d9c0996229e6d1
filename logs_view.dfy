// The log viewer: the list of log files (what the log folder holds, plus the
// five default logs created when missing) and the line filters applied to the
// selected file (level tag, minimum date, search text, then the last 1000
// lines).
module LogsView {
  import opened Wrappers
  import opened Text
  import opened Models
  import opened Sequences
  import opened Sorting
  import Paths

  const AllLevels := "All Levels"
  const AllDates := "All Dates"
  const Today := "Today"
  const Last7Days := "Last 7 Days"
  const Last30Days := "Last 30 Days"

  /** At most this many lines are shown. */
  const MaxShownLines := 1000

  /** The log files ensured to exist, in the order they are checked. */
  const DefaultLogFiles := ["Application.log", "Migration.log", "PowerShell.log", "Error.log", "Debug.log"]

  // ---------------------------------------------------------------------------
  // The line filters
  // ---------------------------------------------------------------------------

  /** The tag a line of the given level carries, e.g. "[ERROR]". */
  function LevelTag(level: string): string
  {
    "[" + ToUpper(level) + "]"
  }

  lemma ToUpperIdempotent(s: string)
    ensures ToUpper(ToUpper(s)) == ToUpper(s)
  {
  }

  /** Upper-casing the level is immaterial: the tag search ignores case anyway. */
  lemma LevelTagIgnoresCase(line: string, level: string)
    ensures ContainsIgnoreCase(line, LevelTag(level)) <==> ContainsIgnoreCase(line, "[" + level + "]")
  {
    var a := LevelTag(level);
    var b := "[" + level + "]";
    assert ToUpper(a) == ToUpper(b) by {
      ToUpperIdempotent(level);
      assert |ToUpper(a)| == |ToUpper(b)|;
      forall i | 0 <= i < |a|
        ensures ToUpper(a)[i] == ToUpper(b)[i]
      {
        if 0 < i < |a| - 1 {
          assert a[i] == ToUpper(level)[i - 1] && b[i] == level[i - 1];
        }
      }
    }
  }

  /** `GetFilterDate`: the earliest day a line may carry, for the three filters that name one. */
  function GetFilterDate(dateFilter: string, today: TimeStamp): (r: Result<Option<TimeStamp>>)
    ensures dateFilter != Today && dateFilter != Last7Days && dateFilter != Last30Days ==> r == Success(None)
    ensures dateFilter == Today ==> r == Success(Some(today))
    ensures dateFilter == Last7Days ==>
      (r.Success? <==> 7 * TicksPerDay <= today) && (r.Success? ==> r.value == Some(today - 7 * TicksPerDay))
    ensures dateFilter == Last30Days ==>
      (r.Success? <==> 30 * TicksPerDay <= today) && (r.Success? ==> r.value == Some(today - 30 * TicksPerDay))
  {
    match dateFilter
    case "Today" => Success(Some(today))
    case "Last 7 Days" => DaysBack(today, 7); SomeDate(AddDays(today, -7))
    case "Last 30 Days" => DaysBack(today, 30); SomeDate(AddDays(today, -30))
    case _ => Success(None)
  }

  function SomeDate(r: Result<TimeStamp>): Result<Option<TimeStamp>>
  {
    match r
    case Success(t) => Success(Some(t))
    case Failure(e) => Failure(e)
  }

  /** The selections the viewer filters by. */
  datatype LogFilter = LogFilter(level: string, dateFilter: string, searchText: string)

  const ClearedFilter := LogFilter(AllLevels, AllDates, "")

  /**
   * The date filter's cutoff, if one applies: none under "All Dates", and
   * otherwise whatever `GetFilterDate` yields (it may throw).
   */
  function Cutoff(f: LogFilter, today: TimeStamp): Result<Option<TimeStamp>>
  {
    if f.dateFilter != AllDates then GetFilterDate(f.dateFilter, today) else Success(None)
  }

  predicate LevelMatches(line: string, level: string)
  {
    level == AllLevels || ContainsIgnoreCase(line, LevelTag(level))
  }

  /** `lineDate` is the date a line carries, if it carries one the viewer can read. */
  predicate DateMatches(line: string, cutoff: Option<TimeStamp>, lineDate: string -> Option<TimeStamp>)
  {
    cutoff.None? || (lineDate(line).Some? && lineDate(line).value >= cutoff.value)
  }

  predicate SearchMatches(line: string, searchText: string)
  {
    IsBlank(searchText) || ContainsIgnoreCase(line, searchText)
  }

  /** The single-line test the three filters amount to. */
  predicate Passes(line: string, f: LogFilter, cutoff: Option<TimeStamp>, lineDate: string -> Option<TimeStamp>)
  {
    LevelMatches(line, f.level) && DateMatches(line, cutoff, lineDate) && SearchMatches(line, f.searchText)
  }

  /**
   * `ApplyFilters`: the level filter, then the date filter, then the search
   * filter, each applied only when its selection restricts anything, then the
   * last 1000 survivors.
   */
  function ApplyFilters(lines: seq<string>, f: LogFilter, today: TimeStamp, lineDate: string -> Option<TimeStamp>)
    : (r: Result<seq<string>>)
    ensures r.Success? <==> Cutoff(f, today).Success?
  {
    var byLevel :=
      if f.level != AllLevels then Where(lines, (l: string) => ContainsIgnoreCase(l, LevelTag(f.level)))
      else lines;
    var filterDate := if f.dateFilter != AllDates then GetFilterDate(f.dateFilter, today) else Success(None);
    match filterDate
    case Failure(e) => Failure(e)
    case Success(cutoff) =>
      var byDate :=
        if cutoff.Some? then Where(byLevel, (l: string) => lineDate(l).Some? && lineDate(l).value >= cutoff.value)
        else byLevel;
      var bySearch :=
        if !IsBlank(f.searchText) then Where(byDate, (l: string) => ContainsIgnoreCase(l, f.searchText))
        else byDate;
      Success(TakeLast(bySearch, MaxShownLines))
  }

  /** Each filter stage is a `Where` by its own test, whether it is skipped or not. */
  lemma LevelStage(lines: seq<string>, level: string)
    ensures (if level != AllLevels then Where(lines, (l: string) => ContainsIgnoreCase(l, LevelTag(level))) else lines)
      == Where(lines, (l: string) => LevelMatches(l, level))
  {
    var p := (l: string) => LevelMatches(l, level);
    if level == AllLevels {
      WhereAll(lines, p);
    } else {
      var q := (l: string) => ContainsIgnoreCase(l, LevelTag(level));
      WhereCongruent(lines, q, p);
    }
  }

  lemma DateStage(s: seq<string>, cutoff: Option<TimeStamp>, lineDate: string -> Option<TimeStamp>)
    ensures (if cutoff.Some? then Where(s, (l: string) => lineDate(l).Some? && lineDate(l).value >= cutoff.value) else s)
      == Where(s, (l: string) => DateMatches(l, cutoff, lineDate))
  {
    var p := (l: string) => DateMatches(l, cutoff, lineDate);
    if cutoff.None? {
      WhereAll(s, p);
    } else {
      var q := (l: string) => lineDate(l).Some? && lineDate(l).value >= cutoff.value;
      WhereCongruent(s, q, p);
    }
  }

  lemma SearchStage(s: seq<string>, searchText: string)
    ensures (if !IsBlank(searchText) then Where(s, (l: string) => ContainsIgnoreCase(l, searchText)) else s)
      == Where(s, (l: string) => SearchMatches(l, searchText))
  {
    var p := (l: string) => SearchMatches(l, searchText);
    if IsBlank(searchText) {
      WhereAll(s, p);
    } else {
      var q := (l: string) => ContainsIgnoreCase(l, searchText);
      WhereCongruent(s, q, p);
    }
  }

  /** The combined test as a function value, so that every use names the same predicate. */
  function PassesAll(f: LogFilter, cutoff: Option<TimeStamp>, lineDate: string -> Option<TimeStamp>): string -> bool
  {
    (l: string) => Passes(l, f, cutoff, lineDate)
  }

  /** The three stages together keep exactly the lines passing the combined test, then the last 1000. */
  lemma ApplyFiltersIsTakeLast(lines: seq<string>, f: LogFilter, today: TimeStamp, lineDate: string -> Option<TimeStamp>)
    requires Cutoff(f, today).Success?
    ensures ApplyFilters(lines, f, today, lineDate).value
      == TakeLast(Where(lines, PassesAll(f, Cutoff(f, today).value, lineDate)), MaxShownLines)
  {
    var cutoff := Cutoff(f, today).value;
    var pl := (l: string) => LevelMatches(l, f.level);
    var pd := (l: string) => DateMatches(l, cutoff, lineDate);
    var ps := (l: string) => SearchMatches(l, f.searchText);
    var pld := (l: string) => LevelMatches(l, f.level) && DateMatches(l, cutoff, lineDate);
    LevelStage(lines, f.level);
    var byLevel := Where(lines, pl);
    DateStage(byLevel, cutoff, lineDate);
    var byDate := Where(byLevel, pd);
    SearchStage(byDate, f.searchText);
    WhereWhere(lines, pl, pd, pld);
    WhereWhere(lines, pld, ps, PassesAll(f, cutoff, lineDate));
  }

  /** The last `n` survivors of `Where` keep the input's order. */
  lemma TakeLastOfWhereInOrder<T>(s: seq<T>, p: T -> bool, n: nat)
    ensures IsSubsequence(TakeLast(Where(s, p), n), s)
  {
    var w := Where(s, p);
    var r := TakeLast(w, n);
    WhereIsSubsequence(s, p);
    SuffixOfSubsequence(w, s, |w| - |r|);
    assert r == w[|w| - |r|..];
  }

  /** Each of the last `n` survivors of `Where` is in the input and passes. */
  lemma TakeLastOfWhereMember<T>(s: seq<T>, p: T -> bool, n: nat, x: T)
    requires x in TakeLast(Where(s, p), n)
    ensures x in s && p(x)
  {
    var w := Where(s, p);
    var k := |w| - |TakeLast(w, n)|;
    var j :| 0 <= j < |w[k..]| && w[k..][j] == x;
    assert w[k + j] == x;
    WhereMembers(s, p, x);
  }

  /** The last `n` survivors of `Where`: at most `n`, in order, all passing, and all of them when few pass. */
  lemma TakeLastOfWhere<T>(s: seq<T>, p: T -> bool, n: nat)
    ensures var r := TakeLast(Where(s, p), n);
      && |r| <= n
      && IsSubsequence(r, s)
      && (forall x :: x in r ==> x in s && p(x))
      && (|Where(s, p)| <= n ==> forall x :: x in s && p(x) ==> x in r)
  {
    TakeLastOfWhereInOrder(s, p, n);
    forall x | x in TakeLast(Where(s, p), n)
      ensures x in s && p(x)
    {
      TakeLastOfWhereMember(s, p, n, x);
    }
    if |Where(s, p)| <= n {
      forall x | x in s && p(x)
        ensures x in TakeLast(Where(s, p), n)
      {
        WhereMembers(s, p, x);
      }
    }
  }

  /**
   * The filtered view is the last 1000 of the lines that pass all three tests:
   * at most 1000 lines, each present in the file and passing, in file order,
   * and every passing line is shown whenever no more than 1000 pass.
   */
  lemma ApplyFiltersMeaning(lines: seq<string>, f: LogFilter, today: TimeStamp, lineDate: string -> Option<TimeStamp>)
    requires Cutoff(f, today).Success?
    ensures var cutoff := Cutoff(f, today).value;
      var r := ApplyFilters(lines, f, today, lineDate).value;
      && |r| <= MaxShownLines
      && IsSubsequence(r, lines)
      && (forall l :: l in r ==> l in lines && Passes(l, f, cutoff, lineDate))
      && (|Where(lines, PassesAll(f, cutoff, lineDate))| <= MaxShownLines ==>
            forall l :: l in lines && Passes(l, f, cutoff, lineDate) ==> l in r)
  {
    ApplyFiltersIsTakeLast(lines, f, today, lineDate);
    TakeLastOfWhere(lines, PassesAll(f, Cutoff(f, today).value, lineDate), MaxShownLines);
  }

  /** With the filters cleared the viewer shows the file's last 1000 lines. */
  lemma ClearedFilterShowsTail(lines: seq<string>, today: TimeStamp, lineDate: string -> Option<TimeStamp>)
    ensures ApplyFilters(lines, ClearedFilter, today, lineDate) == Success(TakeLast(lines, MaxShownLines))
  {
  }

  // ---------------------------------------------------------------------------
  // Reading a line's date
  // ---------------------------------------------------------------------------

  /** Ten characters in the shape `\d{4}-\d{2}-\d{2}`. */
  predicate IsDateShape(d: string)
  {
    |d| == 10 && d[4] == '-' && d[7] == '-'
    && forall k :: 0 <= k < 10 && k != 4 && k != 7 ==> IsDigit(d[k])
  }

  /** The pattern `<open>(\d{4}-\d{2}-\d{2})\s` matches `line` at position `k`. */
  predicate DateMatchAt(line: string, open: string, k: nat)
  {
    k + |open| + 11 <= |line| && line[k..k + |open|] == open
    && IsDateShape(line[k + |open|..k + |open| + 10]) && IsWhiteSpace(line[k + |open| + 10])
  }

  /** The leftmost position at or after `k` where the pattern matches, as `Regex.Match` finds it. */
  function FirstDateMatch(line: string, open: string, k: nat): (r: Option<nat>)
    decreases |line| - k
    ensures r.Some? ==> k <= r.value && DateMatchAt(line, open, r.value)
    ensures forall j: nat :: k <= j && (r.None? || j < r.value) ==> !DateMatchAt(line, open, j)
  {
    if |line| < k + |open| + 11 then None
    else if DateMatchAt(line, open, k) then Some(k)
    else FirstDateMatch(line, open, k + 1)
  }

  /**
   * The date `LineMatchesDateFilter` reads from a line: the date group of the
   * leftmost match, handed to `parseDate` (`DateTime.TryParse`). No match, or
   * a group that does not parse, is no date.
   */
  function LineDateBy(line: string, open: string, parseDate: string -> Option<TimeStamp>): Option<TimeStamp>
  {
    match FirstDateMatch(line, open, 0)
    case None => None
    case Some(k) => parseDate(line[k + |open|..k + |open| + 10])
  }

  /** The pattern as written, `\[ (\d{4}-\d{2}-\d{2})\s`: a space must follow the '['. */
  function AsWrittenLineDate(parseDate: string -> Option<TimeStamp>): string -> Option<TimeStamp>
  {
    (l: string) => LineDateBy(l, "[ ", parseDate)
  }

  /** The pattern the line format `[2024-01-15 14:30:25.123]` calls for: `\[(\d{4}-\d{2}-\d{2})\s`. */
  function CorrectedLineDate(parseDate: string -> Option<TimeStamp>): string -> Option<TimeStamp>
  {
    (l: string) => LineDateBy(l, "[", parseDate)
  }

  /** No '[' in the line is followed by a space, as in every line of the documented format. */
  predicate NoSpacedBracket(line: string)
  {
    forall k :: 0 <= k < |line| - 1 ==> !(line[k] == '[' && line[k + 1] == ' ')
  }

  /** As written, the pattern finds no date in a line without a '[' followed by a space. */
  lemma AsWrittenFindsNoDate(line: string, parseDate: string -> Option<TimeStamp>)
    requires NoSpacedBracket(line)
    ensures AsWrittenLineDate(parseDate)(line) == None
  {
    forall j: nat
      ensures !DateMatchAt(line, "[ ", j)
    {
      if j + 13 <= |line| {
        assert line[j..j + 2][0] == line[j] && line[j..j + 2][1] == line[j + 1];
      }
    }
  }

  /**
   * As written, every date filter empties the view: once a date cutoff
   * applies, no line without a '[' followed by a space passes.
   */
  lemma AsWrittenDateFilterEmpties(lines: seq<string>, f: LogFilter, today: TimeStamp,
                                   parseDate: string -> Option<TimeStamp>)
    requires Cutoff(f, today).Success? && Cutoff(f, today).value.Some?
    requires forall l :: l in lines ==> NoSpacedBracket(l)
    ensures ApplyFilters(lines, f, today, AsWrittenLineDate(parseDate)) == Success([])
  {
    var lineDate := AsWrittenLineDate(parseDate);
    var cutoff := Cutoff(f, today).value;
    forall l | l in lines
      ensures !PassesAll(f, cutoff, lineDate)(l)
    {
      AsWrittenFindsNoDate(l, parseDate);
    }
    WhereNone(lines, PassesAll(f, cutoff, lineDate));
    ApplyFiltersIsTakeLast(lines, f, today, lineDate);
  }

  /**
   * The corrected pattern reads the date of a line in the documented format
   * `[yyyy-MM-dd HH:mm:ss.fff] ...`, which the pattern as written misses, and
   * the line passes a date cutoff exactly when that date parses and is not
   * before it.
   */
  lemma CorrectedLineDateReadsFormat(d: string, rest: string, cutoff: TimeStamp, parseDate: string -> Option<TimeStamp>)
    requires IsDateShape(d)
    ensures CorrectedLineDate(parseDate)("[" + d + " " + rest) == parseDate(d)
    ensures DateMatches("[" + d + " " + rest, Some(cutoff), CorrectedLineDate(parseDate))
      <==> parseDate(d).Some? && parseDate(d).value >= cutoff
  {
    var line := "[" + d + " " + rest;
    assert line[0..1] == "[" && line[1..11] == d && line[11] == ' ';
    assert DateMatchAt(line, "[", 0);
  }

  /**
   * A line in the documented format, `[` date ` ` rest, whose rest has no '['
   * followed by a space: the pattern as written finds no date in it, the
   * corrected one finds the line's own.
   */
  lemma AsWrittenMissesDocumentedLine(d: string, rest: string, parseDate: string -> Option<TimeStamp>)
    requires IsDateShape(d) && NoSpacedBracket(rest)
    ensures AsWrittenLineDate(parseDate)("[" + d + " " + rest) == None
    ensures CorrectedLineDate(parseDate)("[" + d + " " + rest) == parseDate(d)
  {
    var line := "[" + d + " " + rest;
    forall k | 0 <= k < |line| - 1
      ensures !(line[k] == '[' && line[k + 1] == ' ')
    {
      if k == 0 {
        assert line[1] == d[0];
      } else if k < 11 {
        assert line[k] == d[k - 1];
      } else if k > 11 {
        assert line[k] == rest[k - 12] && line[k + 1] == rest[k - 11];
      }
    }
    AsWrittenFindsNoDate(line, parseDate);
    CorrectedLineDateReadsFormat(d, rest, 0, parseDate);
  }

  /** What the viewer shows for a file that is not there. */
  function NotFoundText(path: string): string
  {
    "Log file not found: " + path
  }

  /** The status line after loading: how many lines are shown out of how many the file has. */
  function LoadedStatus(shown: nat, total: nat): string
  {
    "Loaded " + NatToString(shown) + " lines (filtered from " + NatToString(total) + " total)"
  }

  /** `string.Join(sep, parts)` for a string separator. */
  function JoinLines(parts: seq<string>, sep: string): string
    decreases |parts|
  {
    if parts == [] then "" else if |parts| == 1 then parts[0] else parts[0] + sep + JoinLines(parts[1..], sep)
  }

  // ---------------------------------------------------------------------------
  // The file list
  // ---------------------------------------------------------------------------

  /**
   * The default files appended, in order, to the names already listed: those
   * not present yet are added, and creating one may throw (`createErrors`
   * holds the error for such a name).
   */
  function MergeDefaults(names: seq<string>, defaults: seq<string>, createErrors: map<string, Error>)
    : (r: Result<seq<string>>)
    decreases |defaults|
  {
    if defaults == [] then Success(names)
    else if defaults[0] in names then MergeDefaults(names, defaults[1..], createErrors)
    else if defaults[0] in createErrors then Failure(createErrors[defaults[0]])
    else MergeDefaults(names + [defaults[0]], defaults[1..], createErrors)
  }

  /** The merge fails exactly when some missing default cannot be created. */
  lemma {:induction false} MergeDefaultsFails(names: seq<string>, defaults: seq<string>, createErrors: map<string, Error>)
    ensures MergeDefaults(names, defaults, createErrors).Failure? <==>
      exists k :: 0 <= k < |defaults| && defaults[k] !in names && defaults[k] in createErrors
    decreases |defaults|
  {
    if defaults != [] {
      var d := defaults[0];
      var tail := defaults[1..];
      if d in names {
        MergeDefaultsFails(names, tail, createErrors);
        if exists k :: 0 <= k < |defaults| && defaults[k] !in names && defaults[k] in createErrors {
          var k :| 0 <= k < |defaults| && defaults[k] !in names && defaults[k] in createErrors;
          assert tail[k - 1] == defaults[k];
        }
      } else if d !in createErrors {
        MergeDefaultsFails(names + [d], tail, createErrors);
        if exists k :: 0 <= k < |defaults| && defaults[k] !in names && defaults[k] in createErrors {
          var k :| 0 <= k < |defaults| && defaults[k] !in names && defaults[k] in createErrors;
          assert tail[k - 1] == defaults[k];
        }
        if exists k :: 0 <= k < |tail| && tail[k] !in names + [d] && tail[k] in createErrors {
          var k :| 0 <= k < |tail| && tail[k] !in names + [d] && tail[k] in createErrors;
          assert defaults[k + 1] == tail[k];
        }
      }
    }
  }

  /**
   * A successful merge keeps the listed names in front and adds each missing
   * default exactly once: a default already listed keeps its count, a missing
   * one occurs once, and nothing else is added.
   */
  lemma {:induction false} MergeDefaultsContents(names: seq<string>, defaults: seq<string>, createErrors: map<string, Error>)
    requires MergeDefaults(names, defaults, createErrors).Success?
    ensures var r := MergeDefaults(names, defaults, createErrors).value;
      && |names| <= |r| && r[..|names|] == names
      && (forall x :: x in r <==> x in names || x in defaults)
      && (forall x :: x in defaults ==> multiset(r)[x] == if x in names then multiset(names)[x] else 1)
      && (forall x :: x !in defaults ==> multiset(r)[x] == multiset(names)[x])
    decreases |defaults|
  {
    if defaults != [] {
      var d := defaults[0];
      var tail := defaults[1..];
      if d in names {
        MergeDefaultsContents(names, tail, createErrors);
      } else {
        var names' := names + [d];
        MergeDefaultsContents(names', tail, createErrors);
        var r := MergeDefaults(names, defaults, createErrors).value;
        assert r[..|names'|] == names';
        assert r[..|names|] == names'[..|names|] == names;
        assert multiset(names') == multiset(names) + multiset{d};
      }
    }
  }

  /**
   * The list `LoadLogFiles` publishes: the listed names, sorted, with the
   * missing defaults added, sorted again; or the error that stopped it.
   */
  function LogFileList(listed: seq<string>, createErrors: map<string, Error>): Result<seq<string>>
  {
    match MergeDefaults(SortBy(listed, (f: string) => f), DefaultLogFiles, createErrors)
    case Success(names) => Success(SortBy(names, (f: string) => f))
    case Failure(e) => Failure(e)
  }

  /**
   * The published list is sorted, holds every listed name and all five
   * defaults and nothing else, and adds no default twice.
   */
  lemma LogFileListContents(listed: seq<string>, createErrors: map<string, Error>)
    requires LogFileList(listed, createErrors).Success?
    ensures var r := LogFileList(listed, createErrors).value;
      && SortedBy(r, (f: string) => f)
      && (forall x :: x in r <==> x in listed || x in DefaultLogFiles)
      && (forall x :: x in DefaultLogFiles ==> multiset(r)[x] == if x in listed then multiset(listed)[x] else 1)
      && (forall x :: x !in DefaultLogFiles ==> multiset(r)[x] == multiset(listed)[x])
  {
    var key := (f: string) => f;
    var sorted := SortBy(listed, key);
    MergeDefaultsContents(sorted, DefaultLogFiles, createErrors);
    var merged := MergeDefaults(sorted, DefaultLogFiles, createErrors).value;
    var r := LogFileList(listed, createErrors).value;
    forall x
      ensures x in r <==> x in listed || x in DefaultLogFiles
    {
      SortByMembers(merged, key, x);
      SortByMembers(listed, key, x);
    }
    forall x | x in DefaultLogFiles
      ensures x in sorted <==> x in listed
    {
      SortByMembers(listed, key, x);
    }
  }

  /** Loading fails exactly when a default file is missing and cannot be created. */
  lemma LogFileListFails(listed: seq<string>, createErrors: map<string, Error>)
    ensures LogFileList(listed, createErrors).Failure? <==>
      exists k :: 0 <= k < |DefaultLogFiles| && DefaultLogFiles[k] !in listed && DefaultLogFiles[k] in createErrors
  {
    var sorted := SortBy(listed, (f: string) => f);
    MergeDefaultsFails(sorted, DefaultLogFiles, createErrors);
    forall k | 0 <= k < |DefaultLogFiles|
      ensures DefaultLogFiles[k] in sorted <==> DefaultLogFiles[k] in listed
    {
      SortByMembers(listed, (f: string) => f, DefaultLogFiles[k]);
    }
  }

  // ---------------------------------------------------------------------------
  // The view-model
  // ---------------------------------------------------------------------------

  /** What reading the selected file gives: missing, unreadable, or its text. */
  datatype LogFileRead = Missing | Unreadable(error: Error) | Read(content: string)

  class LogsViewModel {
    const logPath: string
    var logFiles: seq<string>
    var selectedLogFile: string
    var selectedLogLevel: string
    var selectedDateFilter: string
    var searchText: string
    var logContent: string
    var statusText: string
    var isLoading: bool

    /**
     * The constructor loads the file list and then shows "Application.log"
     * through the cleared filters: `listing` and `createErrors` are what
     * `LoadLogFiles` finds, `file` what reading that log gives.
     */
    constructor(logPath: string, listing: Result<seq<string>>, createErrors: map<string, Error>,
      file: LogFileRead, today: TimeStamp, lineDate: string -> Option<TimeStamp>)
      ensures this.logPath == logPath && selectedLogFile == "Application.log"
      ensures selectedLogLevel == AllLevels && selectedDateFilter == AllDates && searchText == ""
      ensures !isLoading
      ensures logFiles ==
        if listing.Success? && LogFileList(listing.value, createErrors).Success?
        then LogFileList(listing.value, createErrors).value else []
      ensures file.Missing? ==>
        logContent == NotFoundText(Paths.Combine(logPath, "Application.log"))
        && statusText == "Log file not found"
      ensures file.Unreadable? ==>
        logContent == "Error loading log file: " + Message(file.error) && statusText == "Error: " + Message(file.error)
      ensures file.Read? ==>
        var lines := Split(file.content, '\n');
        var shown := TakeLast(lines, MaxShownLines);
        logContent == JoinLines(shown, "\r\n")
        && statusText == LoadedStatus(|shown|, |lines|)
    {
      this.logPath := logPath;
      logFiles := [];
      selectedLogFile := "Application.log";
      selectedLogLevel := AllLevels;
      selectedDateFilter := AllDates;
      searchText := "";
      logContent := "";
      statusText := "Ready";
      isLoading := false;
      new;
      LoadLogFiles(listing, createErrors);
      ghost var loaded := logFiles;
      assert loaded == if listing.Success? && LogFileList(listing.value, createErrors).Success?
        then LogFileList(listing.value, createErrors).value else [];
      assert CurrentFilter() == ClearedFilter;
      if file.Read? {
        ClearedFilterShowsTail(Split(file.content, '\n'), today, lineDate);
      }
      LoadLogContent(file, today, lineDate);
      assert logFiles == loaded;
    }

    function CurrentFilter(): LogFilter
      reads this`selectedLogLevel, this`selectedDateFilter, this`searchText
    {
      LogFilter(selectedLogLevel, selectedDateFilter, searchText)
    }

    /**
     * `LoadLogFiles`: `listing` is the folder's `*.log` names (or the error
     * creating or listing the folder), `createErrors` the defaults whose
     * creation throws. The published list is `LogFileList`; on an error it
     * stays empty.
     */
    method LoadLogFiles(listing: Result<seq<string>>, createErrors: map<string, Error>)
      modifies this`logFiles, this`statusText
      ensures listing.Failure? ==>
        logFiles == [] && statusText == "Error loading log files: " + Message(listing.error)
      ensures listing.Success? ==> match LogFileList(listing.value, createErrors)
        case Success(names) => logFiles == names && statusText == "Found " + NatToString(|names|) + " log files"
        case Failure(e) => logFiles == [] && statusText == "Error loading log files: " + Message(e)
    {
      logFiles := [];
      if listing.Failure? {
        statusText := "Error loading log files: " + Message(listing.error);
        return;
      }
      var key := (f: string) => f;
      var sorted := SortBy(listing.value, key);
      var names := sorted;
      var i := 0;
      while i < |DefaultLogFiles|
        invariant 0 <= i <= |DefaultLogFiles|
        invariant MergeDefaults(names, DefaultLogFiles[i..], createErrors)
          == MergeDefaults(sorted, DefaultLogFiles, createErrors)
      {
        var defaultFile := DefaultLogFiles[i];
        assert DefaultLogFiles[i..][1..] == DefaultLogFiles[i + 1..];
        if defaultFile !in names {
          names := names + [defaultFile];
          if defaultFile in createErrors {
            statusText := "Error loading log files: " + Message(createErrors[defaultFile]);
            return;
          }
        }
        i := i + 1;
      }
      logFiles := SortBy(names, key);
      statusText := "Found " + NatToString(|logFiles|) + " log files";
    }

    /**
     * `LoadLogContent`: shows the selected file through the current filters;
     * `today` is the clock's current date and `lineDate` the date a line
     * carries.
     */
    method LoadLogContent(file: LogFileRead, today: TimeStamp, lineDate: string -> Option<TimeStamp>)
      modifies this`logContent, this`statusText, this`isLoading
      ensures !isLoading
      ensures file.Missing? ==>
        logContent == NotFoundText(Paths.Combine(logPath, selectedLogFile))
        && statusText == "Log file not found"
      ensures file.Unreadable? ==>
        logContent == "Error loading log file: " + Message(file.error) && statusText == "Error: " + Message(file.error)
      ensures file.Read? ==>
        var lines := Split(file.content, '\n');
        match ApplyFilters(lines, CurrentFilter(), today, lineDate)
        case Success(shown) =>
          logContent == JoinLines(shown, "\r\n")
          && statusText == LoadedStatus(|shown|, |lines|)
        case Failure(e) =>
          logContent == "Error loading log file: " + Message(e) && statusText == "Error: " + Message(e)
    {
      ghost var filter := CurrentFilter();
      isLoading := true;
      statusText := "Loading log content...";
      match file {
      case Missing =>
        logContent := NotFoundText(Paths.Combine(logPath, selectedLogFile));
        statusText := "Log file not found";
      case Unreadable(e) =>
        logContent := "Error loading log file: " + Message(e);
        statusText := "Error: " + Message(e);
      case Read(content) =>
        var lines := Split(content, '\n');
        var filtered := ApplyFilters(lines, CurrentFilter(), today, lineDate);
        match filtered
        case Success(shown) =>
          logContent := JoinLines(shown, "\r\n");
          statusText := LoadedStatus(|shown|, |lines|);
        case Failure(e) =>
          logContent := "Error loading log file: " + Message(e);
          statusText := "Error: " + Message(e);
      }
      isLoading := false;
      assert CurrentFilter() == filter;
    }

    /** `ClearFilter`: resets the three selections and reloads, which then shows the file's last 1000 lines. */
    method ClearFilter(file: LogFileRead, today: TimeStamp, lineDate: string -> Option<TimeStamp>)
      modifies this`searchText, this`selectedLogLevel, this`selectedDateFilter
      modifies this`logContent, this`statusText, this`isLoading
      ensures searchText == "" && selectedLogLevel == AllLevels && selectedDateFilter == AllDates
      ensures !isLoading
      ensures file.Missing? ==>
        logContent == NotFoundText(Paths.Combine(logPath, selectedLogFile))
        && statusText == "Log file not found"
      ensures file.Unreadable? ==>
        logContent == "Error loading log file: " + Message(file.error) && statusText == "Error: " + Message(file.error)
      ensures file.Read? ==>
        var lines := Split(file.content, '\n');
        var shown := TakeLast(lines, MaxShownLines);
        logContent == JoinLines(shown, "\r\n")
        && statusText == LoadedStatus(|shown|, |lines|)
    {
      searchText := "";
      selectedLogLevel := AllLevels;
      selectedDateFilter := AllDates;
      if file.Read? {
        ClearedFilterShowsTail(Split(file.content, '\n'), today, lineDate);
      }
      LoadLogContent(file, today, lineDate);
    }
  }
}
