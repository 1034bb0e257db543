/**
 * The NUnit runner task: the console command line it assembles from its
 * properties, where it looks for nunit-console.exe, how it splits the
 * captured console output, and the result file it writes when the run timed
 * out. Launching the process belongs to the TestTask base class, which is not
 * part of this model: the captured lines and whether the run timed out come
 * in as parameters, and so does the machine the task runs on (a Host).
 */
module NUnitTask {
  import opened Wrappers
  import opened Text
  import Int32
  import opened Paths
  import opened XmlTree
  import opened Logging

  /** Environment.OSVersion.Platform. */
  datatype Platform = Win32S | Win32Windows | Win32NT | WinCE | Unix | Xbox | MacOSX

  predicate IsUnixLike(p: Platform) {
    p == Unix || p == MacOSX
  }

  /** The character that introduces a console switch: '-' on Unix and MacOSX, '/' elsewhere. */
  function SwitchChar(p: Platform): char {
    if IsUnixLike(p) then '-' else '/'
  }

  /** Path.DirectorySeparatorChar of the runtime on that platform. */
  function DirSeparator(p: Platform): char {
    if IsUnixLike(p) then '/' else '\\'
  }

  /** Path.PathSeparator, which separates the directories of PATH. */
  function PathListSeparator(p: Platform): char {
    if IsUnixLike(p) then ':' else ';'
  }

  /**
   * What the task reads from the machine it runs on:
   *  - mono: MONO_RUNTIME_EXECUTABLE_PATH, "" when unset;
   *  - path: PATH;
   *  - cwd: the current directory, against which relative paths are resolved;
   *  - programFiles: the subdirectories of Program Files as full paths, in
   *    the order Directory.EnumerateDirectories yields them;
   *  - nunitKeys: the InstallDir value of each version key under
   *    HKCU\Software\nunit.org\Nunit in the order GetSubKeyNames lists them,
   *    None for a version key that cannot be opened, and None for the whole
   *    list when one of the keys on the way is missing;
   *  - files: the paths for which File.Exists holds.
   */
  datatype Host = Host(
    mono: string,
    path: string,
    platform: Platform,
    cwd: string,
    programFiles: seq<string>,
    nunitKeys: Option<seq<Option<string>>>,
    files: set<string>)

  const ConsoleExe := "nunit-console" + ".exe"
  const ConsoleX86Exe := "nunit-console" + "-x86" + ".exe"

  /**
   * What the base class looks for in the console output to tell that all tests
   * ran: fourteen '#', the spaced-out word SUCCESS, seventeen '#'.
   */
  const TestsCompleted := "##############" + "                 S U C C E S S               " + "#################"

  /** The prefix NUnit puts before the name of each test it starts. */
  const TestLinePrefix := "***** "

  /* ---------------------------------------------------------------------- */
  /* Console switches                                                        */
  /* ---------------------------------------------------------------------- */

  /** One switch of the nunit-console command line. */
  /**
   * The exception new StreamWriter(OutputXmlFile) raises when no output file
   * was given: ArgumentNullException for null, ArgumentException for "" (both
   * modelled as "").
   */
  datatype OutputError = NoOutputXmlFile

  datatype Switch =
    | NoLogo
    | NoShadow
    | NoThread
    | Config(value: string)
    | Fixture(value: string)
    | Include(value: string)
    | Exclude(value: string)
    | Transform(value: string)
    | Xml(value: string)
    | ErrorOutput(value: string)
    | Framework(value: string)
    | Labels

  /** The switches that name a file are wrapped whole in double quotes. */
  predicate Quoted(sw: Switch) {
    sw.Transform? || sw.Xml? || sw.ErrorOutput?
  }

  /** The place of each switch in the fixed order the task emits them in. */
  function Rank(sw: Switch): nat {
    match sw
    case NoLogo => 0
    case NoShadow => 1
    case NoThread => 2
    case Config(_) => 3
    case Fixture(_) => 4
    case Include(_) => 5
    case Exclude(_) => 6
    case Transform(_) => 7
    case Xml(_) => 8
    case ErrorOutput(_) => 9
    case Framework(_) => 10
    case Labels => 11
  }

  /** The text AppendFormat adds for one switch, its leading space included. */
  function Render(c: char, sw: Switch): string {
    match sw
    case NoLogo => " " + [c] + "nologo"
    case NoShadow => " " + [c] + "noshadow"
    case NoThread => " " + [c] + "nothread"
    case Config(v) => " " + [c] + "config=" + v
    case Fixture(v) => " " + [c] + "fixture=" + v
    case Include(v) => " " + [c] + "include=" + v
    case Exclude(v) => " " + [c] + "exclude=" + v
    case Transform(v) => " \"" + [c] + "transform=" + v + "\""
    case Xml(v) => " \"" + [c] + "xml=" + v + "\""
    case ErrorOutput(v) => " \"" + [c] + "err=" + v + "\""
    case Framework(v) => " " + [c] + "framework=" + v
    case Labels => " " + [c] + "labels"
  }

  /**
   * Every switch is introduced by the switch character, right after the
   * leading space or after the opening quote, and a quoted switch ends with
   * the closing quote.
   */
  lemma {:induction false} RenderUsesSwitchChar(p: Platform, sw: Switch)
    ensures var c := SwitchChar(p);
      var t := Render(c, sw);
      var at := if Quoted(sw) then 2 else 1;
      at < |t| && t[0] == ' ' && t[at] == c &&
      (Quoted(sw) <==> t[1] == '"' && t[|t| - 1] == '"')
  {
    var c := SwitchChar(p);
    var t := Render(c, sw);
    match sw
    case Transform(v) =>
      assert t == " \"" + [c] + "transform=" + v + "\"";
    case Xml(v) =>
      assert t == " \"" + [c] + "xml=" + v + "\"";
    case ErrorOutput(v) =>
      assert t == " \"" + [c] + "err=" + v + "\"";
    case _ =>
  }

  /** The switches rendered one after the other. */
  function RenderAll(c: char, sws: seq<Switch>): string
    decreases |sws|
  {
    if sws == [] then "" else RenderAll(c, sws[..|sws| - 1]) + Render(c, sws[|sws| - 1])
  }

  function Opt(present: bool, sw: Switch): seq<Switch> {
    if present then [sw] else []
  }

  /** The ranks of the switches strictly increase along the list. */
  predicate Ascending(sws: seq<Switch>) {
    forall i, j :: 0 <= i < j < |sws| ==> Rank(sws[i]) < Rank(sws[j])
  }

  /** Ascending, stated link by link from the back, with every rank below bound. */
  predicate AscendingBelow(sws: seq<Switch>, bound: nat)
    decreases |sws|
  {
    sws == [] || (Rank(sws[|sws| - 1]) < bound && AscendingBelow(sws[..|sws| - 1], Rank(sws[|sws| - 1])))
  }

  /** Appending a switch of higher rank, or nothing, keeps the list ascending. */
  lemma AppendRanked(sws: seq<Switch>, present: bool, sw: Switch)
    requires AscendingBelow(sws, Rank(sw))
    ensures AscendingBelow(sws + Opt(present, sw), Rank(sw) + 1)
  {
    if present {
      assert (sws + [sw])[..|sws|] == sws;
    } else {
      assert sws + [] == sws;
    }
  }

  /** The link-by-link form implies the pairwise one. */
  lemma {:induction false} AscendingBelowIsAscending(sws: seq<Switch>, bound: nat)
    requires AscendingBelow(sws, bound)
    ensures Ascending(sws)
    ensures forall i :: 0 <= i < |sws| ==> Rank(sws[i]) < bound
    decreases |sws|
  {
    if sws != [] {
      var init := sws[..|sws| - 1];
      AscendingBelowIsAscending(init, Rank(sws[|sws| - 1]));
      forall i | 0 <= i < |init| ensures sws[i] == init[i] { }
    }
  }

  /** RenderAll over one more, optional, switch. */
  lemma RenderAllSnoc(c: char, sws: seq<Switch>, present: bool, sw: Switch)
    ensures RenderAll(c, sws + Opt(present, sw)) == RenderAll(c, sws) + (if present then Render(c, sw) else "")
  {
    if present {
      assert (sws + [sw])[..|sws|] == sws;
    } else {
      assert sws + [] == sws;
    }
  }

  /* ---------------------------------------------------------------------- */
  /* Joining with single spaces                                              */
  /* ---------------------------------------------------------------------- */

  /**
   * The StringBuilder loops of the task: each item is appended, preceded by a
   * space whenever the builder already holds something.
   */
  function AppendSpaced(b: string, items: seq<string>): string
    decreases |items|
  {
    if items == [] then b
    else
      var s := AppendSpaced(b, items[..|items| - 1]);
      (if |s| > 0 then s + " " else s) + items[|items| - 1]
  }

  lemma {:induction false} JoinSnoc(parts: seq<string>, last: string, c: char)
    requires |parts| >= 1
    ensures Join(parts + [last], c) == Join(parts, c) + [c] + last
    decreases |parts|
  {
    if |parts| > 1 {
      JoinSnoc(parts[1..], last, c);
      assert (parts + [last])[1..] == parts[1..] + [last];
    }
  }

  /**
   * With no empty item, the builder ends up holding the items joined by single
   * spaces, after whatever it held before and a space.
   */
  lemma {:induction false} AppendSpacedJoin(b: string, items: seq<string>)
    requires |items| >= 1
    requires forall k :: 0 <= k < |items| ==> items[k] != ""
    ensures AppendSpaced(b, items) == (if b == "" then "" else b + " ") + Join(items, ' ')
    decreases |items|
  {
    var init := items[..|items| - 1];
    var last := items[|items| - 1];
    if |items| > 1 {
      AppendSpacedJoin(b, init);
      JoinSnoc(init, last, ' ');
      assert init + [last] == items;
    }
  }

  /** Splitting at the spaces gives back items that are non-empty and hold no space. */
  lemma {:induction false} AppendSpacedSplits(items: seq<string>)
    requires |items| >= 1
    requires forall k :: 0 <= k < |items| ==> items[k] != "" && ' ' !in items[k]
    ensures Split(AppendSpaced("", items), ' ') == items
  {
    AppendSpacedJoin("", items);
    assert AppendSpaced("", items) == Join(items, ' ');
    SplitJoin(items, ' ');
  }

  /** Path.GetFileNameWithoutExtension of each item, in order. */
  function BaseNames(items: seq<string>): (r: seq<string>)
    ensures |r| == |items|
    decreases |items|
  {
    if items == [] then [] else BaseNames(items[..|items| - 1]) + [FileNameWithoutExtension(items[|items| - 1])]
  }

  /** Each base name belongs to the item at the same place. */
  lemma {:induction false} BaseNamesInOrder(items: seq<string>)
    ensures forall k :: 0 <= k < |items| ==> BaseNames(items)[k] == FileNameWithoutExtension(items[k])
    decreases |items|
  {
    if items != [] {
      var init := items[..|items| - 1];
      BaseNamesInOrder(init);
      forall k | 0 <= k < |init| ensures items[k] == init[k] { }
    }
  }

  /* ---------------------------------------------------------------------- */
  /* Where nunit-console.exe is looked for                                   */
  /* ---------------------------------------------------------------------- */

  /** The index of the first element satisfying p. */
  function FirstWhere<T>(xs: seq<T>, p: T -> bool): (r: Option<nat>)
    ensures r.Some? ==> r.value < |xs|
    decreases |xs|
  {
    if xs == [] then None
    else if p(xs[0]) then Some(0)
    else match FirstWhere(xs[1..], p)
      case None => None
      case Some(i) => Some(i + 1)
  }

  /** FirstWhere finds the least index whose element satisfies p, and None when no element does. */
  lemma {:induction false} FirstWhereIsFirst<T>(xs: seq<T>, p: T -> bool)
    ensures var r := FirstWhere(xs, p);
      (r.Some? ==> p(xs[r.value]) && forall k :: 0 <= k < r.value ==> !p(xs[k])) &&
      (r.None? ==> forall k :: 0 <= k < |xs| ==> !p(xs[k]))
    decreases |xs|
  {
    if xs != [] && !p(xs[0]) {
      FirstWhereIsFirst(xs[1..], p);
      forall k | 0 < k < |xs| ensures xs[k] == xs[1..][k - 1] { }
    }
  }

  /** The first index i at which p holds, when p fails everywhere before it. */
  lemma FirstWhereAt<T>(xs: seq<T>, p: T -> bool, i: nat)
    requires i < |xs| && p(xs[i])
    requires forall k :: 0 <= k < i ==> !p(xs[k])
    ensures FirstWhere(xs, p) == Some(i)
  {
    FirstWhereIsFirst(xs, p);
  }

  /** None when p fails everywhere. */
  lemma FirstWhereNone<T>(xs: seq<T>, p: T -> bool)
    requires forall k :: 0 <= k < |xs| ==> !p(xs[k])
    ensures FirstWhere(xs, p) == None
  {
    FirstWhereIsFirst(xs, p);
  }

  /** File.Exists(Path.Combine(dir, "nunit-console.exe")). */
  predicate HoldsConsole(dir: string, host: Host) {
    Combine(dir, ConsoleExe, DirSeparator(host.platform)) in host.files
  }

  /** bin\nunit-console.exe below dir exists. */
  predicate HoldsConsoleInBin(dir: string, host: Host) {
    var sep := DirSeparator(host.platform);
    Combine(dir, Combine("bin", ConsoleExe, sep), sep) in host.files
  }

  function OnPath(host: Host): string -> bool {
    d => HoldsConsole(d, host)
  }

  /** The directories of PATH, in order. */
  function PathDirs(host: Host): seq<string> {
    Split(host.path, PathListSeparator(host.platform))
  }

  /** The PATH probe: the first directory of PATH that holds nunit-console.exe. */
  function PathProbe(host: Host): (r: Option<string>)
    ensures r.Some? ==> HoldsConsole(r.value, host)
  {
    var dirs := PathDirs(host);
    FirstWhereIsFirst(dirs, OnPath(host));
    match FirstWhere(dirs, OnPath(host))
    case Some(i) => Some(dirs[i])
    case None => None
  }

  /**
   * The Program Files probe as written: it asks whether the full path of the
   * directory starts with "NUnit", and when bin\nunit-console.exe exists below
   * it, it answers the directory itself.
   */
  function ProgramFilesProbeAsWritten(host: Host): Option<string>
  {
    var dirs := host.programFiles;
    match FirstWhere(dirs, NUnitInstallAsWritten(host))
    case Some(i) => Some(dirs[i])
    case None => None
  }

  function NUnitInstallAsWritten(host: Host): string -> bool {
    d => StartsWith(d, "NUnit") && HoldsConsoleInBin(d, host)
  }

  /** A Program Files subdirectory named NUnit… with bin\nunit-console.exe below it. */
  predicate IsNUnitInstall(dir: string, host: Host) {
    StartsWith(FileName(dir), "NUnit") && HoldsConsoleInBin(dir, host)
  }

  /**
   * The Program Files probe as intended: the first subdirectory whose own name
   * starts with "NUnit" and that has bin\nunit-console.exe; the answer is its
   * bin directory.
   */
  function ProgramFilesProbe(host: Host): Option<string>
  {
    var dirs := host.programFiles;
    match FirstWhere(dirs, NUnitInstallIn(host))
    case Some(i) => Some(Combine(dirs[i], "bin", DirSeparator(host.platform)))
    case None => None
  }

  function NUnitInstallIn(host: Host): string -> bool {
    d => IsNUnitInstall(d, host)
  }

  /** A registered InstallDir that is set and holds nunit-console.exe. */
  predicate IsRegisteredInstall(key: Option<string>, host: Host) {
    key.Some? && key.value != "" && HoldsConsole(key.value, host)
  }

  /** The registry probe, which only Windows NT consults. */
  function RegistryProbe(host: Host): (r: Option<string>)
    ensures r.Some? ==> host.platform == Win32NT && r.value != "" && HoldsConsole(r.value, host)
  {
    if host.nunitKeys.Some? && host.platform == Win32NT then
      var keys := host.nunitKeys.value;
      FirstWhereIsFirst(keys, RegisteredIn(host));
      match FirstWhere(keys, RegisteredIn(host))
      case Some(i) => Some(keys[i].value)
      case None => None
    else None
  }

  function RegisteredIn(host: Host): Option<string> -> bool {
    k => IsRegisteredInstall(k, host)
  }

  /** The probes after the current ToolPath, in order; "." when none finds the console. */
  function SearchToolPath(host: Host): string
  {
    match PathProbe(host)
    case Some(d) => d
    case None =>
      match ProgramFilesProbe(host)
      case Some(d) => d
      case None =>
        match RegistryProbe(host)
        case Some(d) => d
        case None => "."
  }

  /** The ToolPath EnsureToolPath leaves: the current one when it holds the console, else the search. */
  function ProbeToolPath(current: string, host: Host): string
  {
    if current != "" && HoldsConsole(current, host) then current else SearchToolPath(host)
  }
  /** The PATH loop of EnsureToolPath. */
  method SearchPath(host: Host) returns (found: Option<string>)
    ensures found == PathProbe(host)
  {
    var dirs := PathDirs(host);
    var i := 0;
    while i < |dirs|
      invariant 0 <= i <= |dirs|
      invariant forall k :: 0 <= k < i ==> !HoldsConsole(dirs[k], host)
    {
      if HoldsConsole(dirs[i], host) {
        FirstWhereAt(dirs, OnPath(host), i);
        return Some(dirs[i]);
      }
      i := i + 1;
    }
    FirstWhereNone(dirs, OnPath(host));
    return None;
  }

  /** The Program Files loop of EnsureToolPath, with the test on the directory's own name. */
  method SearchProgramFiles(host: Host) returns (found: Option<string>)
    ensures found == ProgramFilesProbe(host)
  {
    var installs := host.programFiles;
    var i := 0;
    while i < |installs|
      invariant 0 <= i <= |installs|
      invariant forall k :: 0 <= k < i ==> !IsNUnitInstall(installs[k], host)
    {
      if StartsWith(FileName(installs[i]), "NUnit") && HoldsConsoleInBin(installs[i], host) {
        FirstWhereAt(installs, NUnitInstallIn(host), i);
        return Some(Combine(installs[i], "bin", DirSeparator(host.platform)));
      }
      i := i + 1;
    }
    FirstWhereNone(installs, NUnitInstallIn(host));
    return None;
  }

  /** The registry loop of EnsureToolPath, which only runs on Windows NT. */
  method SearchRegistry(host: Host) returns (found: Option<string>)
    ensures found == RegistryProbe(host)
  {
    if host.nunitKeys.None? || host.platform != Win32NT {
      return None;
    }
    var keys := host.nunitKeys.value;
    var i := 0;
    while i < |keys|
      invariant 0 <= i <= |keys|
      invariant forall k :: 0 <= k < i ==> !IsRegisteredInstall(keys[k], host)
    {
      if keys[i].Some? {
        var path := keys[i].value;
        if path != "" && HoldsConsole(path, host) {
          FirstWhereAt(keys, RegisteredIn(host), i);
          return Some(path);
        }
      }
      i := i + 1;
    }
    FirstWhereNone(keys, RegisteredIn(host));
    return None;
  }


  lemma {:induction false} CombineBin(dir: string, sep: char)
    ensures Combine(Combine(dir, "bin", sep), ConsoleExe, sep) == Combine(dir, Combine("bin", ConsoleExe, sep), sep)
  {
    var inner := Combine("bin", ConsoleExe, sep);
    assert inner == "bin" + [sep] + ConsoleExe;
    assert !IsRooted(inner) by {
      assert inner[0] == 'b' && inner[1] == 'i';
    }
    if dir != "" {
      if IsSeparator(dir[|dir| - 1]) {
        assert Combine(dir, "bin", sep) == dir + "bin";
        assert dir + "bin" + [sep] + ConsoleExe == dir + inner;
      } else {
        assert Combine(dir, "bin", sep) == dir + [sep] + "bin";
        assert dir + [sep] + "bin" + [sep] + ConsoleExe == dir + [sep] + inner;
      }
    }
  }

  /** The intended Program Files probe answers a directory that holds the console. */
  lemma {:induction false} ProgramFilesProbeFindsConsole(host: Host)
    ensures ProgramFilesProbe(host).Some? ==> HoldsConsole(ProgramFilesProbe(host).value, host)
  {
    var dirs := host.programFiles;
    FirstWhereIsFirst(dirs, NUnitInstallIn(host));
    match FirstWhere(dirs, NUnitInstallIn(host))
    case Some(i) =>
      CombineBin(dirs[i], DirSeparator(host.platform));
    case None =>
  }

  /**
   * After EnsureToolPath, Path.Combine(ToolPath, "nunit-console.exe") names a
   * file that exists, unless every probe failed and ToolPath is ".".
   */
  lemma {:induction false} ProbeFindsConsole(current: string, host: Host)
    ensures var r := ProbeToolPath(current, host);
      r == "." || HoldsConsole(r, host)
  {
    ProgramFilesProbeFindsConsole(host);
  }

  /**
   * Probing again with the ToolPath a probe left finds the same ToolPath, so
   * ProgramName and ProgramArguments may both call EnsureToolPath.
   */
  lemma {:induction false} ProbeIdempotent(current: string, host: Host)
    ensures ProbeToolPath(ProbeToolPath(current, host), host) == ProbeToolPath(current, host)
  {
  }

  /**
   * The earlier probe wins: a ToolPath that already holds the console is kept,
   * and otherwise the first PATH directory that holds it is taken, whatever
   * Program Files and the registry offer.
   */
  lemma {:induction false} PathProbeWins(current: string, host: Host, k: nat)
    requires current == "" || !HoldsConsole(current, host)
    requires k < |PathDirs(host)| && HoldsConsole(PathDirs(host)[k], host)
    ensures exists j :: (0 <= j <= k && ProbeToolPath(current, host) == PathDirs(host)[j] &&
      HoldsConsole(PathDirs(host)[j], host) &&
      (forall i :: 0 <= i < j ==> !HoldsConsole(PathDirs(host)[i], host)))
  {
    var dirs := PathDirs(host);
    FirstWhereIsFirst(dirs, OnPath(host));
    var first := FirstWhere(dirs, OnPath(host));
    assert OnPath(host)(dirs[k]);
    var j := first.value;
    assert ProbeToolPath(current, host) == dirs[j];
  }

  /* ---------------------------------------------------------------------- */
  /* The console output                                                      */
  /* ---------------------------------------------------------------------- */

  /** A line naming a test NUnit started: its trimmed form starts with "***** ". */
  predicate IsTestLine(line: string) {
    StartsWith(Trim(line, WhiteSpace), TestLinePrefix)
  }

  /** The trimmed test lines, in order. */
  function Collected(lines: seq<string>): (r: seq<string>)
    ensures |r| <= |lines|
    ensures forall k :: 0 <= k < |r| ==> StartsWith(r[k], TestLinePrefix)
    decreases |lines|
  {
    if lines == [] then []
    else
      var init := Collected(lines[..|lines| - 1]);
      var line := lines[|lines| - 1];
      if IsTestLine(line) then init + [Trim(line, WhiteSpace)] else init
  }

  /** The other lines as logged, unchanged and at normal importance, in order. */
  function Echoed(lines: seq<string>): (r: seq<LogEntry>)
    decreases |lines|
  {
    if lines == [] then []
    else
      var init := Echoed(lines[..|lines| - 1]);
      var line := lines[|lines| - 1];
      if IsTestLine(line) then init else init + [LogEntry(Normal, Verbatim(line))]
  }

  /** Each line goes to exactly one side. */
  lemma {:induction false} PartitionCounts(lines: seq<string>)
    ensures |Collected(lines)| + |Echoed(lines)| == |lines|
    decreases |lines|
  {
    if lines != [] {
      PartitionCounts(lines[..|lines| - 1]);
    }
  }

  /** Both sides keep the order of the output: splitting the output splits each side. */
  lemma {:induction false} PartitionAppend(a: seq<string>, b: seq<string>)
    ensures Collected(a + b) == Collected(a) + Collected(b)
    ensures Echoed(a + b) == Echoed(a) + Echoed(b)
    decreases |b|
  {
    if b != [] {
      var init := b[..|b| - 1];
      PartitionAppend(a, init);
      assert (a + b)[..|a + b| - 1] == a + init;
      assert (a + b)[|a + b| - 1] == b[|b| - 1];
    } else {
      assert a + b == a;
    }
  }

  /**
   * A line is collected, trimmed, exactly when it is a test line, and logged
   * unchanged exactly when it is not.
   */
  lemma {:induction false} PartitionMembers(lines: seq<string>)
    ensures forall j :: 0 <= j < |lines| && IsTestLine(lines[j]) ==> Trim(lines[j], WhiteSpace) in Collected(lines)
    ensures forall j :: 0 <= j < |lines| && !IsTestLine(lines[j]) ==> LogEntry(Normal, Verbatim(lines[j])) in Echoed(lines)
    ensures forall k :: 0 <= k < |Echoed(lines)| ==>
      Echoed(lines)[k].importance == Normal && Echoed(lines)[k].message.Verbatim? &&
      !IsTestLine(Echoed(lines)[k].message.text)
    decreases |lines|
  {
    if lines != [] {
      var init := lines[..|lines| - 1];
      PartitionMembers(init);
      forall j | 0 <= j < |init| ensures lines[j] == init[j] { }
    }
  }

  /** The completion banner is never taken for a test line: it is logged. */
  lemma {:induction false} CompletionLineLogged()
    ensures Collected([TestsCompleted]) == []
    ensures Echoed([TestsCompleted]) == [LogEntry(Normal, Verbatim(TestsCompleted))]
  {
    CompletionLineNotTest();
    assert [TestsCompleted][..0] == [];
  }

  /** The completion banner has no surrounding white space and does not start like a test line. */
  lemma {:induction false} CompletionLineNotTest()
    ensures Trim(TestsCompleted, WhiteSpace) == TestsCompleted
    ensures !IsTestLine(TestsCompleted)
  {
    var s := TestsCompleted;
    assert s[0] == '#' && s[|s| - 1] == '#';
    assert '#' !in WhiteSpace;
    TrimUnchanged(s, WhiteSpace);
  }

  /** The test names in the comment: each collected line without its 6-character prefix. */
  function Tried(collected: seq<string>): (r: seq<string>)
    requires forall k :: 0 <= k < |collected| ==> StartsWith(collected[k], TestLinePrefix)
    ensures |r| == |collected|
    decreases |collected|
  {
    if collected == [] then []
    else
      var last := collected[|collected| - 1];
      assert StartsWith(last, TestLinePrefix);
      Tried(collected[..|collected| - 1]) + [last[|TestLinePrefix|..]]
  }

  /** Each tried name is its collected line with the prefix taken off. */
  lemma {:induction false} TriedDropsPrefix(collected: seq<string>)
    requires forall k :: 0 <= k < |collected| ==> StartsWith(collected[k], TestLinePrefix)
    ensures forall k :: 0 <= k < |collected| ==> TestLinePrefix + Tried(collected)[k] == collected[k]
    decreases |collected|
  {
    if collected != [] {
      var init := collected[..|collected| - 1];
      TriedDropsPrefix(init);
      var last := collected[|collected| - 1];
      assert StartsWith(last, TestLinePrefix);
      assert TestLinePrefix + last[|TestLinePrefix|..] == last;
    }
  }

  const TriedHeading := "tests tried before time ran out:"

  /** The test-case the synthetic report holds. */
  function TimeoutCase(caseSeconds: string): Node {
    Element("test-case", map["name" := "Timeout", "success" := "False", "time" := caseSeconds, "asserts" := "0"], [])
  }

  /** The test-suite element the synthetic report holds. */
  function TimeoutSuite(fixture: string, suiteSeconds: string, caseSeconds: string): Node {
    Element("test-suite",
      map["type" := "Assembly", "name" := fixture, "executed" := "True", "result" := "Timeout",
          "success" := "False", "time" := suiteSeconds],
      [Element("results", map[],
        [Element("test-suite", map["name" := "Timeout"],
          [Element("results", map[], [TimeoutCase(caseSeconds)])])])])
  }

  /** The attributes of the synthetic report's root. */
  function TimeoutCounts(fixture: string, num: Int32.Int, date: string, clock: string): map<string, string> {
    map["name" := fixture, "total" := Int32.IntToString(Int32.Add(num, 1)), "errors" := "0",
        "failures" := "1", "not-run" := "0", "inconclusive" := Int32.IntToString(num),
        "ignored" := "0", "skipped" := "0", "invalid" := "0", "date" := date, "time" := clock]
  }

  /**
   * The result file written when the run timed out, as the document it loads
   * as: one failed test-case named Timeout, counts derived from the number of
   * collected lines, and a comment naming the tests tried.
   */
  function TimeoutReport(fixture: string, collected: seq<string>, date: string, clock: string,
                         suiteSeconds: string, caseSeconds: string): Node
    requires |collected| <= Int32.Max
    requires forall k :: 0 <= k < |collected| ==> StartsWith(collected[k], TestLinePrefix)
  {
    Element("test-results", TimeoutCounts(fixture, |collected|, date, clock),
      [TimeoutSuite(fixture, suiteSeconds, caseSeconds),
       Comment([TriedHeading] + Tried(collected))])
  }

  /** The comment lists every collected test, in order, after its heading. */
  lemma {:induction false} TimeoutReportComment(fixture: string, collected: seq<string>, date: string, clock: string,
                             suiteSeconds: string, caseSeconds: string)
    requires |collected| <= Int32.Max
    requires forall k :: 0 <= k < |collected| ==> StartsWith(collected[k], TestLinePrefix)
    ensures var doc := TimeoutReport(fixture, collected, date, clock, suiteSeconds, caseSeconds);
      |doc.children| == 2 && doc.children[1].Comment? &&
      var lines := doc.children[1].lines;
      |lines| == |collected| + 1 && lines[0] == TriedHeading &&
      forall k :: 0 <= k < |collected| ==> TestLinePrefix + lines[k + 1] == collected[k]
  {
    var doc := TimeoutReport(fixture, collected, date, clock, suiteSeconds, caseSeconds);
    var lines := [TriedHeading] + Tried(collected);
    assert |doc.children| == 2 && doc.children[1] == Comment(lines);
    TriedLines(collected);
  }

  /** The comment's lines: the heading, then each collected line without its prefix. */
  lemma TriedLines(collected: seq<string>)
    requires forall k :: 0 <= k < |collected| ==> StartsWith(collected[k], TestLinePrefix)
    ensures var lines := [TriedHeading] + Tried(collected);
      |lines| == |collected| + 1 && lines[0] == TriedHeading &&
      forall k :: 0 <= k < |collected| ==> TestLinePrefix + lines[k + 1] == collected[k]
  {
    TriedDropsPrefix(collected);
  }

  /* ---------------------------------------------------------------------- */
  /* The task                                                                */
  /* ---------------------------------------------------------------------- */

  /**
   * The NUnit task with the properties MSBuild sets on it. A string property
   * that was not set is "" (the task tests them with String.IsNullOrEmpty);
   * assemblies holds the ItemSpec of each item of Assemblies.
   */
  class NUnitRunner {
    var assemblies: seq<string>
    var includeCategory: string
    var excludeCategory: string
    var fixture: string
    var xsltTransformFile: string
    var outputXmlFile: string
    var errorOutputFile: string
    var workingDirectory: string
    var disableShadowCopy: bool
    var projectConfiguration: string
    /** The backing field of TestInNewThread: None until it is set. */
    var testInNewThreadSetting: Option<bool>
    var force32Bit: bool
    var framework: string
    var toolPath: string
    /** What the task has logged. */
    var log: seq<LogEntry>

    constructor (assemblies: seq<string>)
      ensures this.assemblies == assemblies
      ensures includeCategory == excludeCategory == fixture == xsltTransformFile == ""
      ensures outputXmlFile == errorOutputFile == workingDirectory == projectConfiguration == ""
      ensures framework == toolPath == ""
      ensures !disableShadowCopy && !force32Bit && testInNewThreadSetting == None
      ensures log == []
    {
      this.assemblies := assemblies;
      includeCategory := "";
      excludeCategory := "";
      fixture := "";
      xsltTransformFile := "";
      outputXmlFile := "";
      errorOutputFile := "";
      workingDirectory := "";
      disableShadowCopy := false;
      projectConfiguration := "";
      testInNewThreadSetting := None;
      force32Bit := false;
      framework := "";
      toolPath := "";
      log := [];
    }

    /** The TestInNewThread getter: true until it is set, then the value set. */
    function TestInNewThread(): bool
      reads this
    {
      testInNewThreadSetting.None? || testInNewThreadSetting.value
    }

    /** The TestInNewThread setter. */
    method SetTestInNewThread(value: bool)
      modifies this`testInNewThreadSetting
      ensures testInNewThreadSetting == Some(value)
      ensures TestInNewThread() == value
    {
      testInNewThreadSetting := Some(value);
    }

    /** The console executable under ToolPath, the 32-bit one when Force32Bit. */
    function RealProgramName(sep: char): (r: string)
      reads this
    {
      Combine(toolPath, if force32Bit then ConsoleX86Exe else ConsoleExe, sep)
    }

    /** RealProgramName names the 32-bit console exactly when Force32Bit is set. */
    lemma {:induction false} RealProgramNameChoice(sep: char)
      ensures EndsWith(RealProgramName(sep), ConsoleX86Exe) <==> force32Bit
      ensures EndsWith(RealProgramName(sep), ConsoleExe) <==> !force32Bit
    {
      var r := RealProgramName(sep);
      if force32Bit {
        assert r[|r| - 8] == ConsoleX86Exe[13];
        assert r[|r| - 8] != ConsoleExe[9];
      } else {
        assert r[|r| - 8] == ConsoleExe[9];
        if |ConsoleX86Exe| <= |r| {
          assert r[|r| - 8] != ConsoleX86Exe[13];
        }
      }
    }

    /** The words before the assemblies: the Mono prefix, when the Mono runtime is used. */
    function Head(host: Host): string
      reads this
    {
      if host.mono != "" then "--debug " + RealProgramName(DirSeparator(host.platform)) else ""
    }

    /** The switch of rank r, carrying the value of its property. */
    function SwitchAt(r: nat): (sw: Switch)
      requires r < 12
      reads this
      ensures Rank(sw) == r
    {
      if r == 0 then NoLogo
      else if r == 1 then NoShadow
      else if r == 2 then NoThread
      else if r == 3 then Config(projectConfiguration)
      else if r == 4 then Fixture(fixture)
      else if r == 5 then Include(includeCategory)
      else if r == 6 then Exclude(excludeCategory)
      else if r == 7 then Transform(xsltTransformFile)
      else if r == 8 then Xml(outputXmlFile)
      else if r == 9 then ErrorOutput(errorOutputFile)
      else if r == 10 then Framework(framework)
      else Labels
    }

    /** Whether the task emits the switch of rank r: nologo and labels always, the others when their property is set. */
    predicate Wanted(r: nat)
      reads this
    {
      if r == 0 then true
      else if r == 1 then disableShadowCopy
      else if r == 2 then !TestInNewThread()
      else if r == 3 then projectConfiguration != ""
      else if r == 4 then fixture != ""
      else if r == 5 then includeCategory != ""
      else if r == 6 then excludeCategory != ""
      else if r == 7 then xsltTransformFile != ""
      else if r == 8 then outputXmlFile != ""
      else if r == 9 then errorOutputFile != ""
      else if r == 10 then framework != ""
      else r == 11
    }

    /** The wanted switches of rank below n, in rank order. */
    function SwitchesUpTo(n: nat): seq<Switch>
      requires n <= 12
      reads this
      decreases n
    {
      if n == 0 then [] else SwitchesUpTo(n - 1) + Opt(Wanted(n - 1), SwitchAt(n - 1))
    }

    /** The switches the properties call for, in the order the task emits them. */
    function SwitchList(): seq<Switch>
      reads this
    {
      SwitchesUpTo(12)
    }

    lemma {:induction false} SwitchesUpToAscending(n: nat)
      requires n <= 12
      ensures AscendingBelow(SwitchesUpTo(n), n)
      decreases n
    {
      if n > 0 {
        SwitchesUpToAscending(n - 1);
        AppendRanked(SwitchesUpTo(n - 1), Wanted(n - 1), SwitchAt(n - 1));
      }
    }

    /** A switch is among the first n exactly when its rank is below n, it is wanted, and it carries its property's value. */
    lemma {:induction false} SwitchesUpToMembers(n: nat)
      requires n <= 12
      ensures forall sw :: sw in SwitchesUpTo(n) <==> Rank(sw) < n && Wanted(Rank(sw)) && sw == SwitchAt(Rank(sw))
      decreases n
    {
      if n > 0 {
        SwitchesUpToMembers(n - 1);
      }
    }

    /** The command line ProgramArguments returns. */
    function Arguments(host: Host): string
      reads this
    {
      AppendSpaced(Head(host), assemblies) + RenderAll(SwitchChar(host.platform), SwitchList())
    }

    /**
     * The switches come in the fixed order: nologo first, labels last, and
     * every switch at most once with strictly increasing rank between.
     */
    lemma {:induction false} SwitchOrder()
      ensures var sws := SwitchList();
        |sws| >= 2 && sws[0] == NoLogo && sws[|sws| - 1] == Labels && Ascending(sws)
    {
      var sws := SwitchList();
      SwitchesUpToAscending(12);
      AscendingBelowIsAscending(sws, 12);
      SwitchesUpToMembers(12);
      assert Wanted(0) && NoLogo == SwitchAt(0);
      assert NoLogo in sws;
      assert Wanted(11) && SwitchAt(11) == Labels;
      assert sws == SwitchesUpTo(11) + [Labels];
      assert NoLogo in SwitchesUpTo(11) by {
        SwitchesUpToMembers(11);
      }
    }

    /**
     * Each optional switch is present exactly when its property is set, and
     * carries that property's value; nothread appears exactly when
     * TestInNewThread was set to false.
     */
    lemma {:induction false} SwitchPresence()
      ensures NoLogo in SwitchList() && Labels in SwitchList()
      ensures NoShadow in SwitchList() <==> disableShadowCopy
      ensures NoThread in SwitchList() <==> !TestInNewThread()
      ensures forall v :: Config(v) in SwitchList() <==> v == projectConfiguration != ""
      ensures forall v :: Fixture(v) in SwitchList() <==> v == fixture != ""
      ensures forall v :: Include(v) in SwitchList() <==> v == includeCategory != ""
      ensures forall v :: Exclude(v) in SwitchList() <==> v == excludeCategory != ""
      ensures forall v :: Transform(v) in SwitchList() <==> v == xsltTransformFile != ""
      ensures forall v :: Xml(v) in SwitchList() <==> v == outputXmlFile != ""
      ensures forall v :: ErrorOutput(v) in SwitchList() <==> v == errorOutputFile != ""
      ensures forall v :: Framework(v) in SwitchList() <==> v == framework != ""
    {
      SwitchesUpToMembers(12);
      assert SwitchAt(0) == NoLogo && SwitchAt(1) == NoShadow && SwitchAt(2) == NoThread;
      assert SwitchAt(3) == Config(projectConfiguration) && SwitchAt(4) == Fixture(fixture);
      assert SwitchAt(5) == Include(includeCategory) && SwitchAt(6) == Exclude(excludeCategory);
      assert SwitchAt(7) == Transform(xsltTransformFile) && SwitchAt(8) == Xml(outputXmlFile);
      assert SwitchAt(9) == ErrorOutput(errorOutputFile) && SwitchAt(10) == Framework(framework);
      assert SwitchAt(11) == Labels;
    }

    /**
     * Without the Mono runtime the command line starts with the assemblies in
     * the given order, joined by single spaces (which SplitJoin splits back
     * into the assemblies), and the switches follow.
     */
    lemma {:induction false} ArgumentsLayout(host: Host)
      requires host.mono == ""
      requires |assemblies| >= 1
      requires forall k :: 0 <= k < |assemblies| ==> assemblies[k] != ""
      ensures Arguments(host) == Join(assemblies, ' ') + RenderAll(SwitchChar(host.platform), SwitchList())
    {
      AppendSpacedJoin(Head(host), assemblies);
    }

    /** With the Mono runtime, "--debug ", the console executable and a space come first. */
    lemma {:induction false} ArgumentsLayoutMono(host: Host)
      requires host.mono != ""
      requires |assemblies| >= 1
      requires forall k :: 0 <= k < |assemblies| ==> assemblies[k] != ""
      ensures Arguments(host) == "--debug " + RealProgramName(DirSeparator(host.platform)) + " " + Join(assemblies, ' ')
        + RenderAll(SwitchChar(host.platform), SwitchList())
    {
      AppendSpacedJoin(Head(host), assemblies);
    }

    /** The command line always ends with the labels switch. */
    lemma {:induction false} ArgumentsEndWithLabels(host: Host)
      ensures EndsWith(Arguments(host), " " + [SwitchChar(host.platform)] + "labels")
    {
      var sws := SwitchList();
      assert sws[|sws| - 1] == Labels;
    }

    /**
     * Environment.CurrentDirectory for the test run: WorkingDirectory when
     * set, and otherwise the full path of the directory of the first
     * assembly. None where .NET throws: there is no assembly, the first one
     * is a bare root (GetFullPath(null) throws) or it has no directory part
     * (GetFullPath("") throws).
     */
    function GetWorkingDirectory(host: Host): (r: Option<string>)
      requires IsRooted(host.cwd)
      reads this
      ensures workingDirectory != "" ==> r == Some(workingDirectory)
      ensures workingDirectory == "" ==>
        (r.None? <==> assemblies == [] || DirectoryName(assemblies[0]) in {None, Some("")})
      ensures workingDirectory == "" && r.Some? ==>
        IsRooted(r.value) && EndsWith(r.value, DirectoryName(assemblies[0]).value)
      ensures workingDirectory == "" && assemblies != [] && IsRooted(assemblies[0]) ==>
        r == DirectoryName(assemblies[0])
    {
      if workingDirectory != "" then Some(workingDirectory)
      else if assemblies == [] then None
      else
        match DirectoryName(assemblies[0])
        case None => None
        case Some(dir) =>
          assert IsRooted(assemblies[0]) ==> IsRooted(dir) by {
            if IsRooted(assemblies[0]) {
              assert dir[..RootLength(assemblies[0])] == assemblies[0][..RootLength(assemblies[0])];
            }
          }
          FullPath(dir, host.cwd, DirSeparator(host.platform))
    }

    /** The text the base class waits for in the console output. */
    function GetTestsCompletedString(): (s: string)
      ensures !IsTestLine(s)
    {
      CompletionLineNotTest();
      TestsCompleted
    }

    /** The base names of the assemblies, joined by single spaces. */
    function FixtureNames(): string
      reads this
    {
      AppendSpaced("", BaseNames(assemblies))
    }

    /** The name the base class reports the run under. */
    function TestProgramName(): (r: string)
      reads this
    {
      "NUnit (" + FixtureNames() + ")"
    }

    /**
     * When every assembly has a non-empty base name without spaces, the name in
     * the parentheses splits back into those base names, in order.
     */
    lemma {:induction false} TestProgramNameNamesAssemblies()
      requires |assemblies| >= 1
      requires forall k :: 0 <= k < |assemblies| ==>
        FileNameWithoutExtension(assemblies[k]) != "" && ' ' !in FileNameWithoutExtension(assemblies[k])
      ensures var r := TestProgramName();
        StartsWith(r, "NUnit (") && EndsWith(r, ")") &&
        Split(r[7..|r| - 1], ' ') == BaseNames(assemblies)
    {
      var r := TestProgramName();
      assert r[7..|r| - 1] == FixtureNames();
      BaseNamesInOrder(assemblies);
      AppendSpacedSplits(BaseNames(assemblies));
    }

    /** The FixturePath getter. */
    method FixturePath() returns (path: string)
      ensures path == FixtureNames()
    {
      path := "";
      var i := 0;
      while i < |assemblies|
        invariant 0 <= i <= |assemblies|
        invariant path == AppendSpaced("", BaseNames(assemblies[..i]))
      {
        if |path| > 0 {
          path := path + " ";
        }
        path := path + FileNameWithoutExtension(assemblies[i]);
        assert assemblies[..i + 1][..i] == assemblies[..i];
        i := i + 1;
      }
      assert assemblies[..i] == assemblies;
    }

    /** The FailedSuiteNames getter: one base name per assembly, in order. */
    method FailedSuiteNames() returns (suites: array<string>)
      ensures fresh(suites)
      ensures suites.Length == |assemblies|
      ensures forall k :: 0 <= k < suites.Length ==> suites[k] == FileNameWithoutExtension(assemblies[k])
    {
      suites := new string[|assemblies|];
      for i := 0 to |assemblies|
        invariant forall k :: 0 <= k < i ==> suites[k] == FileNameWithoutExtension(assemblies[k])
      {
        suites[i] := FileNameWithoutExtension(assemblies[i]);
      }
    }

    /** The failed suites, joined the FixturePath way, give the fixture path. */
    lemma {:induction false} FailedSuitesMakeFixturePath(suites: seq<string>)
      requires |suites| == |assemblies|
      requires forall k :: 0 <= k < |suites| ==> suites[k] == FileNameWithoutExtension(assemblies[k])
      ensures AppendSpaced("", suites) == FixtureNames()
    {
      BaseNamesInOrder(assemblies);
      assert suites == BaseNames(assemblies);
    }

    /**
     * EnsureToolPath: keep ToolPath when it holds nunit-console.exe, else try
     * the directories of PATH, then the NUnit installations under Program
     * Files, then the install directories in the registry, and fall back to ".".
     */
    method EnsureToolPath(host: Host)
      modifies this`toolPath
      ensures toolPath == ProbeToolPath(old(toolPath), host)
    {
      if toolPath != "" && HoldsConsole(toolPath, host) {
        return;
      }
      var found := SearchPath(host);
      if found.None? {
        found := SearchProgramFiles(host);
      }
      if found.None? {
        found := SearchRegistry(host);
      }
      toolPath := if found.Some? then found.value else ".";
    }

    /** The executable to start: the Mono runtime when set, else the console under ToolPath. */
    method ProgramName(host: Host) returns (name: string)
      modifies this`toolPath
      ensures host.mono != "" ==> name == host.mono && toolPath == old(toolPath)
      ensures host.mono == "" ==>
        toolPath == ProbeToolPath(old(toolPath), host) && name == RealProgramName(DirSeparator(host.platform))
    {
      if host.mono != "" {
        return host.mono;
      }
      EnsureToolPath(host);
      name := RealProgramName(DirSeparator(host.platform));
    }

    /** The text of the wanted switches of rank below n, built one rank at a time. */
    function RenderedUpTo(c: char, n: nat): string
      requires n <= 12
      reads this
      decreases n
    {
      if n == 0 then "" else RenderedUpTo(c, n - 1) + (if Wanted(n - 1) then Render(c, SwitchAt(n - 1)) else "")
    }

    /** Built one rank at a time, the text is that of the switches below n rendered in order. */
    lemma {:induction false} RenderedUpToIsRenderAll(c: char, n: nat)
      requires n <= 12
      ensures RenderedUpTo(c, n) == RenderAll(c, SwitchesUpTo(n))
      decreases n
    {
      if n > 0 {
        RenderedUpToIsRenderAll(c, n - 1);
        RenderAllSnoc(c, SwitchesUpTo(n - 1), Wanted(n - 1), SwitchAt(n - 1));
      }
    }

    /**
     * One `if (...) AppendFormat(...)` of ProgramArguments: present is the
     * condition the task tests and sw the switch it appends. Given that the
     * builder holds the head and the switches of rank below r, it then holds
     * those of rank below r + 1.
     */
    method AppendSwitch(c: char, ghost head: string, b: string, r: nat, present: bool, sw: Switch)
      returns (b': string)
      requires r < 12 && present == Wanted(r) && sw == SwitchAt(r)
      requires b == head + RenderedUpTo(c, r)
      ensures b' == head + RenderedUpTo(c, r + 1)
    {
      b' := b;
      if present {
        b' := b' + Render(c, sw);
        ConcatAssociative(head, RenderedUpTo(c, r), Render(c, sw));
      } else {
        assert RenderedUpTo(c, r) + "" == RenderedUpTo(c, r);
      }
    }

    /** The switch half of ProgramArguments: the switches, with c as the switch character, after head. */
    method AppendSwitches(c: char, head: string) returns (args: string)
      ensures args == head + RenderAll(c, SwitchList())
    {
      var b := head;
      assert head + "" == head;
      b := AppendSwitch(c, head, b, 0, true, NoLogo);
      b := AppendSwitch(c, head, b, 1, disableShadowCopy, NoShadow);
      b := AppendSwitch(c, head, b, 2, testInNewThreadSetting.Some? && !testInNewThreadSetting.value, NoThread);
      b := AppendSwitch(c, head, b, 3, projectConfiguration != "", Config(projectConfiguration));
      b := AppendSwitch(c, head, b, 4, fixture != "", Fixture(fixture));
      b := AppendSwitch(c, head, b, 5, includeCategory != "", Include(includeCategory));
      b := AppendSwitch(c, head, b, 6, excludeCategory != "", Exclude(excludeCategory));
      b := AppendSwitch(c, head, b, 7, xsltTransformFile != "", Transform(xsltTransformFile));
      b := AppendSwitch(c, head, b, 8, outputXmlFile != "", Xml(outputXmlFile));
      b := AppendSwitch(c, head, b, 9, errorOutputFile != "", ErrorOutput(errorOutputFile));
      b := AppendSwitch(c, head, b, 10, framework != "", Framework(framework));
      b := AppendSwitch(c, head, b, 11, true, Labels);
      RenderedUpToIsRenderAll(c, 12);
      args := b;
    }

    /** The command line for nunit-console. */
    method ProgramArguments(host: Host) returns (args: string)
      modifies this`toolPath
      ensures toolPath == if host.mono != "" then ProbeToolPath(old(toolPath), host) else old(toolPath)
      ensures args == Arguments(host)
    {
      var b := "";
      if host.mono != "" {
        EnsureToolPath(host);
        b := b + "--debug ";
        b := b + RealProgramName(DirSeparator(host.platform));
      }
      var i := 0;
      while i < |assemblies|
        invariant 0 <= i <= |assemblies|
        invariant b == AppendSpaced(Head(host), assemblies[..i])
      {
        if |b| > 0 {
          b := b + " ";
        }
        b := b + assemblies[i];
        assert assemblies[..i + 1][..i] == assemblies[..i];
        i := i + 1;
      }
      assert assemblies[..i] == assemblies;
      var switchChar := SwitchChar(host.platform);
      args := AppendSwitches(switchChar, b);
    }

    /**
     * ProcessOutput: log the console lines that do not name a test, collect
     * the trimmed ones that do, and when the run timed out return the result
     * file written in place of NUnit's. Opening that file throws when
     * OutputXmlFile is unset; the lines are logged before that.
     */
    method ProcessOutput(testLog: seq<string>, timedOut: bool, date: string, clock: string,
                         suiteSeconds: string, caseSeconds: string) returns (report: Result<Option<Node>, OutputError>)
      requires |testLog| <= Int32.Max
      modifies this`log
      ensures log == old(log) + Echoed(testLog)
      ensures report == if !timedOut then Ok(None)
        else if outputXmlFile == "" then Err(NoOutputXmlFile)
        else Ok(Some(TimeoutReport(FixtureNames(), Collected(testLog), date, clock, suiteSeconds, caseSeconds)))
    {
      var lines: seq<string> := [];
      var i := 0;
      while i < |testLog|
        invariant 0 <= i <= |testLog|
        invariant lines == Collected(testLog[..i])
        invariant log == old(log) + Echoed(testLog[..i])
      {
        var line := testLog[i];
        var trimmedLine := Trim(line, WhiteSpace);
        assert testLog[..i + 1][..i] == testLog[..i];
        if StartsWith(trimmedLine, TestLinePrefix) {
          lines := lines + [trimmedLine];
        } else {
          log := log + [LogEntry(Normal, Verbatim(line))];
        }
        i := i + 1;
      }
      assert testLog[..i] == testLog;
      if !timedOut {
        return Ok(None);
      }
      if outputXmlFile == "" {
        return Err(NoOutputXmlFile);
      }
      var doc := WriteTimeoutReport(lines, date, clock, suiteSeconds, caseSeconds);
      report := Ok(Some(doc));
    }

    /**
     * The result file ProcessOutput writes when the run timed out, from the
     * collected test lines.
     */
    method WriteTimeoutReport(lines: seq<string>, date: string, clock: string,
                              suiteSeconds: string, caseSeconds: string) returns (doc: Node)
      requires |lines| <= Int32.Max
      requires forall k :: 0 <= k < |lines| ==> StartsWith(lines[k], TestLinePrefix)
      ensures doc == TimeoutReport(FixtureNames(), lines, date, clock, suiteSeconds, caseSeconds)
    {
      var name := FixturePath();
      var tried: seq<string> := [];
      var j := 0;
      while j < |lines|
        invariant 0 <= j <= |lines|
        invariant tried == Tried(lines[..j])
      {
        tried := tried + [lines[j][6..]];
        assert lines[..j + 1][..j] == lines[..j];
        j := j + 1;
      }
      assert lines[..j] == lines;
      doc := Element("test-results", TimeoutCounts(name, |lines|, date, clock),
        [TimeoutSuite(name, suiteSeconds, caseSeconds), Comment([TriedHeading] + tried)]);
    }
  }

  /* ---------------------------------------------------------------------- */
  /* The Program Files probe as written                                      */
  /* ---------------------------------------------------------------------- */

  /**
   * Directory.EnumerateDirectories over Program Files yields rooted paths, and
   * no rooted path starts with "NUnit": the probe as written never answers.
   */
  lemma {:induction false} ProgramFilesProbeAsWrittenNeverFires(host: Host)
    requires forall k :: 0 <= k < |host.programFiles| ==> IsRooted(host.programFiles[k])
    ensures ProgramFilesProbeAsWritten(host) == None
  {
    var dirs := host.programFiles;
    forall k | 0 <= k < |dirs|
      ensures !NUnitInstallAsWritten(host)(dirs[k])
    {
      RootedIsNotNUnit(dirs[k]);
    }
    FirstWhereNone(dirs, NUnitInstallAsWritten(host));
  }

  lemma RootedIsNotNUnit(d: string)
    requires IsRooted(d)
    ensures !StartsWith(d, "NUnit")
  {
    if |d| >= 5 {
      assert d[..5][0] == d[0] && d[..5][1] == d[1];
    }
  }

  /**
   * On a machine whose Program Files holds an NUnit installation, the probe
   * as written still finds nothing, while the intended probe answers a
   * directory that holds the console.
   */
  lemma {:induction false} ProgramFilesProbeCounterexample(host: Host, i: nat)
    requires forall k :: 0 <= k < |host.programFiles| ==> IsRooted(host.programFiles[k])
    requires i < |host.programFiles| && IsNUnitInstall(host.programFiles[i], host)
    ensures ProgramFilesProbeAsWritten(host) == None
    ensures ProgramFilesProbe(host).Some? && HoldsConsole(ProgramFilesProbe(host).value, host)
  {
    ProgramFilesProbeAsWrittenNeverFires(host);
    FirstWhereIsFirst(host.programFiles, NUnitInstallIn(host));
    assert NUnitInstallIn(host)(host.programFiles[i]);
    ProgramFilesProbeFindsConsole(host);
  }

  /** A Program Files entry NUnit 2.6.4 whose bin directory holds the console. */
  function InstalledHost(): Host {
    var dir := "C:\\Program Files\\" + "NUnit 2.6.4";
    Host("", "", Win32NT, "C:\\", [dir], None, {Combine(dir, Combine("bin", ConsoleExe, '\\'), '\\')})
  }

  /** InstalledHost meets the conditions of ProgramFilesProbeCounterexample. */
  lemma {:induction false} InstalledHostIsCounterexample()
    ensures var host := InstalledHost();
      (forall k :: 0 <= k < |host.programFiles| ==> IsRooted(host.programFiles[k])) &&
      IsNUnitInstall(host.programFiles[0], host)
  {
    var dir := "C:\\Program Files\\" + "NUnit 2.6.4";
    assert dir[1] == ':';
    FileNameAfterSeparator("C:\\Program Files\\", "NUnit 2.6.4");
    assert "NUnit 2.6.4"[..5] == "NUnit";
  }

  /**
   * Even where the name test passes (a relative Program Files entry), the
   * ToolPath the probe as written answers does not hold the console: it
   * names the installation directory, not its bin.
   */
  lemma {:induction false} ProgramFilesProbeAsWrittenMissesBin()
    ensures var host := Host("", "", Win32NT, "C:\\", ["NUnit"], None,
        {Combine("NUnit", Combine("bin", ConsoleExe, '\\'), '\\')});
      ProgramFilesProbeAsWritten(host) == Some("NUnit") && !HoldsConsole("NUnit", host)
  {
    var inner := Combine("bin", ConsoleExe, '\\');
    var host := Host("", "", Win32NT, "C:\\", ["NUnit"], None, {Combine("NUnit", inner, '\\')});
    assert !IsRooted(ConsoleExe) by { assert ConsoleExe[0] == 'n' && ConsoleExe[1] == 'u'; }
    assert !IsRooted(inner) by { assert inner[0] == 'b' && inner[1] == 'i'; }
    assert |Combine("NUnit", ConsoleExe, '\\')| < |Combine("NUnit", inner, '\\')|;
    assert NUnitInstallAsWritten(host)("NUnit");
    FirstWhereAt(["NUnit"], NUnitInstallAsWritten(host), 0);
  }
}
