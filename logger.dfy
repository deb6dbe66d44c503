/**
 * The scan logger: results are written under a date-partitioned directory
 * `<base dir>/<YYYY-MM-DD>`, one file `<prefix>_<HHMMSS>.<ext>` per call, as
 * JSON, as plain text or as Markdown wrapping the JSON.
 *
 * The clock is a parameter (a reading of the local date and time), the
 * serialisers `json.dumps(..., indent=2)` and `str` are parameters, and the
 * filesystem is a set of directory paths and a map from file paths to
 * contents.
 */
module Logging {
  import opened Wrappers
  import opened Text
  import opened Decimal

  const DefaultBaseDir: string := "logs"
  const DefaultPrefix: string := "scan"

  // ---------------------------------------------------------------------
  // Clock readings and their text

  /** One reading of the local clock, down to the second. */
  datatype DateTime = DateTime(year: nat, month: nat, day: nat, hour: nat, minute: nat, second: nat)

  predicate ValidDateTime(t: DateTime) {
    && 1 <= t.year <= 9999 && 1 <= t.month <= 12 && 1 <= t.day <= 31
    && t.hour < 24 && t.minute < 60 && t.second < 60
  }

  lemma SmallPowers()
    ensures Pow10(2) == 100 && Pow10(4) == 10000
  {
    assert Pow10(1) == 10;
    assert Pow10(3) == 1000;
  }

  /** `strftime("%Y-%m-%d")`: four-digit year, two-digit month and day. */
  function DateStamp(t: DateTime): (r: string)
    requires ValidDateTime(t)
    ensures |r| == 10 && r[4] == '-' && r[7] == '-'
    ensures AllDigits(r[..4]) && DigitsValue(r[..4]) == t.year
    ensures AllDigits(r[5..7]) && DigitsValue(r[5..7]) == t.month
    ensures AllDigits(r[8..]) && DigitsValue(r[8..]) == t.day
  {
    SmallPowers();
    FixedWidthValue(t.year, 4);
    FixedWidthValue(t.month, 2);
    FixedWidthValue(t.day, 2);
    var y, m, d := FixedWidth(t.year, 4), FixedWidth(t.month, 2), FixedWidth(t.day, 2);
    var r := y + "-" + m + "-" + d;
    assert r[..4] == y && r[5..7] == m && r[8..] == d;
    r
  }

  /** `strftime("%H%M%S")`: two digits each for hour, minute and second. */
  function TimeStamp(t: DateTime): (r: string)
    requires ValidDateTime(t)
    ensures |r| == 6 && AllDigits(r)
    ensures AllDigits(r[..2]) && DigitsValue(r[..2]) == t.hour
    ensures AllDigits(r[2..4]) && DigitsValue(r[2..4]) == t.minute
    ensures AllDigits(r[4..]) && DigitsValue(r[4..]) == t.second
  {
    SmallPowers();
    FixedWidthValue(t.hour, 2);
    FixedWidthValue(t.minute, 2);
    FixedWidthValue(t.second, 2);
    var h, m, s := FixedWidth(t.hour, 2), FixedWidth(t.minute, 2), FixedWidth(t.second, 2);
    var r := h + m + s;
    assert r[..2] == h && r[2..4] == m && r[4..] == s;
    r
  }

  predicate SameDate(a: DateTime, b: DateTime) {
    a.year == b.year && a.month == b.month && a.day == b.day
  }

  predicate SameSecond(a: DateTime, b: DateTime) {
    a.hour == b.hour && a.minute == b.minute && a.second == b.second
  }

  /** Two readings give the same date text exactly when they fall on the same day. */
  lemma DateStampInjective(a: DateTime, b: DateTime)
    requires ValidDateTime(a) && ValidDateTime(b)
    ensures DateStamp(a) == DateStamp(b) <==> SameDate(a, b)
  {
    if DateStamp(a) == DateStamp(b) {
      assert DateStamp(a)[..4] == DateStamp(b)[..4];
      assert DateStamp(a)[5..7] == DateStamp(b)[5..7];
      assert DateStamp(a)[8..] == DateStamp(b)[8..];
    }
  }

  /** Two readings give the same time text exactly when they fall in the same second. */
  lemma TimeStampInjective(a: DateTime, b: DateTime)
    requires ValidDateTime(a) && ValidDateTime(b)
    ensures TimeStamp(a) == TimeStamp(b) <==> SameSecond(a, b)
  {
    if TimeStamp(a) == TimeStamp(b) {
      assert TimeStamp(a)[..2] == TimeStamp(b)[..2];
      assert TimeStamp(a)[2..4] == TimeStamp(b)[2..4];
      assert TimeStamp(a)[4..] == TimeStamp(b)[4..];
    }
  }

  // ---------------------------------------------------------------------
  // Paths, names and contents

  /** `os.path.join(dir, name)`, taken as plain concatenation with `/`. */
  function PathJoin(dir: string, name: string): string {
    dir + "/" + name
  }

  /** The directory part of a path: everything before its last `/`, or the
      empty path when it has none. */
  function Parent(p: string): string
    decreases |p|
  {
    if p == [] then [] else if p[|p| - 1] == '/' then p[..|p| - 1] else Parent(p[..|p| - 1])
  }

  datatype LogFormat = Json | Plaintext | Markdown

  function Extension(f: LogFormat): string {
    match f
    case Json => "json"
    case Plaintext => "txt"
    case Markdown => "md"
  }

  /** The directory of the day: the base directory joined with the date. */
  function LogDir(baseDir: string, today: DateTime): string
    requires ValidDateTime(today)
  {
    PathJoin(baseDir, DateStamp(today))
  }

  /** The name of a log file: prefix, underscore, time of day, extension. */
  function LogFileName(prefix: string, now: DateTime, f: LogFormat): string
    requires ValidDateTime(now)
  {
    prefix + "_" + TimeStamp(now) + "." + Extension(f)
  }

  /** The prefix the console front end logs a target's result under: `scan_`
      and the target with every dot turned into an underscore. */
  function TargetPrefix(target: string): (r: string)
    ensures |r| == |target| + 5 && r[..5] == "scan_"
    ensures forall i :: 0 <= i < |target| ==> r[5 + i] == if target[i] == '.' then '_' else target[i]
    ensures '.' !in r
  {
    "scan_" + ReplaceChar(target, '.', '_')
  }

  const MarkdownHeader: string := "# Scan Results\n```\n"
  const MarkdownFooter: string := "\n```\n"

  /** The Markdown log: a heading, then the JSON text in a fenced block. */
  function MarkdownDocument(json: string): string {
    MarkdownHeader + json + MarkdownFooter
  }

  /** Reads the JSON text back out of a Markdown log. */
  function MarkdownBody(doc: string): Option<string> {
    var h, f := |MarkdownHeader|, |MarkdownFooter|;
    if |doc| >= h + f && doc[..h] == MarkdownHeader && doc[|doc| - f..] == MarkdownFooter
    then Some(doc[h..|doc| - f])
    else None
  }

  // ---------------------------------------------------------------------
  // The filesystem

  /** Directories and regular files, each known by its full path. */
  datatype FsState = FsState(dirs: set<string>, files: map<string, string>)

  datatype IoError =
    | FileExists(path: string)
    | FileNotFound(path: string)
    | NotADirectory(path: string)
    | IsADirectory(path: string)

  /** `os.path.exists`: true of directories and of regular files alike. */
  predicate Exists(s: FsState, p: string) {
    p in s.dirs || p in s.files
  }

  /** `os.makedirs(p)`: fails when something already exists at `p`. */
  function MakeDirsEffect(s: FsState, p: string): Result<FsState, IoError> {
    if Exists(s, p) then Failure(FileExists(p)) else Success(FsState(s.dirs + {p}, s.files))
  }

  /** `if not os.path.exists(p): os.makedirs(p)`. */
  function EnsureDir(s: FsState, p: string): FsState {
    if Exists(s, p) then s else MakeDirsEffect(s, p).value
  }

  /** No path is both a directory and a regular file. */
  predicate WellFormed(s: FsState) {
    forall p :: p in s.dirs ==> p !in s.files
  }

  /** `open(path, 'w')` followed by writing `content`: the directory part of
      the path must be a directory; the file is created or truncated and
      refilled. */
  function WriteFile(s: FsState, path: string, content: string): Result<FsState, IoError> {
    var dir := Parent(path);
    if dir !in s.dirs then
      if dir in s.files then Failure(NotADirectory(path)) else Failure(FileNotFound(path))
    else if path in s.dirs then Failure(IsADirectory(path))
    else Success(FsState(s.dirs, s.files[path := content]))
  }

  /** The state after an operation that either succeeds with a new state or
      raises and leaves `s` as it was. */
  function Commit(r: Result<FsState, IoError>, s: FsState): (FsState, Outcome<IoError>) {
    match r
    case Success(s') => (s', Pass)
    case Failure(e) => (s, Fail(e))
  }

  /** One `log_*` call: the day's directory is made when absent (and stays
      made even when the write then fails), then the file is written in it. */
  function LogEffect(s: FsState, logDir: string, name: string, content: string): (FsState, Outcome<IoError>) {
    var s1 := EnsureDir(s, logDir);
    Commit(WriteFile(s1, PathJoin(logDir, name), content), s1)
  }

  /** The process's view of the disk. */
  class FileSystem {
    var dirs: set<string>
    var files: map<string, string>

    function State(): FsState
      reads this
    {
      FsState(dirs, files)
    }

    constructor (dirs: set<string>, files: map<string, string>)
      requires WellFormed(FsState(dirs, files))
      ensures State() == FsState(dirs, files)
    {
      this.dirs := dirs;
      this.files := files;
    }

    predicate PathExists(p: string)
      reads this
    {
      Exists(State(), p)
    }

    method MakeDirs(p: string) returns (outcome: Outcome<IoError>)
      requires WellFormed(State())
      modifies this
      ensures (State(), outcome) == Commit(MakeDirsEffect(old(State()), p), old(State()))
      ensures WellFormed(State())
    {
      if p in dirs || p in files {
        outcome := Fail(FileExists(p));
      } else {
        dirs := dirs + {p};
        outcome := Pass;
      }
    }

    method WriteText(path: string, content: string) returns (outcome: Outcome<IoError>)
      requires WellFormed(State())
      modifies this
      ensures (State(), outcome) == Commit(WriteFile(old(State()), path, content), old(State()))
      ensures WellFormed(State())
    {
      var dir := Parent(path);
      if dir !in dirs {
        outcome := if dir in files then Fail(NotADirectory(path)) else Fail(FileNotFound(path));
      } else if path in dirs {
        outcome := Fail(IsADirectory(path));
      } else {
        files := files[path := content];
        outcome := Pass;
      }
    }
  }

  // ---------------------------------------------------------------------
  // The logger

  class ScanLogger {
    const baseDir: string
    const fs: FileSystem

    /** The disk it writes to keeps directories and files apart. */
    ghost predicate Valid()
      reads this, fs
    {
      WellFormed(fs.State())
    }

    /** Records the base directory and makes it when nothing exists there. */
    constructor (fs: FileSystem, baseDir: string := DefaultBaseDir)
      requires WellFormed(fs.State())
      modifies fs
      ensures this.fs == fs && this.baseDir == baseDir
      ensures fs.State() == EnsureDir(old(fs.State()), baseDir)
      ensures Valid()
    {
      this.baseDir := baseDir;
      this.fs := fs;
      if !fs.PathExists(baseDir) {
        var made := fs.MakeDirs(baseDir);
      }
    }

    /** The directory of the day, made when absent. */
    method GetLogDir(today: DateTime) returns (logDir: string)
      requires ValidDateTime(today) && Valid()
      modifies fs
      ensures logDir == LogDir(baseDir, today)
      ensures fs.State() == EnsureDir(old(fs.State()), logDir)
      ensures Valid()
    {
      var stamp := DateStamp(today);
      logDir := PathJoin(baseDir, stamp);
      if !fs.PathExists(logDir) {
        var made := fs.MakeDirs(logDir);
      }
    }

    /** Writes `json.dumps(data, indent=2)` to `<prefix>_<HHMMSS>.json`.
        `today` is the clock reading taken for the directory, `now` the one
        taken for the file name. */
    method LogJson<D>(data: D, dumps: D -> string, today: DateTime, now: DateTime,
                      filenamePrefix: string := DefaultPrefix)
      returns (outcome: Outcome<IoError>)
      requires ValidDateTime(today) && ValidDateTime(now) && Valid()
      modifies fs
      ensures Valid()
      ensures (fs.State(), outcome)
              == LogEffect(old(fs.State()), LogDir(baseDir, today), LogFileName(filenamePrefix, now, Json), dumps(data))
    {
      var logDir := GetLogDir(today);
      var timestamp := TimeStamp(now);
      var filename := filenamePrefix + "_" + timestamp + ".json";
      assert filename == LogFileName(filenamePrefix, now, Json) by {
        ConcatAssoc(filenamePrefix + "_" + timestamp, ".", Extension(Json));
      }
      outcome := fs.WriteText(PathJoin(logDir, filename), dumps(data));
    }

    /** Writes `str(data)` to `<prefix>_<HHMMSS>.txt`. */
    method LogPlaintext<D>(data: D, repr: D -> string, today: DateTime, now: DateTime,
                           filenamePrefix: string := DefaultPrefix)
      returns (outcome: Outcome<IoError>)
      requires ValidDateTime(today) && ValidDateTime(now) && Valid()
      modifies fs
      ensures Valid()
      ensures (fs.State(), outcome)
              == LogEffect(old(fs.State()), LogDir(baseDir, today), LogFileName(filenamePrefix, now, Plaintext), repr(data))
    {
      var logDir := GetLogDir(today);
      var timestamp := TimeStamp(now);
      var filename := filenamePrefix + "_" + timestamp + ".txt";
      assert filename == LogFileName(filenamePrefix, now, Plaintext) by {
        ConcatAssoc(filenamePrefix + "_" + timestamp, ".", Extension(Plaintext));
      }
      outcome := fs.WriteText(PathJoin(logDir, filename), repr(data));
    }

    /** Writes the Markdown document around `json.dumps(data, indent=2)` to
        `<prefix>_<HHMMSS>.md`. */
    method LogMarkdown<D>(data: D, dumps: D -> string, today: DateTime, now: DateTime,
                          filenamePrefix: string := DefaultPrefix)
      returns (outcome: Outcome<IoError>)
      requires ValidDateTime(today) && ValidDateTime(now) && Valid()
      modifies fs
      ensures Valid()
      ensures (fs.State(), outcome)
              == LogEffect(old(fs.State()), LogDir(baseDir, today), LogFileName(filenamePrefix, now, Markdown),
                           MarkdownDocument(dumps(data)))
    {
      var logDir := GetLogDir(today);
      var timestamp := TimeStamp(now);
      var filename := filenamePrefix + "_" + timestamp + ".md";
      assert filename == LogFileName(filenamePrefix, now, Markdown) by {
        ConcatAssoc(filenamePrefix + "_" + timestamp, ".", Extension(Markdown));
      }
      var content := "# Scan Results\n" + "```\n" + dumps(data) + "\n```\n";
      MarkdownWritesDocument(dumps(data));
      outcome := fs.WriteText(PathJoin(logDir, filename), content);
    }
  }

  // ---------------------------------------------------------------------
  // Properties

  /** After `EnsureDir` the path exists; it was made only if nothing existed
      there, and nothing else changed. */
  lemma EnsureDirSpec(s: FsState, p: string)
    ensures Exists(EnsureDir(s, p), p)
    ensures EnsureDir(s, p).files == s.files
    ensures EnsureDir(s, p).dirs == if Exists(s, p) then s.dirs else s.dirs + {p}
  {
  }

  /** Making the same directory a second time changes nothing. */
  lemma EnsureDirIdempotent(s: FsState, p: string)
    ensures EnsureDir(EnsureDir(s, p), p) == EnsureDir(s, p)
  {
  }

  /** Two readings on the same day give the same directory, and the second
      visit leaves the directory set alone; readings on different days give
      different directories. */
  lemma LogDirPerDay(s: FsState, baseDir: string, a: DateTime, b: DateTime)
    requires ValidDateTime(a) && ValidDateTime(b)
    ensures LogDir(baseDir, a) == LogDir(baseDir, b) <==> SameDate(a, b)
    ensures SameDate(a, b) ==> EnsureDir(EnsureDir(s, LogDir(baseDir, a)), LogDir(baseDir, b)) == EnsureDir(s, LogDir(baseDir, a))
  {
    DateStampInjective(a, b);
    if LogDir(baseDir, a) == LogDir(baseDir, b) {
      var n := |baseDir| + 1;
      assert DateStamp(a) == LogDir(baseDir, a)[n..];
      assert DateStamp(b) == LogDir(baseDir, b)[n..];
    }
  }

  /** The day's directory is the base directory, a slash, and ten characters
      of date. */
  lemma LogDirShape(baseDir: string, today: DateTime)
    requires ValidDateTime(today)
    ensures var d := LogDir(baseDir, today);
      && |d| == |baseDir| + 11 && d[..|baseDir|] == baseDir && d[|baseDir|] == '/'
      && d[|baseDir| + 1..] == DateStamp(today)
  {
  }

  /** A log file's name is the prefix, an underscore, the six digits of the
      time of day, a dot and the format's extension. */
  lemma LogFileNameShape(prefix: string, now: DateTime, f: LogFormat)
    requires ValidDateTime(now)
    ensures var n, k := LogFileName(prefix, now, f), |prefix|;
      && |n| == k + 8 + |Extension(f)|
      && n[..k] == prefix && n[k] == '_' && n[k + 1..k + 7] == TimeStamp(now)
      && n[k + 7] == '.' && n[k + 8..] == Extension(f)
  {
    var n, k := LogFileName(prefix, now, f), |prefix|;
    assert n == prefix + "_" + TimeStamp(now) + "." + Extension(f);
    assert n[k + 1..k + 7] == TimeStamp(now);
    assert n[k + 8..] == Extension(f);
  }

  /** A log file's name pins down its second and its format; in particular the
      three log methods never collide and two calls with one prefix collide
      exactly when they fall in the same second. */
  lemma LogFileNameInjective(prefix: string, a: DateTime, fa: LogFormat, b: DateTime, fb: LogFormat)
    requires ValidDateTime(a) && ValidDateTime(b)
    ensures LogFileName(prefix, a, fa) == LogFileName(prefix, b, fb) <==> SameSecond(a, b) && fa == fb
  {
    var na, nb := LogFileName(prefix, a, fa), LogFileName(prefix, b, fb);
    if na == nb {
      var k := |prefix| + 1;
      assert |Extension(fa)| == |Extension(fb)|;
      assert fa == fb;
      assert TimeStamp(a) == na[k..k + 6];
      assert TimeStamp(b) == nb[k..k + 6];
      TimeStampInjective(a, b);
    } else if SameSecond(a, b) && fa == fb {
      TimeStampInjective(a, b);
    }
  }

  /** Joining one directory with two names gives one path only when the names agree. */
  lemma PathJoinInjective(dir: string, a: string, b: string)
    ensures PathJoin(dir, a) == PathJoin(dir, b) <==> a == b
  {
    if PathJoin(dir, a) == PathJoin(dir, b) {
      var k := |dir| + 1;
      assert a == PathJoin(dir, a)[k..];
      assert b == PathJoin(dir, b)[k..];
    }
  }

  /** A name without `/` joined to a directory has that directory as its
      directory part. */
  lemma {:induction false} ParentOfJoin(dir: string, name: string)
    requires '/' !in name
    ensures Parent(PathJoin(dir, name)) == dir
  {
    var p := PathJoin(dir, name);
    if name == [] {
      assert p[..|p| - 1] == dir;
    } else {
      var shorter := name[..|name| - 1];
      assert p[..|p| - 1] == PathJoin(dir, shorter);
      ParentOfJoin(dir, shorter);
    }
  }

  /** A suffix holding a `/` decides the directory part on its own. */
  lemma {:induction false} ParentAppend(a: string, b: string)
    requires '/' in b
    ensures Parent(a + b) == a + Parent(b)
    decreases |b|
  {
    var p := a + b;
    assert p[|p| - 1] == b[|b| - 1];
    if b[|b| - 1] == '/' {
      assert p[..|p| - 1] == a + b[..|b| - 1];
    } else {
      var shorter := b[..|b| - 1];
      assert p[..|p| - 1] == a + shorter;
      assert '/' in shorter by {
        var k :| 0 <= k < |b| && b[k] == '/';
        assert shorter[k] == '/';
      }
      ParentAppend(a, shorter);
    }
  }

  /** The directory part of a path built from a day's directory and a name:
      the day's directory itself when the name holds no `/`, and otherwise
      the day's directory joined with the name's own directory part. */
  lemma JoinedParent(logDir: string, name: string)
    ensures '/' !in name ==> Parent(PathJoin(logDir, name)) == logDir
    ensures '/' in name ==> Parent(PathJoin(logDir, name)) == PathJoin(logDir, Parent(name))
  {
    if '/' in name {
      ParentAppend(logDir + "/", name);
    } else {
      ParentOfJoin(logDir, name);
    }
  }

  /** A log file's name holds a `/` only when its prefix does. */
  lemma LogFileNameNoSlash(prefix: string, now: DateTime, f: LogFormat)
    requires ValidDateTime(now)
    ensures '/' in LogFileName(prefix, now, f) <==> '/' in prefix
  {
    var t, e := TimeStamp(now), Extension(f);
    var n := LogFileName(prefix, now, f);
    assert n == prefix + ("_" + t + "." + e);
    assert '/' !in "_" + t + "." + e by {
      assert !IsDigit('/');
      assert '/' !in e;
    }
  }

  /** The Markdown document gives back exactly the JSON text it wraps. */
  lemma MarkdownRoundTrip(json: string)
    ensures MarkdownBody(MarkdownDocument(json)) == Some(json)
  {
    var doc := MarkdownDocument(json);
    var h, f := |MarkdownHeader|, |MarkdownFooter|;
    assert doc[..h] == MarkdownHeader;
    assert doc[|doc| - f..] == MarkdownFooter;
    assert doc[h..|doc| - f] == json;
  }

  /** The text the Markdown method writes is the Markdown document. */
  lemma MarkdownWritesDocument(json: string)
    ensures "# Scan Results\n" + "```\n" + json + "\n```\n" == MarkdownDocument(json)
  {
    assert "# Scan Results\n" + "```\n" == MarkdownHeader;
  }

  /** A log call fails exactly when the file's path is taken by a directory,
      or the directory part of that path is not a directory afterwards: for a
      plain name, when the day's directory path is taken by a regular file;
      for a name holding a `/`, when the sub-directory it names under the
      day's directory is missing. Every failure names the file's path. When
      it succeeds it writes one file, at the computed path, with the given
      contents; no other file changes, and at most the day's directory is
      added. When it fails, the directory it made stays. */
  lemma LogEffectSpec(s: FsState, logDir: string, name: string, content: string)
    ensures var (s', outcome) := LogEffect(s, logDir, name, content);
      && var path := PathJoin(logDir, name);
      && (outcome.Pass? <==>
            && path !in s.dirs
            && if '/' in name then PathJoin(logDir, Parent(name)) in s.dirs
               else logDir in s.dirs || logDir !in s.files)
      && (outcome.Fail? ==> outcome.error.path == path)
      && s'.dirs == EnsureDir(s, logDir).dirs
      && (s'.dirs == s.dirs || s'.dirs == s.dirs + {logDir})
      && (outcome.Pass? ==> s'.files == s.files[path := content])
      && (outcome.Fail? ==> s' == EnsureDir(s, logDir))
      && (forall q :: q != path ==> (q in s'.files <==> q in s.files))
      && (forall q :: q != path && q in s.files ==> s'.files[q] == s.files[q])
  {
    var path := PathJoin(logDir, name);
    assert path != logDir by {
      assert |path| > |logDir|;
    }
    JoinedParent(logDir, name);
    if '/' in name {
      assert PathJoin(logDir, Parent(name)) != logDir by {
        assert |PathJoin(logDir, Parent(name))| > |logDir|;
      }
    }
  }

  /** A target holding a `/` (a network in CIDR notation) gives a log name
      whose directory part does not exist, so the write raises
      file-not-found and only the day's directory is left behind. */
  lemma SlashInNameNotFound(day: string, sub: string, rest: string, content: string)
    requires '/' !in sub && '/' !in rest
    ensures var s := FsState({DefaultBaseDir}, map[]);
      var logDir := PathJoin(DefaultBaseDir, day);
      var path := PathJoin(logDir, sub + "/" + rest);
      LogEffect(s, logDir, sub + "/" + rest, content)
        == (FsState({DefaultBaseDir, logDir}, map[]), Fail(FileNotFound(path)))
  {
    var logDir := PathJoin(DefaultBaseDir, day);
    var name := sub + "/" + rest;
    assert '/' in name by {
      assert name[|sub|] == '/';
    }
    var s := FsState({DefaultBaseDir}, map[]);
    var path := PathJoin(logDir, name);
    assert Parent(name) == sub by {
      ParentOfJoin(sub, rest);
    }
    assert Parent(path) == PathJoin(logDir, sub) by {
      JoinedParent(logDir, name);
    }
    assert |path| > |PathJoin(logDir, sub)| > |logDir| > |DefaultBaseDir|;
    var s1 := EnsureDir(s, logDir);
    assert s1 == FsState({DefaultBaseDir, logDir}, map[]);
    assert WriteFile(s1, path, content) == Failure(FileNotFound(path));
  }

  /** Every filesystem operation keeps directories and regular files apart. */
  lemma MakeDirsKeepsWellFormed(s: FsState, p: string)
    requires WellFormed(s)
    ensures MakeDirsEffect(s, p).Success? ==> WellFormed(MakeDirsEffect(s, p).value)
    ensures WellFormed(EnsureDir(s, p))
  {
  }

  lemma WriteFileKeepsWellFormed(s: FsState, path: string, content: string)
    requires WellFormed(s)
    ensures WriteFile(s, path, content).Success? ==> WellFormed(WriteFile(s, path, content).value)
  {
  }

  lemma LogEffectKeepsWellFormed(s: FsState, logDir: string, name: string, content: string)
    requires WellFormed(s)
    ensures WellFormed(LogEffect(s, logDir, name, content).0)
  {
    MakeDirsKeepsWellFormed(s, logDir);
    WriteFileKeepsWellFormed(EnsureDir(s, logDir), PathJoin(logDir, name), content);
  }

  /** Two writes of one file in the same second: the second replaces the
      first, leaving the filesystem as if only the second had happened. */
  lemma SameNameOverwrites(s: FsState, logDir: string, name: string, first: string, second: string)
    requires LogEffect(s, logDir, name, first).1.Pass?
    ensures var s1 := LogEffect(s, logDir, name, first).0;
      && LogEffect(s1, logDir, name, second).1.Pass?
      && LogEffect(s1, logDir, name, second).0 == LogEffect(s, logDir, name, second).0
      && LogEffect(s1, logDir, name, second).0.files[PathJoin(logDir, name)] == second
  {
    LogEffectSpec(s, logDir, name, first);
    var s1 := LogEffect(s, logDir, name, first).0;
    LogEffectSpec(s1, logDir, name, second);
    LogEffectSpec(s, logDir, name, second);
  }

  /** Logs written in different seconds, or in different formats, in the same
      directory are both kept. */
  lemma DistinctNamesBothKept(s: FsState, logDir: string, prefix: string, a: DateTime, fa: LogFormat,
                              ca: string, b: DateTime, fb: LogFormat, cb: string)
    requires ValidDateTime(a) && ValidDateTime(b)
    requires !(SameSecond(a, b) && fa == fb)
    requires LogEffect(s, logDir, LogFileName(prefix, a, fa), ca).1.Pass?
    requires LogEffect(LogEffect(s, logDir, LogFileName(prefix, a, fa), ca).0, logDir, LogFileName(prefix, b, fb), cb).1.Pass?
    ensures var s2 := LogEffect(LogEffect(s, logDir, LogFileName(prefix, a, fa), ca).0, logDir, LogFileName(prefix, b, fb), cb).0;
      && s2.files[PathJoin(logDir, LogFileName(prefix, a, fa))] == ca
      && s2.files[PathJoin(logDir, LogFileName(prefix, b, fb))] == cb
  {
    var na, nb := LogFileName(prefix, a, fa), LogFileName(prefix, b, fb);
    LogFileNameInjective(prefix, a, fa, b, fb);
    PathJoinInjective(logDir, na, nb);
    var s1 := LogEffect(s, logDir, na, ca).0;
    LogEffectSpec(s, logDir, na, ca);
    LogEffectSpec(s1, logDir, nb, cb);
  }

  /** A log call with a name free of `/`, into a day's directory path that
      no file occupies, whose file path no directory occupies: it succeeds,
      the day's directory exists and the file holds the contents. */
  lemma PlainNameLogs(s: FsState, logDir: string, name: string, content: string)
    requires '/' !in name && logDir !in s.files && PathJoin(logDir, name) !in s.dirs
    ensures LogEffect(s, logDir, name, content) == (FsState(s.dirs + {logDir}, s.files[PathJoin(logDir, name) := content]), Pass)
  {
    ParentOfJoin(logDir, name);
    assert EnsureDir(s, logDir).dirs == s.dirs + {logDir};
  }

  /** The sample run: a logger over an empty disk writes the same data in
      all three formats. With one reading of the date for the day's
      directory and one reading of the time for the three file names, it
      leaves the base directory, the day's directory and exactly three
      files. */
  method SampleRun<D>(data: D, dumps: D -> string, repr: D -> string, today: DateTime, now: DateTime)
    returns (fs: FileSystem)
    requires ValidDateTime(today) && ValidDateTime(now)
    ensures var dir := LogDir(DefaultBaseDir, today);
      && fs.dirs == {DefaultBaseDir, dir}
      && fs.files == map[PathJoin(dir, LogFileName(DefaultPrefix, now, Json)) := dumps(data),
                         PathJoin(dir, LogFileName(DefaultPrefix, now, Plaintext)) := repr(data),
                         PathJoin(dir, LogFileName(DefaultPrefix, now, Markdown)) := MarkdownDocument(dumps(data))]
  {
    var dir := LogDir(DefaultBaseDir, today);
    var nj, np, nm := LogFileName(DefaultPrefix, now, Json), LogFileName(DefaultPrefix, now, Plaintext),
                      LogFileName(DefaultPrefix, now, Markdown);
    ghost var pj, pp, pm := PathJoin(dir, nj), PathJoin(dir, np), PathJoin(dir, nm);
    assert pj != pp && pj != pm && pp != pm by {
      LogFileNameInjective(DefaultPrefix, now, Json, now, Plaintext);
      LogFileNameInjective(DefaultPrefix, now, Json, now, Markdown);
      LogFileNameInjective(DefaultPrefix, now, Plaintext, now, Markdown);
      PathJoinInjective(dir, nj, np);
      PathJoinInjective(dir, nj, nm);
      PathJoinInjective(dir, np, nm);
    }
    assert |pj| > |dir| && |pp| > |dir| && |pm| > |dir| && |dir| > |DefaultBaseDir| by {
      LogDirShape(DefaultBaseDir, today);
    }
    assert '/' !in nj && '/' !in np && '/' !in nm by {
      LogFileNameNoSlash(DefaultPrefix, now, Json);
      LogFileNameNoSlash(DefaultPrefix, now, Plaintext);
      LogFileNameNoSlash(DefaultPrefix, now, Markdown);
    }
    fs := new FileSystem({}, map[]);
    var logger := new ScanLogger(fs);
    assert fs.State() == FsState({DefaultBaseDir}, map[]);
    PlainNameLogs(fs.State(), dir, nj, dumps(data));
    var r1 := logger.LogJson(data, dumps, today, now);
    assert fs.State() == FsState({DefaultBaseDir, dir}, map[pj := dumps(data)]);
    PlainNameLogs(fs.State(), dir, np, repr(data));
    var r2 := logger.LogPlaintext(data, repr, today, now);
    assert fs.State() == FsState({DefaultBaseDir, dir}, map[pj := dumps(data), pp := repr(data)]);
    PlainNameLogs(fs.State(), dir, nm, MarkdownDocument(dumps(data)));
    var r3 := logger.LogMarkdown(data, dumps, today, now);
  }
}
