# Stealth nmap scanner and scan logger, in Dafny

This project models two pieces of a small nmap front end.

**Stealth option composition.** The stealth scanner's constructor takes six
optional evasion settings:

- a decoy list;
- packet fragmentation;
- an idle-scan zombie;
- a timing template;
- a source port;
- a TTL.

It appends one nmap option per truthy setting, in a fixed order
(`-D`, `-f`, `-sI`, `-T`, `--source-port`, `--ttl`), each preceded by a space.
It then strips the result, falls back to the SYN scan `-sS` when nothing is
left, and stores the string as the scanner's `scan_arguments`.

- `StealthScanner.ComposeStealthOptions` is that loop-free sequence of
  appends, written imperatively.
- `StealthScanner.NmapScanner` is the scanner class. Its field is set by the
  base constructor or by the stealth constructor `NmapScanner.Stealth`.
- The pure function `StealthArguments` is the specification. It reads the
  settings as a list of `Fragment`s (`Fragments`).
- Its partner is a parser, `ParseArguments`, that reads an argument string
  back into fragments.

Python's semantics are written out in helper modules:

- truthiness: a non-empty string, a non-zero integer (`TruthyString`, `TruthyInt`);
- `str.strip()` over Python's whitespace set (`Text.Strip`);
- splitting on a separator and joining with it (`Text.Split`, `Text.Join`).
  The source calls neither. `Join` with `" "` describes what the
  space-separated appends build, and `Split` is the reading side of the
  parser partner;
- `str(int)` for any integer (`Decimal.IntToDecimal`);
- zero-padded `strftime` fields (`Decimal.FixedWidth`).

**Scan logger.** `Logging.ScanLogger` writes each scan result under
`<base_dir>/<YYYY-MM-DD>` as `<prefix>_<HHMMSS>.<ext>`, in one of three formats:

- JSON, through `json.dumps(data, indent=2)`;
- plain text, through `str(data)`;
- Markdown: a `# Scan Results` heading and the JSON in a fenced block.

The disk is `Logging.FileSystem`, a class holding a set of directory paths and
a map from file paths to contents; `FsState` is its pure view.

- Each logger method ensures that the new state is a pure transition function
  (`EnsureDir`, `WriteFile`, `LogEffect`) applied to the old state.
- The properties are lemmas about those functions.
- Clock readings, `json.dumps` and `str` are parameters.

The console front end logs a target under the prefix `"scan_"` followed by
the target with dots replaced by underscores (`Logging.TargetPrefix`).

Files:

- `wrappers.dfy`: `Option`, `Result`, `Outcome`.
- `text.dfy`: whitespace, strip, split, join.
- `decimal.dfy`: decimal rendering and reading.
- `stealth_scanner.dfy`: the stealth scanner.
- `logger.dfy`: the logger.

## Model

| member | source | states |
|---|---|---|
| StealthScanner.NmapScanner.constructor | stealth_scanner.py:5-7 | the scanner keeps the caller's argument string, `-sS` by default |
| StealthScanner.NmapScanner.Stealth | stealth_scanner.py:26-45 | the stealth scanner's stored argument string is the one composed from its six settings; each setting defaults to unset or false |
| StealthScanner.ComposeStealthOptions | stealth_scanner.py:29-44 | six conditional appends, the strip and the `-sS` fallback together yield exactly `StealthArguments` of the settings |
| StealthScanner.Arguments | stealth_scanner.py:44 | the argument string is never empty |
| StealthScanner.UntrimmedOfFragments | stealth_scanner.py:29-42 | the text before stripping is the six pieces in source order, each empty when its setting is falsy |
| StealthScanner.UntrimmedIsJoin | stealth_scanner.py:29-42 | the text before stripping is a space followed by the present fragments joined by spaces |
| StealthScanner.ArgumentsAreTrimmedJoin | stealth_scanner.py:29-44 | with some fragment present, stripping removes exactly the leading space and trailing whitespace, and the string starts with the first fragment's flag |
| StealthScanner.ArgumentsDefaultIffEmpty | stealth_scanner.py:43-44 | the argument string is `-sS` if and only if no fragment is present |
| StealthScanner.DefaultIffNothingSet | stealth_scanner.py:44 | the argument string is `-sS` if and only if every setting is unset or falsy |
| StealthScanner.FragmentsMembers | stealth_scanner.py:30-42 | the fragments are exactly those of the truthy settings, each carrying its setting's value |
| StealthScanner.FragmentPresence | stealth_scanner.py:30-42 | `-f` is present iff fragmentation is on; `-D`, `-sI`, `-T`, `--source-port` and `--ttl` are each present iff their setting is truthy, carrying its value; `-T0` never appears |
| StealthScanner.FragmentsOrdered | stealth_scanner.py:30-42 | present fragments appear in the order `-D`, `-f`, `-sI`, `-T`, `--source-port`, `--ttl`, each at most once |
| StealthScanner.TimingWord | stealth_scanner.py:37-38 | with whitespace-free values, a truthy timing level appears as a single word: `-T` immediately followed by its decimal digits |

| StealthScanner.ArgumentsAreJoinedWords | stealth_scanner.py:29-44 | when values are words, the argument string is the fragments' words joined by single spaces and is single-spaced |
| StealthScanner.ArgumentsSingleSpaced | stealth_scanner.py:29-44 | with whitespace-free decoy and zombie, the result has no leading or trailing whitespace and no doubled space; with a setting active it is the present fragments' words joined by single spaces |
| StealthScanner.ParseAllWords | stealth_scanner.py:30-42 | the words of any fragment list read back as that list |
| StealthScanner.ParseArgumentsOf | stealth_scanner.py:29-44 | the argument string of word-valued fragments reads back as those fragments |
| StealthScanner.ParseRoundTrip | stealth_scanner.py:29-44 | with whitespace-free decoy and zombie, the argument string reads back as exactly the switched-on fragments, in order |
| StealthScanner.RandomDecoyExample | stealth_scanner.py:48-49 | decoy `RND:10`, fragmentation and timing 1 give exactly `-D RND:10 -f -T1` |
| StealthScanner.ExampleScanner | stealth_scanner.py:49 | the example stealth scanner stores `-D RND:10 -f -T1` |
| Text.TrimLeftSpec | stealth_scanner.py:44 | the left strip removes a leading whitespace run and leaves a string that does not start with whitespace |
| Text.TrimRightSpec | stealth_scanner.py:44 | the right strip removes a trailing whitespace run and leaves a string that does not end with whitespace |
| Text.StripUnique | stealth_scanner.py:44 | stripping whitespace runs off a core that neither starts nor ends with whitespace gives back that core |
| Text.SplitJoin | stealth_scanner.py:29-44 | the reading side of the parser partner: splitting words joined by a separator they do not contain gives back the words |
| Text.JoinSingleSpaced | stealth_scanner.py:29-44 | models the space-separated appends: non-empty, whitespace-free words joined by spaces form a single-spaced string |
| Decimal.NatToDecimalValue | stealth_scanner.py:38 | `str` of a natural number is digits whose value is the number |
| Decimal.IntToDecimalRoundTrip | stealth_scanner.py:38-42 | reading back `str(n)` gives `n`, negative numbers included |
| Decimal.FixedWidthValue | logger.py:12 | a number below 10^w written in w zero-padded digits has that value |
| Logging.DateStamp | logger.py:12 | the date text has 10 characters, dashes at positions 4 and 7, and digit groups whose values are year, month and day |
| Logging.TimeStamp | logger.py:20 | the time text has 6 characters, all digits, whose pairs are hour, minute and second |
| Logging.DateStampInjective | logger.py:12 | two readings give the same date text iff they fall on the same day |
| Logging.TimeStampInjective | logger.py:20 | two readings give the same time text iff they fall in the same second |
| Logging.ScanLogger.constructor | logger.py:6-9 | the logger keeps its base directory (default `logs`) and afterwards the base directory exists; an existing path is left unchanged; a disk with no path both a directory and a file stays so through every log method |
| Logging.EnsureDirSpec | logger.py:8-9 | after the existence check and `makedirs` the path exists; a directory was added only if nothing existed there; no file changes |
| Logging.EnsureDirIdempotent | logger.py:14-15 | making the day's directory a second time changes nothing |
| Logging.ScanLogger.GetLogDir | logger.py:11-16 | returns the base directory joined with the day's date text, and makes that directory when absent |
| Logging.LogDirShape | logger.py:12-13 | the day's directory is the base directory, `/`, and the 10-character date |
| Logging.LogDirPerDay | logger.py:12-16 | two readings give the same directory iff they fall on the same day; a second visit on the same day leaves the filesystem unchanged |
| Logging.LogFileNameShape | logger.py:20-21 | a log file is named prefix, `_`, the six time digits, `.`, extension |
| Logging.LogFileNameInjective | logger.py:20-21 | two file names with one prefix agree iff they fall in the same second and use the same format |
| Logging.PathJoinInjective | logger.py:21 | one directory joined with two names gives one path iff the names agree |
| Logging.ParentOfJoin | logger.py:21-22 | a name without `/` joined to a directory has that directory as its directory part |
| Logging.ParentAppend | logger.py:21-22 | a suffix holding `/` decides the directory part: the directory part of `a + b` is `a` followed by that of `b` |
| Logging.JoinedParent | logger.py:21-22 | the file opened lies directly in the day's directory when the name has no `/`, and otherwise in the sub-directory the name spells under it |
| Logging.LogFileNameNoSlash | logger.py:20-21 | a log file's name holds `/` iff its prefix does |
| Logging.FileSystem.MakeDirs | logger.py:9 | creating a directory fails with file-exists when the path is taken, and otherwise adds exactly that directory; no path becomes both a directory and a file |
| Logging.FileSystem.WriteText | logger.py:22-23 | opening a path for writing fails with file-not-found when its directory part is missing, not-a-directory when that part is a file, and is-a-directory when the path is a directory; otherwise the file at the path is set to the contents and nothing else changes |
| Logging.MakeDirsKeepsWellFormed | logger.py:8-9 | making a directory, or making it when absent, never leaves a path that is both a directory and a file |
| Logging.WriteFileKeepsWellFormed | logger.py:22-23 | writing a file never leaves a path that is both a directory and a file |
| Logging.LogEffectKeepsWellFormed | logger.py:19-23 | a whole log call never leaves a path that is both a directory and a file |
| Logging.ScanLogger.LogJson | logger.py:18-23 | the day's directory is made and `dumps(data)` is written to `<prefix>_<HHMMSS>.json` in it; prefix `scan` by default |
| Logging.ScanLogger.LogPlaintext | logger.py:26-31 | the day's directory is made and `str(data)` is written to `<prefix>_<HHMMSS>.txt` in it; prefix `scan` by default |
| Logging.ScanLogger.LogMarkdown | logger.py:34-42 | the day's directory is made and heading, fence, `dumps(data)` and closing fence are written to `<prefix>_<HHMMSS>.md` in it; prefix `scan` by default |
| Logging.MarkdownWritesDocument | logger.py:39-42 | the four writes of the Markdown method together form the Markdown document |
| Logging.MarkdownRoundTrip | logger.py:39-42 | the JSON text is read back unchanged from the Markdown document |
| Logging.LogEffectSpec | logger.py:19-23 | a log call fails iff the file's path is a directory or its directory part is not a directory: the day's path is a file (plain name) or the sub-directory a `/` in the name spells is missing; every error names the file's path; on success exactly one file (at the computed path) is written or overwritten; no other file changes; at most the day's directory is added; a directory it made stays even when the write fails |
| Logging.SameNameOverwrites | logger.py:22 | a second log in the same second and format replaces the first, leaving the state as if only the second had been written |
| Logging.DistinctNamesBothKept | logger.py:20-22 | logs from different seconds, or in different formats, are both kept with their own contents |
| Logging.PlainNameLogs | logger.py:19-23 | a log call with a `/`-free name, into a day's path no file takes, whose file path no directory takes, succeeds and adds exactly the day's directory and the file |
| Logging.SlashInNameNotFound | logger.py:21-22 | a name holding `/`, such as one built from a target in CIDR notation, makes the write raise file-not-found for the full path; only the day's directory is left behind |
| Logging.SampleRun | logger.py:45-50 | with one date reading for the day's directory and one time reading for the three file names (the source reads the clock six times), the logger's sample run on an empty disk leaves the base directory, the day's directory and exactly the three files with the JSON, text and Markdown contents |
| Logging.TargetPrefix | ui.py:43 | the console's log prefix is `scan_` then the target with every `.` turned into `_`, and holds no `.` |

Presence of an option is stated on `Fragments` (`StealthScanner.FragmentPresence`)
and carried to the string by `StealthScanner.ParseRoundTrip`, not on the
string's words. At the word level the if-and-only-if fails: a decoy `-f` with
fragmentation off gives `-D -f`, which holds the word `-f`. For the same reason
`StealthScanner.TimingWord` states one direction only.

## Left out

- nmap_scanner.py, `scan_target` and `save_scan` in both scanner files, and the scanner's `nm` (`nmap.PortScanner`) field. These are calls into the python-nmap library and the nmap binary, whose results the code passes through unexamined.
- The scan performed by the stealth scanner's sample run (stealth_scanner.py:50-52). Only the construction of its scanner is modelled.
- ui.py apart from the log prefix at line 43. The rest is console input, progress display and table rendering through the `rich` library.
- All `print` output, in every file.
- `json.dump`/`json.dumps` and `str` are parameters of the log methods. Their output is taken as given, including `json.dump` writing the same text as `json.dumps`.
- Serialisation errors are not modelled. A `json.dump` that raises part-way through leaves a partly written file in Python.
- `datetime.now()`: the directory's date reading and the file name's time reading are separate parameters, since the source reads the clock twice.
- `Logging.DateTime` validity does not check the day against the month's length. `strftime` only formats the fields.
- Filesystem failures outside the model's directory/file view are not modelled: permissions, full disks, races with other processes. The modelled failures are a path taken by the wrong kind of entry and a missing directory.
- Logging.ScanLogger.constructor: with an empty base directory Python's `os.makedirs("")` raises file-not-found and `os.path.join("", d)` is `d`. The model instead makes a directory named `""` and places the day's directory at `/<date>`.
- Logging.WriteFile: paths are compared as strings, without normalisation, so doubled or trailing slashes and `.`/`..` segments name other paths than on a real disk. Only the directory part itself is looked up; a regular file further up the path gives file-not-found where Python gives not-a-directory.
- Logging.FileSystem.MakeDirs: it creates only the named path. It neither creates nor checks ancestors, so it succeeds in cases where `os.makedirs` would raise because an ancestor is a regular file.
- Logging.PathJoin: `os.path.join` is plain concatenation with `/`. An absolute second argument or a trailing slash on the first is not special.
- Logging.ScanLogger.LogMarkdown: the four `write` calls are one write of their concatenation. Their intermediate file contents are not modelled.
- Logging.DateStamp: the year is always four zero-padded digits. For years below 1000, Python's `%Y` follows the platform's C library, which may not pad.
- StealthScanner.NmapScanner.Stealth: the subclass `StealthNmapScanner` is a named constructor of the same class, because only the stored argument string differs between the two.
- StealthScanner.StealthOptions: the settings are optional strings, a boolean and optional integers. Python accepts any value there; other types (a float timing, `True` for a port) are not modelled.
- StealthScanner.ParseRoundTrip: it holds only when the decoy and zombie strings contain no whitespace. Strip and split erase whitespace inside or around those values, so such strings do not read back.
