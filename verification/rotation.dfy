/**
 * The policy side of the rotating file writers of the golog package: the options and
 * their merge, the log dates read back from file names, and the removal of the log
 * files that are older than the retention period. The directory listing and its error
 * are an input; the removals act on the file system.
 */
module Rotation {
  import opened Wrappers
  import opened Levels
  import opened Paths
  import opened Dates
  import opened Files
  import opened LevelFiles

  /** FileLogOptions: retention in days (not positive: keep everything), directory, buffer size. */
  datatype FileLogOptions = FileLogOptions(expireDays: int, logDir: string, bufsize: int)

  /** newDefaultFileLogOptions starts from these. */
  const Defaults := FileLogOptions(14, "logs", 40960)

  /** merge: a non-zero retention, a non-empty directory and a positive buffer size override. */
  function Merge(f: FileLogOptions, o: FileLogOptions): FileLogOptions
  {
    FileLogOptions(
      if o.expireDays != 0 then o.expireDays else f.expireDays,
      if o.logDir != "" then o.logDir else f.logDir,
      if o.bufsize > 0 then o.bufsize else f.bufsize)
  }

  /** The options merged in order, the last one last. */
  function MergeAll(f: FileLogOptions, os: seq<FileLogOptions>): FileLogOptions
    decreases |os|
  {
    if os == [] then f else Merge(MergeAll(f, os[..|os| - 1]), os[|os| - 1])
  }

  /**
   * newDefaultFileLogOptions: the defaults with every option merged in turn. Whatever
   * the options, the directory is never empty, the buffer size is positive and the
   * retention is not zero.
   */
  method NewDefaultFileLogOptions(options: seq<FileLogOptions>) returns (opts: FileLogOptions)
    ensures opts == MergeAll(Defaults, options)
    ensures opts.logDir != "" && opts.bufsize > 0 && opts.expireDays != 0
  {
    opts := Defaults;
    for i := 0 to |options|
      invariant opts == MergeAll(Defaults, options[..i])
    {
      assert options[..i + 1][..i] == options[..i];
      opts := Merge(opts, options[i]);
    }
    assert options[..|options|] == options;
    MergeAllKeepsSet(Defaults, options);
  }

  /** A field that is set stays set through any number of merges. */
  lemma {:induction false} MergeAllKeepsSet(f: FileLogOptions, os: seq<FileLogOptions>)
    ensures f.logDir != "" ==> MergeAll(f, os).logDir != ""
    ensures f.bufsize > 0 ==> MergeAll(f, os).bufsize > 0
    ensures f.expireDays != 0 ==> MergeAll(f, os).expireDays != 0
    decreases |os|
  {
    if os != [] {
      MergeAllKeepsSet(f, os[..|os| - 1]);
    }
  }

  /**
   * The directory of the merge is the one of the last option that sets it (index i),
   * or the starting one when none does (i = -1); likewise the buffer size and the
   * retention below.
   */
  lemma {:induction false} MergedLogDir(f: FileLogOptions, os: seq<FileLogOptions>, i: int)
    requires -1 <= i < |os| && (i >= 0 ==> os[i].logDir != "")
    requires forall j :: i < j < |os| ==> os[j].logDir == ""
    ensures MergeAll(f, os).logDir == if i >= 0 then os[i].logDir else f.logDir
    decreases |os|
  {
    if os != [] && i < |os| - 1 {
      var init := os[..|os| - 1];
      assert forall j :: i < j < |init| ==> init[j] == os[j];
      MergedLogDir(f, init, i);
    }
  }

  lemma {:induction false} MergedBufsize(f: FileLogOptions, os: seq<FileLogOptions>, i: int)
    requires -1 <= i < |os| && (i >= 0 ==> os[i].bufsize > 0)
    requires forall j :: i < j < |os| ==> os[j].bufsize <= 0
    ensures MergeAll(f, os).bufsize == if i >= 0 then os[i].bufsize else f.bufsize
    decreases |os|
  {
    if os != [] && i < |os| - 1 {
      var init := os[..|os| - 1];
      assert forall j :: i < j < |init| ==> init[j] == os[j];
      MergedBufsize(f, init, i);
    }
  }

  lemma {:induction false} MergedExpireDays(f: FileLogOptions, os: seq<FileLogOptions>, i: int)
    requires -1 <= i < |os| && (i >= 0 ==> os[i].expireDays != 0)
    requires forall j :: i < j < |os| ==> os[j].expireDays == 0
    ensures MergeAll(f, os).expireDays == if i >= 0 then os[i].expireDays else f.expireDays
    decreases |os|
  {
    if os != [] && i < |os| - 1 {
      var init := os[..|os| - 1];
      assert forall j :: i < j < |init| ==> init[j] == os[j];
      MergedExpireDays(f, init, i);
    }
  }

  /** An option that sets every field makes everything merged before it irrelevant. */
  lemma {:induction false} FullOptionOverrides(f: FileLogOptions, g: FileLogOptions, os: seq<FileLogOptions>, o: FileLogOptions, rest: seq<FileLogOptions>)
    requires o.expireDays != 0 && o.logDir != "" && o.bufsize > 0
    ensures MergeAll(f, os + [o] + rest) == MergeAll(g, [o] + rest)
    decreases |rest|
  {
    if rest == [] {
      assert (os + [o])[..|os|] == os;
      assert ([o])[..0] == [];
    } else {
      var init := rest[..|rest| - 1];
      FullOptionOverrides(f, g, os, o, init);
      assert (os + [o] + rest)[..|os + [o] + rest| - 1] == os + [o] + init;
      assert ([o] + rest)[..|rest|] == [o] + init;
    }
  }

  /**
   * The multi-file writer's parseLogDate: the base name split at every '.' must give
   * exactly three parts, the last "log" and the other two non-empty; the middle one is
   * the date.
   */
  function ParseLevelFileDate(filename: string): (date: Option<string>)
    ensures date.Some? ==> date.value != [] && '.' !in date.value
  {
    var secs := Split(Base(filename), '.');
    if |secs| != 3 || secs[2] != "log" || secs[0] == "" || secs[1] == "" then None else Some(secs[1])
  }

  /**
   * The single-file writer's parseLogDate: the base name split at '.' with the empty
   * parts dropped must give exactly two parts, the second "log"; the first is the date.
   */
  function ParseDayFileDate(filename: string): (date: Option<string>)
    ensures date.Some? ==> date.value != [] && '.' !in date.value
  {
    var secs := SplitNonEmpty(Base(filename), '.');
    if |secs| != 2 || secs[1] != "log" || secs[0] == "" then None else Some(secs[0])
  }

  /** The base name of a per-level log file. */
  function LevelFileBase(prefix: string, date: string): string
  {
    prefix + "." + date + ".log"
  }

  /** Splitting prefix.date.log at the dots gives its three parts back. */
  lemma SplitLevelFileBase(prefix: string, date: string)
    requires '.' !in prefix && '.' !in date
    ensures Split(LevelFileBase(prefix, date), '.') == [prefix, date, "log"]
  {
    SplitNone("log", '.');
    SplitAt(date, '.', "log");
    assert LevelFileBase(prefix, date) == prefix + ['.'] + (date + ['.'] + "log");
    SplitAt(prefix, '.', date + ['.'] + "log");
  }

  /** Splitting date.log at the dots gives date and "log". */
  lemma SplitDayFileBase(date: string)
    requires '.' !in date
    ensures Split(date + ".log", '.') == [date, "log"]
  {
    SplitNone("log", '.');
    assert date + ".log" == date + ['.'] + "log";
    SplitAt(date, '.', "log");
  }

  /** Three parts joined with dots. */
  lemma JoinThree(secs: seq<string>)
    requires |secs| == 3
    ensures JoinWith(secs, '.') == secs[0] + "." + secs[1] + "." + secs[2]
  {
    assert secs[1..][1..] == secs[2..];
    assert JoinWith(secs[2..], '.') == secs[2];
    assert JoinWith(secs[1..], '.') == secs[1] + ['.'] + secs[2];
  }

  /** What the per-level parser accepts is a base name prefix.date.log with two non-empty, dot-free parts. */
  lemma ParsedLevelFileShape(filename: string)
    requires ParseLevelFileDate(filename).Some?
    ensures var secs := Split(Base(filename), '.');
      && secs[0] != "" && '.' !in secs[0]
      && Base(filename) == LevelFileBase(secs[0], ParseLevelFileDate(filename).value)
  {
    var secs := Split(Base(filename), '.');
    SplitJoin(Base(filename), '.');
    JoinThree(secs);
    DotLog(secs[0] + "." + secs[1]);
  }

  lemma DotLog(s: string)
    ensures s + "." + "log" == s + ".log"
  {
    assert "." + "log" == ".log";
  }

  /** The per-level parser accepts exactly the base names prefix.date.log with two non-empty, dot-free parts. */
  lemma ParseLevelFileDateShape(filename: string, date: string)
    ensures ParseLevelFileDate(filename) == Some(date) <==>
      exists prefix :: prefix != "" && '.' !in prefix && date != "" && '.' !in date && Base(filename) == LevelFileBase(prefix, date)
  {
    if ParseLevelFileDate(filename) == Some(date) {
      ParsedLevelFileShape(filename);
    }
    if exists prefix :: prefix != "" && '.' !in prefix && date != "" && '.' !in date && Base(filename) == LevelFileBase(prefix, date) {
      var prefix :| prefix != "" && '.' !in prefix && date != "" && '.' !in date && Base(filename) == LevelFileBase(prefix, date);
      SplitLevelFileBase(prefix, date);
    }
  }

  /** A text made only of dots gives no part. */
  lemma NoDayFileParts(m: nat)
    ensures SplitNonEmpty(Fill('.', m), '.') == []
  {
    SplitNonEmptyFill(m, '.', []);
    assert Fill('.', m) + [] == Fill('.', m);
    assert Split([], '.') == [[]];
    NonEmptySingle([]);
  }

  /** Two parts, the second "log": dots, the first part, at least one dot, "log", and dots. */
  lemma DayPartsShape(b: string) returns (m1: nat, m2: nat, m3: nat)
    requires var secs := SplitNonEmpty(b, '.'); |secs| == 2 && secs[1] == "log"
    ensures DayShaped(b, SplitNonEmpty(b, '.')[0], m1, m2, m3)
  {
    var t1, t2;
    m1, t1 := SplitNonEmptyHead(b, '.');
    m2, t2 := SplitNonEmptyHead(t1, '.');
    SplitNonEmptyNone(t2, '.');
    m3 := |t2|;
    NoDayFileParts(0);
    assert t1 != [] && t1[0] == '.';
    assert (Fill('.', m2) + "log" + t2)[0] == if m2 > 0 then '.' else 'l';
  }

  /** Dots, a non-empty dot-free part, at least one dot, "log", and dots split into that part and "log". */
  lemma ShapeDayParts(b: string, date: string, m1: nat, m2: nat, m3: nat)
    requires DayShaped(b, date, m1, m2, m3)
    ensures SplitNonEmpty(b, '.') == [date, "log"]
  {
    var tail := Fill('.', m3);
    var rest := Fill('.', m2) + "log" + tail;
    assert b == Fill('.', m1) + (date + rest);
    assert rest == Fill('.', m2) + ("log" + tail);
    SplitNonEmptyFill(m1, '.', date + rest);
    SplitNonEmptyWord(date, '.', rest);
    SplitNonEmptyFill(m2, '.', "log" + tail);
    SplitNonEmptyWord("log", '.', tail);
    NoDayFileParts(m3);
    assert [date] + (["log"] + []) == [date, "log"];
  }

  /** b is m1 dots, the date (non-empty and dot-free), m2 > 0 dots, "log", and m3 dots. */
  predicate DayShaped(b: string, date: string, m1: nat, m2: nat, m3: nat)
  {
    m2 > 0 && date != "" && '.' !in date && b == Fill('.', m1) + date + Fill('.', m2) + "log" + Fill('.', m3)
  }

  /**
   * The single-file parser accepts exactly the base names made of some dots, the date
   * (non-empty and dot-free), at least one dot, "log", and some dots.
   */
  lemma ParseDayFileDateShape(filename: string, date: string)
    ensures ParseDayFileDate(filename) == Some(date) <==> exists m1, m2, m3 :: DayShaped(Base(filename), date, m1, m2, m3)
  {
    var b := Base(filename);
    if ParseDayFileDate(filename) == Some(date) {
      var secs := SplitNonEmpty(b, '.');
      assert secs[0] == date && secs[1] == "log";
      var m1, m2, m3 := DayPartsShape(b);
      assert DayShaped(b, date, m1, m2, m3);
    }
    if exists m1, m2, m3 :: DayShaped(b, date, m1, m2, m3) {
      var m1, m2, m3 :| DayShaped(b, date, m1, m2, m3);
      ShapeDayParts(b, date, m1, m2, m3);
    }
  }

  /** A level's name has neither a dot nor a separator. */
  lemma NameIsPlain(l: Level)
    ensures Name(l) != "" && '.' !in Name(l) && Sep !in Name(l)
  {
    NameTable(l);
  }

  /** The base of a per-level file name is prefix.date.log. */
  lemma LevelFileNameBase(dir: string, l: Level, date: string)
    requires '.' !in date && Sep !in date
    ensures Base(LevelFileName(dir, l, date)) == LevelFileBase(Name(l), date)
  {
    NameIsPlain(l);
    var base := LevelFileBase(Name(l), date);
    assert base == Name(l) + ['.'] + date + ['.', 'l', 'o', 'g'];
    BaseOfJoin(dir, base);
  }

  /** The base of a per-day file name is date.log. */
  lemma DayFileNameBase(dir: string, date: string)
    requires date != "" && Sep !in date
    ensures Base(DayFileName(dir, date)) == date + ".log"
  {
    assert date + ".log" == date + ['.', 'l', 'o', 'g'];
    BaseOfJoin(dir, date + ".log");
  }

  /** The multi-file writer reads back the date it put into a file name. */
  lemma LevelFileNameRoundTrip(dir: string, l: Level, date: string)
    requires date != "" && '.' !in date && Sep !in date
    ensures ParseLevelFileDate(LevelFileName(dir, l, date)) == Some(date)
  {
    LevelFileNameBase(dir, l, date);
    NameIsPlain(l);
    ParseLevelFileBase(LevelFileName(dir, l, date), Name(l), date);
  }

  /** A file whose base name is prefix.date.log, both parts non-empty and dot-free, gives the date. */
  lemma ParseLevelFileBase(filename: string, prefix: string, date: string)
    requires prefix != "" && date != "" && '.' !in prefix && '.' !in date
    requires Base(filename) == LevelFileBase(prefix, date)
    ensures ParseLevelFileDate(filename) == Some(date)
  {
    SplitLevelFileBase(prefix, date);
  }

  /** The single-file writer reads back the date it put into a file name. */
  lemma DayFileNameRoundTrip(dir: string, date: string)
    requires date != "" && '.' !in date && Sep !in date
    ensures ParseDayFileDate(DayFileName(dir, date)) == Some(date)
  {
    DayFileNameBase(dir, date);
    DayFileBaseParts(date);
  }

  /** date.log splits into the date and "log". */
  lemma DayFileBaseParts(date: string)
    requires date != "" && '.' !in date
    ensures SplitNonEmpty(date + ".log", '.') == [date, "log"]
  {
    assert date + ".log" == Fill('.', 0) + date + Fill('.', 1) + "log" + Fill('.', 0);
    ShapeDayParts(date + ".log", date, 0, 1, 0);
  }

  /** A per-level file name gives no date to the single-file writer. */
  lemma LevelFileNotDayFile(dir: string, l: Level, date: string)
    requires date != "" && '.' !in date && Sep !in date
    ensures ParseDayFileDate(LevelFileName(dir, l, date)) == None
  {
    var b := Base(LevelFileName(dir, l, date));
    LevelFileNameBase(dir, l, date);
    NameIsPlain(l);
    LevelFileBaseParts(Name(l), date);
    assert |SplitNonEmpty(b, '.')| == 3;
  }

  /** prefix.date.log has three parts. */
  lemma LevelFileBaseParts(prefix: string, date: string)
    requires prefix != "" && '.' !in prefix && date != "" && '.' !in date
    ensures SplitNonEmpty(LevelFileBase(prefix, date), '.') == [prefix, date, "log"]
  {
    var rest := date + ".log";
    assert LevelFileBase(prefix, date) == prefix + (['.'] + rest);
    SplitNonEmptyWord(prefix, '.', ['.'] + rest);
    SplitNonEmptySep('.', rest);
    DayFileBaseParts(date);
  }

  /** A per-day file name gives no date to the multi-file writer. */
  lemma DayFileNotLevelFile(dir: string, date: string)
    requires date != "" && '.' !in date && Sep !in date
    ensures ParseLevelFileDate(DayFileName(dir, date)) == None
  {
    DayFileNameBase(dir, date);
    SplitDayFileBase(date);
  }

  /** An entry of the log directory, as ioutil.ReadDir lists it. */
  datatype DirEntry = DirEntry(name: string, isDir: bool)

  /** A file of the log directory whose name gives a log date. */
  datatype DatedFile = DatedFile(name: string, date: string)

  /** The entry as a dated file: none for a directory or a name that gives no date. */
  function DatedEntry(parse: string -> Option<string>, e: DirEntry): (d: seq<DatedFile>)
    ensures |d| <= 1
  {
    if e.isDir then []
    else match parse(e.name)
      case None => []
      case Some(date) => [DatedFile(e.name, date)]
  }

  /** The dated files of a listing, in listing order. */
  function Dated(parse: string -> Option<string>, entries: seq<DirEntry>): (d: seq<DatedFile>)
    ensures |d| <= |entries|
    decreases |entries|
  {
    if entries == [] then []
    else Dated(parse, entries[..|entries| - 1]) + DatedEntry(parse, entries[|entries| - 1])
  }

  /** A file is dated exactly when some listed non-directory under its name gives its date. */
  lemma {:induction false} DatedMembers(parse: string -> Option<string>, entries: seq<DirEntry>, f: DatedFile)
    ensures f in Dated(parse, entries) <==>
      exists i :: 0 <= i < |entries| && entries[i] == DirEntry(f.name, false) && parse(f.name) == Some(f.date)
    decreases |entries|
  {
    if entries != [] {
      var n := |entries| - 1;
      var init := entries[..n];
      DatedMembers(parse, init, f);
      assert forall i :: 0 <= i < n ==> init[i] == entries[i];
      assert f in DatedEntry(parse, entries[n]) <==> entries[n] == DirEntry(f.name, false) && parse(f.name) == Some(f.date);
    }
  }

  /** The paths of the dated files whose date sorts before the cutoff. */
  function ExpiredPaths(dir: string, files: seq<DatedFile>, cutoff: string): set<string>
  {
    set k | 0 <= k < |files| && LexLess(files[k].date, cutoff) :: Join(dir, files[k].name)
  }

  /** One dated file is expired when its date sorts before the cutoff. */
  lemma ExpiredPathsOne(dir: string, f: DatedFile, cutoff: string)
    ensures ExpiredPaths(dir, [f], cutoff) == if LexLess(f.date, cutoff) then {Join(dir, f.name)} else {}
  {
    if LexLess(f.date, cutoff) {
      assert [f][0] == f;
      assert Join(dir, f.name) in ExpiredPaths(dir, [f], cutoff);
    }
  }

  /** The expired paths of two runs of files are those of each. */
  lemma ExpiredPathsAppend(dir: string, a: seq<DatedFile>, b: seq<DatedFile>, cutoff: string)
    ensures ExpiredPaths(dir, a + b, cutoff) == ExpiredPaths(dir, a, cutoff) + ExpiredPaths(dir, b, cutoff)
  {
    var ab := a + b;
    forall p | p in ExpiredPaths(dir, ab, cutoff)
      ensures p in ExpiredPaths(dir, a, cutoff) + ExpiredPaths(dir, b, cutoff)
    {
      var k :| 0 <= k < |ab| && LexLess(ab[k].date, cutoff) && p == Join(dir, ab[k].name);
      if k >= |a| {
        assert ab[k] == b[k - |a|];
      } else {
        assert ab[k] == a[k];
      }
    }
    forall p | p in ExpiredPaths(dir, b, cutoff) ensures p in ExpiredPaths(dir, ab, cutoff) {
      var k :| 0 <= k < |b| && LexLess(b[k].date, cutoff) && p == Join(dir, b[k].name);
      assert ab[|a| + k] == b[k];
    }
    forall p | p in ExpiredPaths(dir, a, cutoff) ensures p in ExpiredPaths(dir, ab, cutoff) {
      var k :| 0 <= k < |a| && LexLess(a[k].date, cutoff) && p == Join(dir, a[k].name);
      assert ab[k] == a[k];
    }
  }

  /** Removing two sets in turn removes their union. */
  lemma RemoveInTurn(m: map<string, string>, a: set<string>, b: set<string>)
    ensures (m - a) - b == m - (a + b)
  {
  }

  /** The date stamp the given number of days before the given date. */
  function Cutoff(now: Date, days: nat): (s: string)
    requires Valid(now)
  {
    Stamp(SubtractDays(now, days))
  }

  /**
   * What cleanLogFiles removes: nothing when retention is off, the directory cannot be
   * read or the current date does not parse; otherwise the dated files whose date sorts
   * before the day that many days before the current date.
   */
  function Removed(opts: FileLogOptions, nowdate: string, parse: string -> Option<string>, listing: Option<seq<DirEntry>>): set<string>
  {
    if opts.expireDays <= 0 || listing.None? || ParseStamp(nowdate).None? then {}
    else ExpiredPaths(opts.logDir, Dated(parse, listing.value), Cutoff(ParseStamp(nowdate).value, opts.expireDays))
  }

  /** cleanLogFiles: go through the listing in order, removing each expired file. */
  method CleanLogFiles(fs: FileSystem, opts: FileLogOptions, nowdate: string, parse: string -> Option<string>,
                       listing: Option<seq<DirEntry>>)
    modifies fs
    ensures fs.files == old(fs.files) - Removed(opts, nowdate, parse, listing)
  {
    if opts.expireDays <= 0 || listing.None? {
      return;
    }
    var now := ParseStamp(nowdate);
    if now.None? {
      return;
    }
    var entries := listing.value;
    var cutoff := Cutoff(now.value, opts.expireDays);
    for i := 0 to |entries|
      invariant fs.files == old(fs.files) - ExpiredPaths(opts.logDir, Dated(parse, entries[..i]), cutoff)
    {
      ghost var done := Dated(parse, entries[..i]);
      RemoveIfExpired(fs, opts.logDir, entries[i], parse, cutoff);
      RemoveInTurn(old(fs.files), ExpiredPaths(opts.logDir, done, cutoff),
                   ExpiredPaths(opts.logDir, DatedEntry(parse, entries[i]), cutoff));
      ExpiredPathsAppend(opts.logDir, done, DatedEntry(parse, entries[i]), cutoff);
      assert entries[..i + 1][..i] == entries[..i];
    }
    assert entries[..|entries|] == entries;
  }

  /** One step of cleanLogFiles: skip a directory or a name without a date, remove an expired file. */
  method RemoveIfExpired(fs: FileSystem, dir: string, e: DirEntry, parse: string -> Option<string>, cutoff: string)
    modifies fs
    ensures fs.files == old(fs.files) - ExpiredPaths(dir, DatedEntry(parse, e), cutoff)
  {
    if e.isDir {
      return;
    }
    var date := parse(e.name);
    if date.None? {
      return;
    }
    ExpiredPathsOne(dir, DatedFile(e.name, date.value), cutoff);
    if LexLess(date.value, cutoff) {
      fs.Remove(Join(dir, e.name));
    }
  }

  /**
   * For the writers' own date stamps, the string comparison of cleanLogFiles is the
   * calendar: a file expires exactly when its day is before the cutoff day.
   */
  lemma ExpiresIffOlder(now: Date, days: nat, f: Date)
    requires Valid(now) && Valid(f) && 0 <= f.year < 10000
    requires 0 <= SubtractDays(now, days).year < 10000
    ensures LexLess(Stamp(f), Cutoff(now, days)) <==> Before(f, SubtractDays(now, days))
  {
    StampOrder(f, SubtractDays(now, days));
  }

  /**
   * With retention on, the files the writers open today read back as dated today, and
   * that date never expires.
   */
  lemma TodaysFilesKept(dir: string, l: Level, now: Date, days: nat)
    requires Valid(now) && 0 <= now.year < 10000 && days > 0
    requires 0 <= SubtractDays(now, days).year < 10000
    ensures ParseLevelFileDate(LevelFileName(dir, l, Stamp(now))) == Some(Stamp(now))
    ensures ParseDayFileDate(DayFileName(dir, Stamp(now))) == Some(Stamp(now))
    ensures !LexLess(Stamp(now), Cutoff(now, days))
  {
    var date := Stamp(now);
    assert '.' !in date && Sep !in date by {
      StampIsFixedDay(now);
    }
    LevelFileNameRoundTrip(dir, l, date);
    DayFileNameRoundTrip(dir, date);
    ExpiresIffOlder(now, days, now);
  }
}
