/**
 * The rotating file writers of the golog package: multiFileWriter (one file per level
 * from the writer's level up, re-opened when the day of the month changes) and
 * singleFileWriter (one file for every level, re-opened when the calendar date
 * changes). After each re-open the expired log files are removed. The clock is the
 * `now` argument and the directory listing that the removal reads is the `listing`
 * argument (None when the directory cannot be read).
 */
module RotatingWriters {
  import opened Wrappers
  import opened Levels
  import opened Dates
  import opened Files
  import opened LevelFiles
  import opened Rotation

  /** multiFileWriter: one file per level from the writer's level up, named after the date. */
  class MultiFileWriter {
    const level: Level
    const opts: FileLogOptions
    const files: array<BufferedFile>
    var day: int
    var filedate: string
    const fs: FileSystem

    /** Six handles on the writer's file system, each open one on a file of its own level. */
    ghost predicate Valid()
      reads files, files[..]
    {
      Handles(files, fs) && LevelNamed(States(files), opts.logDir)
    }

    /** The struct literal of MultiFile: day -1, no date yet, six zero handles. */
    constructor (fs: FileSystem, level: Level, opts: FileLogOptions)
      ensures Valid() && fresh(files) && forall i :: 0 <= i < files.Length ==> fresh(files[i])
      ensures this.fs == fs && this.level == level && this.opts == opts && day == -1 && filedate == ""
      ensures States(files) == UnopenedHandles()
    {
      this.fs := fs;
      this.level := level;
      this.opts := opts;
      day := -1;
      filedate := "";
      var handles := NewHandles(fs);
      files := handles;
    }

    /**
     * checkDaily: on a new day of the month, re-open the files of the writer's level
     * and above on today's names (the handles are Reopened, the files Rotated), move
     * the file date to today only if every one of them opened, and then remove the
     * expired per-level files counted from the file date. The day moves on even when
     * an open fails. On the same day nothing changes.
     */
    method CheckDaily(now: Date, listing: Option<seq<DirEntry>>)
      requires Valid() && Dates.Valid(now)
      modifies this`day, this`filedate, fs, files[..]
      ensures Valid() && day == now.day
      ensures old(day) == now.day ==>
        filedate == old(filedate) && States(files) == old(States(files)) && fs.files == old(fs.files)
      ensures old(day) != now.day ==>
        var hs, names, lo := old(States(files)), LevelFileNames(opts.logDir, Stamp(now)), Start(level, LevelMax);
        && States(files) == Reopened(hs, fs.unopenable, names, opts.bufsize, lo, LevelMax + 1)
        && filedate == (if AnyUnopenable(names, fs.unopenable, lo, LevelMax + 1) then old(filedate) else Stamp(now))
        && fs.files == Rotated(hs, old(fs.files), fs.unopenable, fs.unwritable, names, opts.bufsize, lo, LevelMax + 1)
                       - Removed(opts, filedate, ParseLevelFileDate, listing)
    {
      if now.day != day {
        ghost var hs := States(files);
        day := now.day;
        assert States(files) == hs;
        Rotate(Stamp(now));
        Clean(listing);
      }
    }

    /**
     * The loop of checkDaily: re-open the files of the writer's level and above on the
     * names for `date`, and move the file date to `date` only if every one of them
     * opened.
     */
    method Rotate(date: string)
      requires Valid()
      modifies this`filedate, fs, files[..]
      ensures Valid()
      ensures var hs, names, lo := old(States(files)), LevelFileNames(opts.logDir, date), Start(level, LevelMax);
        && States(files) == Reopened(hs, fs.unopenable, names, opts.bufsize, lo, LevelMax + 1)
        && fs.files == Rotated(hs, old(fs.files), fs.unopenable, fs.unwritable, names, opts.bufsize, lo, LevelMax + 1)
        && filedate == if AnyUnopenable(names, fs.unopenable, lo, LevelMax + 1) then old(filedate) else date
    {
      ghost var hs := States(files);
      var failed := RotateLevels(files, fs, level, LevelFileNames(opts.logDir, date), opts.bufsize);
      ReopenedLevelNamed(hs, fs.unopenable, opts.logDir, date, opts.bufsize, Start(level, LevelMax), LevelMax + 1);
      if !failed {
        filedate := date;
      }
    }

    /** cleanLogFiles from the file date, with the per-level names: only expired files go. */
    method Clean(listing: Option<seq<DirEntry>>)
      requires Valid()
      modifies fs
      ensures Valid() && States(files) == old(States(files)) && day == old(day) && filedate == old(filedate)
      ensures fs.files == old(fs.files) - Removed(opts, filedate, ParseLevelFileDate, listing)
    {
      CleanLogFiles(fs, opts, filedate, ParseLevelFileDate, listing);
    }

    /**
     * Write: checkDaily, then the cumulative write from the writer's level up to the
     * record's level, stopping at the first error and returning it: the handles, the
     * files, the result and where it stopped are WriteRun's from the state checkDaily
     * left. On the same day, each handle that took the bytes has its file followed by
     * what it holds grown by exactly the bytes, and every file none of them is on is
     * left alone.
     */
    method Write(lvl: Level, bytes: string, now: Date, listing: Option<seq<DirEntry>>) returns (st: Status, ghost last: int)
      requires Valid() && Dates.Valid(now) && lvl <= LevelMax
      modifies this`day, this`filedate, fs, files[..]
      ensures Valid()
      ensures day == now.day
      ensures var names, lo := LevelFileNames(opts.logDir, Stamp(now)), Start(level, LevelMax);
        filedate == if old(day) == now.day || AnyUnopenable(names, fs.unopenable, lo, LevelMax + 1)
                    then old(filedate) else Stamp(now)
      ensures var hs, names, lo := old(States(files)), LevelFileNames(opts.logDir, Stamp(now)), Start(level, LevelMax);
        var mh := if old(day) == now.day then hs else Reopened(hs, fs.unopenable, names, opts.bufsize, lo, LevelMax + 1);
        var mf := if old(day) == now.day then old(fs.files)
                  else Rotated(hs, old(fs.files), fs.unopenable, fs.unwritable, names, opts.bufsize, lo, LevelMax + 1)
                       - Removed(opts, filedate, ParseLevelFileDate, listing);
        Run(States(files), fs.files, st, last) == WriteRun(mh, mf, fs.unwritable, bytes, Start(level, lvl), lvl + 1)
      ensures st != Ok ==> 0 <= last <= lvl && st == if files[last].name.None? then NilWriter else Failed(files[last].name.value)
      ensures old(day) == now.day ==>
        var hs, lo := old(States(files)), Start(level, lvl);
        && (forall i :: lo <= i < last ==>
              hs[i].name.Some? &&
              Contents(fs.files, hs[i].name.value) + files[i].pending == Contents(old(fs.files), hs[i].name.value) + hs[i].pending + bytes)
        && (forall n :: (forall i :: lo <= i < last ==> hs[i].name != Some(n)) ==> SameEntry(old(fs.files), fs.files, n))
    {
      CheckDaily(now, listing);
      st, last := WriteLevelsFrom(lvl, bytes);
    }

    /**
     * The write loop of Write once the day is checked: the cumulative write from the
     * writer's level up to `lvl`, as WriteRun says; each handle that took the bytes has
     * its file followed by what it holds grown by exactly the bytes, and every file
     * none of them is on is left alone.
     */
    method WriteLevelsFrom(lvl: Level, bytes: string) returns (st: Status, ghost last: int)
      requires Valid() && lvl <= LevelMax
      modifies fs, files[..]
      ensures Valid() && day == old(day) && filedate == old(filedate)
      ensures Run(States(files), fs.files, st, last)
        == WriteRun(old(States(files)), old(fs.files), fs.unwritable, bytes, Start(level, lvl), lvl + 1)
      ensures st != Ok ==> 0 <= last <= lvl && st == if files[last].name.None? then NilWriter else Failed(files[last].name.value)
      ensures var hs, lo := old(States(files)), Start(level, lvl);
        && (forall i :: lo <= i < last ==>
              hs[i].name.Some? &&
              Contents(fs.files, hs[i].name.value) + files[i].pending == Contents(old(fs.files), hs[i].name.value) + hs[i].pending + bytes)
        && (forall n :: (forall i :: lo <= i < last ==> hs[i].name != Some(n)) ==> SameEntry(old(fs.files), fs.files, n))
    {
      ghost var hs, before := States(files), fs.files;
      st, last := WriteLevels(files, fs, level, lvl, bytes);
      WriteRunLevelNamed(hs, before, fs.unwritable, bytes, Start(level, lvl), lvl + 1, opts.logDir);
      assert Valid();
      LevelNamedDistinct(hs, opts.logDir);
      WriteRunFacts(hs, before, fs.unwritable, bytes, Start(level, lvl), lvl + 1);
    }

    /**
     * Flush of the writer's level and above: the handles, the files, the result and
     * where a handle never opened made it panic are FlushRun's. Each flushed handle's
     * file gains exactly what its flush wrote; every other file is left alone.
     */
    method Flush() returns (st: Status, ghost stop: int)
      requires Valid()
      modifies fs, files[..]
      ensures Valid()
      ensures Run(States(files), fs.files, st, stop)
        == FlushRun(old(States(files)), old(fs.files), fs.unwritable, Start(level, LevelMax), LevelMax + 1)
      ensures st == Ok <==> forall l :: Start(level, LevelMax) <= l <= LevelMax ==> old(files[l].name).Some?
      ensures var hs, lo := old(States(files)), Start(level, LevelMax);
        && (forall i :: lo <= i < stop ==>
              hs[i].name.Some? && Contents(fs.files, hs[i].name.value) == Contents(old(fs.files), hs[i].name.value) + Drained(hs[i], fs.unwritable))
        && (forall n :: (forall i :: lo <= i < stop ==> hs[i].name != Some(n)) ==> SameEntry(old(fs.files), fs.files, n))
    {
      ghost var hs, before := States(files), fs.files;
      st, stop := FlushLevels(files, fs, level);
      FlushRunLevelNamed(hs, before, fs.unwritable, Start(level, LevelMax), LevelMax + 1, opts.logDir);
      assert Valid();
      LevelNamedDistinct(hs, opts.logDir);
      FlushRunFacts(hs, before, fs.unwritable, Start(level, LevelMax), LevelMax + 1);
    }

    /**
     * Close of the writer's level and above: the handles and the files are CloseRun's.
     * Each opened handle's file gains exactly what its flush wrote; every other file is
     * left alone.
     */
    method Close()
      requires Valid()
      modifies fs, files[..]
      ensures Valid()
      ensures var r := CloseRun(old(States(files)), old(fs.files), fs.unwritable, Start(level, LevelMax), LevelMax + 1);
        States(files) == r.hs && fs.files == r.files
      ensures var hs, lo := old(States(files)), Start(level, LevelMax);
        && (forall i :: lo <= i <= LevelMax && hs[i].name.Some? ==>
              Contents(fs.files, hs[i].name.value) == Contents(old(fs.files), hs[i].name.value) + Drained(hs[i], fs.unwritable))
        && (forall n :: (forall i :: lo <= i <= LevelMax ==> hs[i].name != Some(n)) ==> SameEntry(old(fs.files), fs.files, n))
    {
      ghost var hs, before := States(files), fs.files;
      CloseLevels(files, fs, level);
      CloseRunLevelNamed(hs, before, fs.unwritable, Start(level, LevelMax), LevelMax + 1, opts.logDir);
      assert Valid();
      LevelNamedDistinct(hs, opts.logDir);
      CloseRunFacts(hs, before, fs.unwritable, Start(level, LevelMax), LevelMax + 1);
    }
  }

  /**
   * MultiFile: the options merged onto the defaults; fails when the directory cannot
   * be created, changing nothing; otherwise a writer that has done its first
   * checkDaily, and every file that existed and was not removed as expired is kept
   * with its contents.
   */
  method MultiFile(fs: FileSystem, logLevel: Level, options: seq<FileLogOptions>, now: Date, listing: Option<seq<DirEntry>>)
    returns (w: MultiFileWriter?)
    requires Dates.Valid(now)
    modifies fs
    ensures MergeAll(Defaults, options).logDir in fs.badDirs <==> w == null
    ensures w == null ==> fs.files == old(fs.files)
    ensures w != null ==> fresh(w) && fresh(w.files) && w.Valid() && w.fs == fs && w.level == logLevel
    ensures w != null ==> w.opts == MergeAll(Defaults, options) && w.day == now.day
    ensures w != null ==>
      var names, lo := LevelFileNames(w.opts.logDir, Stamp(now)), Start(logLevel, LevelMax);
      && States(w.files) == Reopened(UnopenedHandles(), fs.unopenable, names, w.opts.bufsize, lo, LevelMax + 1)
      && w.filedate == (if AnyUnopenable(names, fs.unopenable, lo, LevelMax + 1) then "" else Stamp(now))
      && fs.files == Rotated(UnopenedHandles(), old(fs.files), fs.unopenable, fs.unwritable, names, w.opts.bufsize, lo, LevelMax + 1)
                     - Removed(w.opts, w.filedate, ParseLevelFileDate, listing)
    ensures w != null ==> forall n :: n in old(fs.files) && n !in Removed(w.opts, w.filedate, ParseLevelFileDate, listing) ==>
      n in fs.files && Contents(fs.files, n) == Contents(old(fs.files), n)
  {
    var opts := NewDefaultFileLogOptions(options);
    var ok := fs.MkdirAll(opts.logDir);
    if !ok {
      return null;
    }
    w := new MultiFileWriter(fs, logLevel, opts);
    w.CheckDaily(now, listing);
    FirstRotationKeeps(old(fs.files), fs.unopenable, fs.unwritable, LevelFileNames(opts.logDir, Stamp(now)), opts.bufsize,
                       Start(logLevel, LevelMax));
  }

  /** singleFileWriter: every record goes to dir/date.log, re-opened when the calendar date changes. */
  class SingleFileWriter {
    const opts: FileLogOptions
    var day: int
    var filedate: string
    const file: BufferedFile
    const fs: FileSystem

    /** The file is on the writer's file system. */
    predicate Valid()
    {
      file.fs == fs
    }

    /** The struct literal of SingleFile: day -1, no date yet, a zero handle. */
    constructor (fs: FileSystem, opts: FileLogOptions)
      ensures Valid() && this.fs == fs && this.opts == opts && day == -1 && filedate == ""
      ensures fresh(file) && file.State() == Unopened
    {
      this.fs := fs;
      this.opts := opts;
      day := -1;
      filedate := "";
      file := new BufferedFile(fs);
    }

    /**
     * checkDaily: when the calendar date differs from the stored one, store it,
     * re-open the file on today's name as InitStep says, move the file date to today
     * if that worked, and then remove the expired per-day files counted from the file
     * date. On the same date nothing changes.
     */
    method CheckDaily(now: Date, listing: Option<seq<DirEntry>>)
      requires Valid() && Dates.Valid(now)
      modifies this`day, this`filedate, fs, file
      ensures day == UniqueLogDay(now)
      ensures old(day) == UniqueLogDay(now) ==>
        filedate == old(filedate) && file.State() == old(file.State()) && fs.files == old(fs.files)
      ensures old(day) != UniqueLogDay(now) ==>
        var s := InitStep(old(file.State()), old(fs.files), fs.unopenable, fs.unwritable,
                          DayFileName(opts.logDir, Stamp(now)), opts.bufsize);
        && file.State() == s.h
        && filedate == (if s.st == Ok then Stamp(now) else old(filedate))
        && fs.files == s.files - Removed(opts, filedate, ParseDayFileDate, listing)
    {
      var d := UniqueLogDay(now);
      if d != day {
        day := d;
        var date := Stamp(now);
        var st := file.Init(DayFileName(opts.logDir, date), opts.bufsize);
        if st == Ok {
          filedate := date;
        }
        CleanLogFiles(fs, opts, filedate, ParseDayFileDate, listing);
      }
    }

    /**
     * Write: checkDaily, then the bytes into the one file, as WriteStep says; the level
     * plays no part. On the same date, an accepted write grows the file followed by
     * what is held by exactly the bytes, and every other file is left alone.
     */
    method Write(lvl: Level, bytes: string, now: Date, listing: Option<seq<DirEntry>>) returns (st: Status)
      requires Valid() && Dates.Valid(now)
      modifies this`day, this`filedate, fs, file
      ensures day == UniqueLogDay(now)
      ensures var s := InitStep(old(file.State()), old(fs.files), fs.unopenable, fs.unwritable,
                                DayFileName(opts.logDir, Stamp(now)), opts.bufsize);
        filedate == if old(day) == UniqueLogDay(now) || s.st != Ok then old(filedate) else Stamp(now)
      ensures var s := InitStep(old(file.State()), old(fs.files), fs.unopenable, fs.unwritable,
                                DayFileName(opts.logDir, Stamp(now)), opts.bufsize);
        var mid := if old(day) == UniqueLogDay(now) then Step(old(file.State()), old(fs.files), Ok)
                   else Step(s.h, s.files - Removed(opts, filedate, ParseDayFileDate, listing), Ok);
        Step(file.State(), fs.files, st) == WriteStep(mid.h, mid.files, fs.unwritable, bytes)
      ensures old(day) == UniqueLogDay(now) && st == Ok ==>
        file.name.Some? && Contents(fs.files, file.name.value) + file.pending == Contents(old(fs.files), file.name.value) + old(file.pending) + bytes
      ensures old(day) == UniqueLogDay(now) ==> forall n :: file.name != Some(n) ==> SameEntry(old(fs.files), fs.files, n)
    {
      CheckDaily(now, listing);
      ghost var h, before := file.State(), fs.files;
      st := file.Write(bytes);
      forall n {
        WriteStepFile(h, before, fs.unwritable, bytes, n);
      }
    }

    /**
     * Flush, its result ignored: panics on a file that was never opened; otherwise the
     * handle and the files are FlushStep's, so the file gains exactly what the flush
     * wrote and every other file is left alone.
     */
    method Flush() returns (st: Status)
      requires Valid()
      modifies fs, file
      ensures var s := FlushStep(old(file.State()), old(fs.files), fs.unwritable);
        file.State() == s.h && fs.files == s.files && st == if s.st == NilWriter then NilWriter else Ok
      ensures st == NilWriter <==> old(file.name).None?
      ensures old(file.name).Some? ==>
        Contents(fs.files, old(file.name).value) == Contents(old(fs.files), old(file.name).value) + Drained(old(file.State()), fs.unwritable)
      ensures forall n :: old(file.name) != Some(n) ==> SameEntry(old(fs.files), fs.files, n)
    {
      ghost var h, before := file.State(), fs.files;
      var r := file.Flush();
      st := if r == NilWriter then NilWriter else Ok;
      forall n {
        FlushStepFile(h, before, fs.unwritable, n);
      }
    }

    /**
     * Close: the handle and the files are CloseStep's, so the file gains exactly what
     * the flush wrote and every other file is left alone.
     */
    method Close()
      requires Valid()
      modifies fs, file
      ensures (file.State(), fs.files) == CloseStep(old(file.State()), old(fs.files), fs.unwritable)
      ensures old(file.name).Some? ==>
        Contents(fs.files, old(file.name).value) == Contents(old(fs.files), old(file.name).value) + Drained(old(file.State()), fs.unwritable)
      ensures forall n :: old(file.name) != Some(n) ==> SameEntry(old(fs.files), fs.files, n)
    {
      ghost var h, before := file.State(), fs.files;
      file.Close();
      forall n {
        CloseStepFile(h, before, fs.unwritable, n);
      }
    }
  }

  /**
   * SingleFile: the options merged onto the defaults; fails when the directory cannot
   * be created, changing nothing; otherwise a writer that has done its first
   * checkDaily, and every file that existed and was not removed as expired is kept
   * with its contents.
   */
  method SingleFile(fs: FileSystem, options: seq<FileLogOptions>, now: Date, listing: Option<seq<DirEntry>>)
    returns (w: SingleFileWriter?)
    requires Dates.Valid(now)
    modifies fs
    ensures MergeAll(Defaults, options).logDir in fs.badDirs <==> w == null
    ensures w == null ==> fs.files == old(fs.files)
    ensures w != null ==> fresh(w) && fresh(w.file) && w.Valid() && w.fs == fs && w.opts == MergeAll(Defaults, options)
    ensures w != null ==> w.day == UniqueLogDay(now)
    ensures w != null ==>
      var s := InitStep(Unopened, old(fs.files), fs.unopenable, fs.unwritable, DayFileName(w.opts.logDir, Stamp(now)), w.opts.bufsize);
      && w.file.State() == s.h
      && w.filedate == (if s.st == Ok then Stamp(now) else "")
      && fs.files == s.files - Removed(w.opts, w.filedate, ParseDayFileDate, listing)
    ensures w != null ==> forall n :: n in old(fs.files) && n !in Removed(w.opts, w.filedate, ParseDayFileDate, listing) ==>
      n in fs.files && Contents(fs.files, n) == Contents(old(fs.files), n)
  {
    var opts := NewDefaultFileLogOptions(options);
    var ok := fs.MkdirAll(opts.logDir);
    if !ok {
      return null;
    }
    w := new SingleFileWriter(fs, opts);
    w.CheckDaily(now, listing);
    FirstInitKeeps(old(fs.files), fs.unopenable, fs.unwritable, DayFileName(opts.logDir, Stamp(now)), opts.bufsize);
  }

  /**
   * The single-file writer re-opens exactly when the calendar date differs from that
   * of the last check: the stored day identifies the date.
   */
  lemma SingleFileRotatesOnNewDate(last: Date, now: Date)
    requires Dates.Valid(last) && Dates.Valid(now)
    ensures UniqueLogDay(last) != UniqueLogDay(now) <==> last != now
  {
    UniqueLogDayOrder(last, now);
  }
}
