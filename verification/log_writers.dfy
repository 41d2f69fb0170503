/**
 * The rotating file writers of the log package: FileWriter (one file per level, with
 * an optional single-output mode), multifileWriter (the same without that mode) and
 * singleWriter (one file for every level). Each re-opens its files when the
 * day of the month changes. The clock is the `now` argument.
 */
module LogWriters {
  import opened Wrappers
  import opened Levels
  import opened Files
  import opened Dates
  import opened LevelFiles

  /**
   * FileWriter. A record is written to its own level's file and, unless singleOutput
   * is set, to every lower level's file from the writer's level up.
   */
  class FileWriter {
    const level: Level
    const logdir: string
    const bufsize: int
    var day: int
    const files: array<BufferedFile>
    const singleOutput: bool
    const fs: FileSystem

    /** Six handles on the writer's file system, each open one on a file of its own level. */
    ghost predicate Valid()
      reads files, files[..]
    {
      Handles(files, fs) && LevelNamed(States(files), logdir)
    }

    /** The struct literal: day -1 and six zero handles. */
    constructor (fs: FileSystem, level: Level, logdir: string, bufsize: int, singleOutput: bool)
      ensures Valid() && fresh(files) && forall i :: 0 <= i < files.Length ==> fresh(files[i])
      ensures this.fs == fs && this.level == level && this.logdir == logdir && this.bufsize == bufsize
      ensures this.singleOutput == singleOutput && day == -1
      ensures States(files) == UnopenedHandles()
    {
      this.fs := fs;
      this.level := level;
      this.logdir := logdir;
      this.bufsize := bufsize;
      this.singleOutput := singleOutput;
      day := -1;
      var handles := NewHandles(fs);
      files := handles;
    }

    /**
     * checkDaily: when the day of the month differs from the stored one, store it and
     * re-open the files of the writer's level and above on today's names, ignoring
     * failures: the handles are Reopened and the files Rotated. On the same day
     * nothing changes.
     */
    method CheckDaily(now: Date)
      requires Valid() && Dates.Valid(now)
      modifies this`day, fs, files[..]
      ensures Valid() && day == now.day
      ensures old(day) == now.day ==> States(files) == old(States(files)) && fs.files == old(fs.files)
      ensures old(day) != now.day ==>
        var hs, names, lo := old(States(files)), LevelFileNames(logdir, Stamp(now)), Start(level, LevelMax);
        && States(files) == Reopened(hs, fs.unopenable, names, bufsize, lo, LevelMax + 1)
        && fs.files == Rotated(hs, old(fs.files), fs.unopenable, fs.unwritable, names, bufsize, lo, LevelMax + 1)
    {
      if now.day != day {
        ghost var hs := States(files);
        var date := Stamp(now);
        var _ := RotateLevels(files, fs, level, LevelFileNames(logdir, date), bufsize);
        ReopenedLevelNamed(hs, fs.unopenable, logdir, date, bufsize, Start(level, LevelMax), LevelMax + 1);
        day := now.day;
      }
    }

    /**
     * Write: checkDaily, then the cumulative write from the writer's level (or, with
     * singleOutput, from the record's level) up to the record's level, stopping at the
     * first error and returning it: the handles, the files, the result and where it
     * stopped are WriteRun's from the state checkDaily left. On the same day, each
     * handle that took the bytes has its file followed by what it holds grown by
     * exactly the bytes, and every file none of them is on is left alone.
     */
    method Write(lvl: Level, bytes: string, now: Date) returns (st: Status, ghost last: int)
      requires Valid() && Dates.Valid(now) && lvl <= LevelMax
      modifies this`day, fs, files[..]
      ensures Valid()
      ensures day == now.day
      ensures var hs, names, lo := old(States(files)), LevelFileNames(logdir, Stamp(now)), Start(level, LevelMax);
        var from := if singleOutput then lvl else level;
        var mh := if old(day) == now.day then hs else Reopened(hs, fs.unopenable, names, bufsize, lo, LevelMax + 1);
        var mf := if old(day) == now.day then old(fs.files)
                  else Rotated(hs, old(fs.files), fs.unopenable, fs.unwritable, names, bufsize, lo, LevelMax + 1);
        Run(States(files), fs.files, st, last) == WriteRun(mh, mf, fs.unwritable, bytes, Start(from, lvl), lvl + 1)
      ensures st != Ok ==> 0 <= last <= lvl && st == if files[last].name.None? then NilWriter else Failed(files[last].name.value)
      ensures old(day) == now.day ==>
        var hs, lo := old(States(files)), Start(if singleOutput then lvl else level, lvl);
        && (forall i :: lo <= i < last ==>
              hs[i].name.Some? &&
              Contents(fs.files, hs[i].name.value) + files[i].pending == Contents(old(fs.files), hs[i].name.value) + hs[i].pending + bytes)
        && (forall n :: (forall i :: lo <= i < last ==> hs[i].name != Some(n)) ==> SameEntry(old(fs.files), fs.files, n))
    {
      CheckDaily(now);
      st, last := WriteLevelsFrom(if singleOutput then lvl else level, lvl, bytes);
    }

    /**
     * The write loop of Write once the day is checked: the cumulative write from level
     * `from` up to `lvl`, as WriteRun says; each handle that took the bytes has its file
     * followed by what it holds grown by exactly the bytes, and every file none of them
     * is on is left alone.
     */
    method WriteLevelsFrom(from: Level, lvl: Level, bytes: string) returns (st: Status, ghost last: int)
      requires Valid() && lvl <= LevelMax
      modifies fs, files[..]
      ensures Valid() && day == old(day)
      ensures Run(States(files), fs.files, st, last)
        == WriteRun(old(States(files)), old(fs.files), fs.unwritable, bytes, Start(from, lvl), lvl + 1)
      ensures st != Ok ==> 0 <= last <= lvl && st == if files[last].name.None? then NilWriter else Failed(files[last].name.value)
      ensures var hs, lo := old(States(files)), Start(from, lvl);
        && (forall i :: lo <= i < last ==>
              hs[i].name.Some? &&
              Contents(fs.files, hs[i].name.value) + files[i].pending == Contents(old(fs.files), hs[i].name.value) + hs[i].pending + bytes)
        && (forall n :: (forall i :: lo <= i < last ==> hs[i].name != Some(n)) ==> SameEntry(old(fs.files), fs.files, n))
    {
      ghost var hs, before := States(files), fs.files;
      st, last := WriteLevels(files, fs, from, lvl, bytes);
      WriteRunLevelNamed(hs, before, fs.unwritable, bytes, Start(from, lvl), lvl + 1, logdir);
      assert Valid();
      LevelNamedDistinct(hs, logdir);
      WriteRunFacts(hs, before, fs.unwritable, bytes, Start(from, lvl), lvl + 1);
    }

    /**
     * Flush of the writer's level and above: the handles, the files, the result and
     * where a handle never opened made it panic are FlushRun's. Each flushed handle's
     * file gains exactly what its flush wrote; every other file is left alone.
     */
    method Flush() returns (st: Status, ghost stop: int)
      requires Valid()
      modifies fs, files[..]
      ensures Valid()
      ensures Run(States(files), fs.files, st, stop)
        == FlushRun(old(States(files)), old(fs.files), fs.unwritable, Start(level, LevelMax), LevelMax + 1)
      ensures st == Ok <==> forall l :: Start(level, LevelMax) <= l <= LevelMax ==> old(files[l].name).Some?
      ensures var hs, lo := old(States(files)), Start(level, LevelMax);
        && (forall i :: lo <= i < stop ==>
              hs[i].name.Some? && Contents(fs.files, hs[i].name.value) == Contents(old(fs.files), hs[i].name.value) + Drained(hs[i], fs.unwritable))
        && (forall n :: (forall i :: lo <= i < stop ==> hs[i].name != Some(n)) ==> SameEntry(old(fs.files), fs.files, n))
    {
      ghost var hs, before := States(files), fs.files;
      st, stop := FlushLevels(files, fs, level);
      FlushRunLevelNamed(hs, before, fs.unwritable, Start(level, LevelMax), LevelMax + 1, logdir);
      assert Valid();
      LevelNamedDistinct(hs, logdir);
      FlushRunFacts(hs, before, fs.unwritable, Start(level, LevelMax), LevelMax + 1);
    }

    /**
     * Close of the writer's level and above: the handles and the files are CloseRun's.
     * Each opened handle's file gains exactly what its flush wrote; every other file is
     * left alone.
     */
    method Close()
      requires Valid()
      modifies fs, files[..]
      ensures Valid()
      ensures var r := CloseRun(old(States(files)), old(fs.files), fs.unwritable, Start(level, LevelMax), LevelMax + 1);
        States(files) == r.hs && fs.files == r.files
      ensures var hs, lo := old(States(files)), Start(level, LevelMax);
        && (forall i :: lo <= i <= LevelMax && hs[i].name.Some? ==>
              Contents(fs.files, hs[i].name.value) == Contents(old(fs.files), hs[i].name.value) + Drained(hs[i], fs.unwritable))
        && (forall n :: (forall i :: lo <= i <= LevelMax ==> hs[i].name != Some(n)) ==> SameEntry(old(fs.files), fs.files, n))
    {
      ghost var hs, before := States(files), fs.files;
      CloseLevels(files, fs, level);
      CloseRunLevelNamed(hs, before, fs.unwritable, Start(level, LevelMax), LevelMax + 1, logdir);
      assert Valid();
      LevelNamedDistinct(hs, logdir);
      CloseRunFacts(hs, before, fs.unwritable, Start(level, LevelMax), LevelMax + 1);
    }
  }

  /**
   * NewFileWriter: fails when the directory cannot be created, changing nothing;
   * otherwise a writer whose files of its level and above are opened on today's names,
   * as far as they open, and every file that existed is kept with its contents.
   */
  method NewFileWriter(fs: FileSystem, logLevel: Level, logdir: string, bufsize: int, singleOutput: bool, now: Date)
    returns (w: FileWriter?)
    requires Dates.Valid(now)
    modifies fs
    ensures logdir in fs.badDirs <==> w == null
    ensures w == null ==> fs.files == old(fs.files)
    ensures w != null ==> fresh(w) && fresh(w.files) && w.Valid() && w.fs == fs
    ensures w != null ==> w.level == logLevel && w.logdir == logdir && w.bufsize == bufsize
    ensures w != null ==> w.singleOutput == singleOutput && w.day == now.day
    ensures w != null ==>
      var names, lo := LevelFileNames(logdir, Stamp(now)), Start(logLevel, LevelMax);
      && States(w.files) == Reopened(UnopenedHandles(), fs.unopenable, names, bufsize, lo, LevelMax + 1)
      && fs.files == Rotated(UnopenedHandles(), old(fs.files), fs.unopenable, fs.unwritable, names, bufsize, lo, LevelMax + 1)
    ensures w != null ==> forall n :: (n in old(fs.files) ==> n in fs.files) && Contents(fs.files, n) == Contents(old(fs.files), n)
  {
    var ok := fs.MkdirAll(logdir);
    if !ok {
      return null;
    }
    w := new FileWriter(fs, logLevel, logdir, bufsize, singleOutput);
    w.CheckDaily(now);
    FirstRotationKeeps(old(fs.files), fs.unopenable, fs.unwritable, LevelFileNames(logdir, Stamp(now)), bufsize,
                       Start(logLevel, LevelMax));
  }

  /** multifileWriter's constructor: NewFileWriter without single output. */
  method Multifile(fs: FileSystem, logLevel: Level, logdir: string, bufsize: int, now: Date) returns (w: FileWriter?)
    requires Dates.Valid(now)
    modifies fs
    ensures logdir in fs.badDirs <==> w == null
    ensures w == null ==> fs.files == old(fs.files)
    ensures w != null ==> fresh(w) && w.Valid() && w.fs == fs && !w.singleOutput && w.level == logLevel && w.day == now.day
    ensures w != null ==>
      var names, lo := LevelFileNames(logdir, Stamp(now)), Start(logLevel, LevelMax);
      && States(w.files) == Reopened(UnopenedHandles(), fs.unopenable, names, bufsize, lo, LevelMax + 1)
      && fs.files == Rotated(UnopenedHandles(), old(fs.files), fs.unopenable, fs.unwritable, names, bufsize, lo, LevelMax + 1)
    ensures w != null ==> forall n :: (n in old(fs.files) ==> n in fs.files) && Contents(fs.files, n) == Contents(old(fs.files), n)
  {
    w := NewFileWriter(fs, logLevel, logdir, bufsize, false, now);
  }

  /** singleWriter: every record goes to dir/date.log, whatever its level. */
  class SingleWriter {
    const level: Level
    const logdir: string
    const bufsize: int
    var day: int
    const file: BufferedFile
    const fs: FileSystem

    /** The file is on the writer's file system. */
    predicate Valid()
    {
      file.fs == fs
    }

    /** The struct literal: day -1 and a zero handle. */
    constructor (fs: FileSystem, level: Level, logdir: string, bufsize: int)
      ensures Valid() && this.fs == fs && this.level == level && this.logdir == logdir
      ensures this.bufsize == bufsize && day == -1 && fresh(file) && file.State() == Unopened
    {
      this.fs := fs;
      this.level := level;
      this.logdir := logdir;
      this.bufsize := bufsize;
      day := -1;
      file := new BufferedFile(fs);
    }

    /**
     * checkDaily: on a new day of the month the day is stored first and then the file
     * is re-opened on today's name, as InitStep says, so a failed open still moves the
     * day on. On the same day nothing changes.
     */
    method CheckDaily(now: Date)
      requires Valid() && Dates.Valid(now)
      modifies this`day, fs, file
      ensures day == now.day
      ensures old(day) == now.day ==> file.State() == old(file.State()) && fs.files == old(fs.files)
      ensures old(day) != now.day ==>
        var s := InitStep(old(file.State()), old(fs.files), fs.unopenable, fs.unwritable, DayFileName(logdir, Stamp(now)), bufsize);
        file.State() == s.h && fs.files == s.files
    {
      if now.day != day {
        day := now.day;
        var _ := file.Init(DayFileName(logdir, Stamp(now)), bufsize);
      }
    }

    /**
     * Write: checkDaily, then the bytes into the one file, as WriteStep says; the level
     * plays no part. On the same day, an accepted write grows the file followed by
     * what is held by exactly the bytes, and every other file is left alone.
     */
    method Write(lvl: Level, bytes: string, now: Date) returns (st: Status)
      requires Valid() && Dates.Valid(now)
      modifies this`day, fs, file
      ensures day == now.day
      ensures var mid := if old(day) == now.day then Step(old(file.State()), old(fs.files), Ok)
                         else InitStep(old(file.State()), old(fs.files), fs.unopenable, fs.unwritable,
                                       DayFileName(logdir, Stamp(now)), bufsize);
        Step(file.State(), fs.files, st) == WriteStep(mid.h, mid.files, fs.unwritable, bytes)
      ensures old(day) == now.day && st == Ok ==>
        file.name.Some? && Contents(fs.files, file.name.value) + file.pending == Contents(old(fs.files), file.name.value) + old(file.pending) + bytes
      ensures old(day) == now.day ==> forall n :: file.name != Some(n) ==> SameEntry(old(fs.files), fs.files, n)
    {
      CheckDaily(now);
      ghost var h, before := file.State(), fs.files;
      st := file.Write(bytes);
      forall n {
        WriteStepFile(h, before, fs.unwritable, bytes, n);
      }
    }

    /**
     * Flush, its result ignored: panics on a file that was never opened; otherwise the
     * handle and the files are FlushStep's, so the file gains exactly what the flush
     * wrote and every other file is left alone.
     */
    method Flush() returns (st: Status)
      requires Valid()
      modifies fs, file
      ensures var s := FlushStep(old(file.State()), old(fs.files), fs.unwritable);
        file.State() == s.h && fs.files == s.files && st == if s.st == NilWriter then NilWriter else Ok
      ensures st == NilWriter <==> old(file.name).None?
      ensures old(file.name).Some? ==>
        Contents(fs.files, old(file.name).value) == Contents(old(fs.files), old(file.name).value) + Drained(old(file.State()), fs.unwritable)
      ensures forall n :: old(file.name) != Some(n) ==> SameEntry(old(fs.files), fs.files, n)
    {
      ghost var h, before := file.State(), fs.files;
      var r := file.Flush();
      st := if r == NilWriter then NilWriter else Ok;
      forall n {
        FlushStepFile(h, before, fs.unwritable, n);
      }
    }

    /**
     * Close: the handle and the files are CloseStep's, so the file gains exactly what
     * the flush wrote and every other file is left alone.
     */
    method Close()
      requires Valid()
      modifies fs, file
      ensures (file.State(), fs.files) == CloseStep(old(file.State()), old(fs.files), fs.unwritable)
      ensures old(file.name).Some? ==>
        Contents(fs.files, old(file.name).value) == Contents(old(fs.files), old(file.name).value) + Drained(old(file.State()), fs.unwritable)
      ensures forall n :: old(file.name) != Some(n) ==> SameEntry(old(fs.files), fs.files, n)
    {
      ghost var h, before := file.State(), fs.files;
      file.Close();
      forall n {
        CloseStepFile(h, before, fs.unwritable, n);
      }
    }
  }

  /**
   * Singlefile: fails when the directory cannot be created, changing nothing;
   * otherwise the file is opened at once on today's name, and every file that existed
   * is kept with its contents.
   */
  method Singlefile(fs: FileSystem, logLevel: Level, logdir: string, bufsize: int, now: Date) returns (w: SingleWriter?)
    requires Dates.Valid(now)
    modifies fs
    ensures logdir in fs.badDirs <==> w == null
    ensures w == null ==> fs.files == old(fs.files)
    ensures w != null ==> fresh(w) && fresh(w.file) && w.Valid() && w.day == now.day && w.fs == fs
    ensures w != null ==> w.level == logLevel && w.logdir == logdir && w.bufsize == bufsize
    ensures w != null ==>
      var s := InitStep(Unopened, old(fs.files), fs.unopenable, fs.unwritable, DayFileName(logdir, Stamp(now)), bufsize);
      w.file.State() == s.h && fs.files == s.files
    ensures w != null ==> forall n :: (n in old(fs.files) ==> n in fs.files) && Contents(fs.files, n) == Contents(old(fs.files), n)
  {
    var ok := fs.MkdirAll(logdir);
    if !ok {
      return null;
    }
    w := new SingleWriter(fs, logLevel, logdir, bufsize);
    w.CheckDaily(now);
    FirstInitKeeps(old(fs.files), fs.unopenable, fs.unwritable, DayFileName(logdir, Stamp(now)), bufsize);
  }
}
