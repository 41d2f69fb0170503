/**
 * The file names of the writers, and the per-level file set of the multi-file writers:
 * one buffered handle per level, Debug to Fatal, in an array indexed by level, and the
 * loops over it that the writers share (the cumulative write, the daily re-open, flush
 * and close).
 */
module LevelFiles {
  import opened Wrappers
  import opened Levels
  import opened Files
  import opened Paths

  /** logfileName: dir/LEVEL.date.log. */
  function LevelFileName(dir: string, l: Level, date: string): string
  {
    Join(dir, Name(l) + "." + date + ".log")
  }

  /** The single-file writers' logfileName: dir/date.log. */
  function DayFileName(dir: string, date: string): string
  {
    Join(dir, date + ".log")
  }

  /** A name of level l's file under dir, for some date. */
  ghost predicate IsLevelFile(dir: string, l: int, n: string)
  {
    0 <= l <= LevelMax && exists date :: n == LevelFileName(dir, l, date)
  }

  /** Two dot-free words, each followed by a dot, are told apart by what follows. */
  lemma DotFreeHeads(a: string, s: string, b: string, t: string)
    requires '.' !in a && '.' !in b && a + "." + s == b + "." + t
    ensures a == b
  {
    DotAfter(a, s);
    DotAfter(b, t);
    assert |a| == |b|;
    assert a == (a + "." + s)[..|a|] && b == (b + "." + t)[..|b|];
  }

  /** In a dot-free word followed by a dot, the first dot is the one after the word. */
  lemma DotAfter(a: string, s: string)
    requires '.' !in a
    ensures (a + "." + s)[|a|] == '.'
    ensures forall m :: 0 <= m < |a| ==> (a + "." + s)[m] == a[m] != '.'
  {
  }

  /** The file names of two levels differ, whatever their dates. */
  lemma LevelFileLevel(dir: string, i: Level, j: Level, d1: string, d2: string)
    requires i <= LevelMax && j <= LevelMax
    requires LevelFileName(dir, i, d1) == LevelFileName(dir, j, d2)
    ensures i == j
  {
    var a := Name(i) + "." + (d1 + ".log");
    var b := Name(j) + "." + (d2 + ".log");
    LevelFileTail(dir, i, d1);
    LevelFileTail(dir, j, d2);
    PrefixCancel(DirPrefix(dir), a, b);
    NameTable(i);
    NameTable(j);
    DotFreeHeads(Name(i), d1 + ".log", Name(j), d2 + ".log");
    NamesDistinct(i, j);
  }

  /** A level file name is the directory's prefix, then LEVEL.date.log. */
  lemma LevelFileTail(dir: string, l: Level, date: string)
    ensures LevelFileName(dir, l, date) == DirPrefix(dir) + (Name(l) + "." + (date + ".log"))
  {
    assert Name(l) + "." + date + ".log" == Name(l) + "." + (date + ".log");
  }

  /** Equal texts after a common prefix are equal. */
  lemma PrefixCancel(pre: string, a: string, b: string)
    requires pre + a == pre + b
    ensures a == b
  {
    assert a == (pre + a)[|pre|..] && b == (pre + b)[|pre|..];
  }

  /** A name is the file of at most one level. */
  lemma LevelFilesApart(dir: string)
    ensures forall i, j, n :: IsLevelFile(dir, i, n) && IsLevelFile(dir, j, n) ==> i == j
  {
    forall i, j, n | IsLevelFile(dir, i, n) && IsLevelFile(dir, j, n)
      ensures i == j
    {
      var d1 :| n == LevelFileName(dir, i, d1);
      var d2 :| n == LevelFileName(dir, j, d2);
      LevelFileLevel(dir, i, j, d1, d2);
    }
  }

  /** Six distinct handles, one per level, on one file system. */
  ghost predicate Handles(files: array<BufferedFile>, fs: FileSystem)
    reads files
  {
    files.Length == LevelMax + 1
    && (forall i, j :: 0 <= i < j < files.Length ==> files[i] != files[j])
    && (forall i :: 0 <= i < files.Length ==> files[i].fs == fs)
  }

  /** The handles' fields, indexed by level. */
  ghost function States(files: array<BufferedFile>): (hs: seq<Handle>)
    reads files, files[..]
    ensures |hs| == files.Length && forall i :: 0 <= i < files.Length ==> hs[i] == files[i].State()
  {
    StatesBelow(files, files.Length)
  }

  ghost function StatesBelow(files: array<BufferedFile>, k: nat): (hs: seq<Handle>)
    requires k <= files.Length
    reads files, files[..]
    ensures |hs| == k && forall i :: 0 <= i < k ==> hs[i] == files[i].State()
  {
    if k == 0 then [] else StatesBelow(files, k - 1) + [files[k - 1].State()]
  }

  /** No two handles are open on the same name. */
  predicate DistinctNames(hs: seq<Handle>)
  {
    forall i, j :: 0 <= i < j < |hs| && hs[i].name.Some? && hs[j].name.Some? ==> hs[i].name.value != hs[j].name.value
  }

  /** Every open handle is on a file of its own level under dir. */
  ghost predicate LevelNamed(hs: seq<Handle>, dir: string)
  {
    forall i :: 0 <= i < |hs| && hs[i].name.Some? ==> IsLevelFile(dir, i, hs[i].name.value)
  }

  /** Handles named after their levels are on different files. */
  lemma LevelNamedDistinct(hs: seq<Handle>, dir: string)
    requires LevelNamed(hs, dir)
    ensures DistinctNames(hs)
  {
    LevelFilesApart(dir);
  }

  /**
   * The new names of a re-open keep the handles apart: the old names are distinct,
   * the new names are distinct, and no new name is another handle's old name.
   */
  predicate Apart(hs: seq<Handle>, names: seq<string>)
  {
    |names| == |hs| && DistinctNames(hs)
    && forall i, j :: 0 <= i < |hs| && 0 <= j < |hs| && i != j ==> names[i] != names[j] && hs[j].name != Some(names[i])
  }

  /** Today's file names of the levels keep handles named after their levels apart. */
  lemma LevelNamesApart(hs: seq<Handle>, names: seq<string>, dir: string)
    requires LevelNamed(hs, dir) && |names| == |hs|
    requires forall l :: 0 <= l < |names| ==> IsLevelFile(dir, l, names[l])
    ensures Apart(hs, names)
  {
    LevelFilesApart(dir);
  }

  /** Six zero handles, one per level. */
  function UnopenedHandles(): (hs: seq<Handle>)
    ensures |hs| == LevelMax + 1 && forall i :: 0 <= i < |hs| ==> hs[i] == Unopened
  {
    seq(LevelMax + 1, _ => Unopened)
  }

  /** `make([]buffedFile, levelMax+1)`: six zero handles. */
  method NewHandles(fs: FileSystem) returns (files: array<BufferedFile>)
    ensures fresh(files) && Handles(files, fs)
    ensures forall i :: 0 <= i < files.Length ==> fresh(files[i])
    ensures States(files) == UnopenedHandles()
  {
    var first := new BufferedFile(fs);
    files := new BufferedFile[LevelMax + 1](_ => first);
    var i := 1;
    while i < files.Length
      invariant 1 <= i <= files.Length
      invariant files[0] == first
      invariant forall j :: 0 <= j < files.Length ==> fresh(files[j]) && files[j].fs == fs
      invariant forall j, k :: 0 <= j < k < i ==> files[j] != files[k]
      invariant forall j :: 0 <= j < files.Length ==> files[j].State() == Unopened
    {
      files[i] := new BufferedFile(fs);
      i := i + 1;
    }
  }

  /** The handles and the files after a loop over the levels, what it returned, and where it stopped. */
  datatype Run = Run(hs: seq<Handle>, files: map<string, string>, st: Status, last: int)

  /** A handle after a flush that found a file open: emptied when the flush works, in error otherwise. */
  function Flushed(h: Handle, unwritable: set<string>): Handle
  {
    h.(pending := if CanFlush(h, unwritable) then [] else h.pending, err := !CanFlush(h, unwritable))
  }

  /**
   * The cumulative write of bytes to handles l, l+1, ..., k-1, in that order, stopping
   * at the first that fails. `last` is where it stopped: every handle from l below it
   * accepted the bytes, and only what it holds changed; on failure the handle at
   * `last` is the one that failed, its error is returned, and nothing of it but the
   * error flag changes. Every other handle is untouched.
   */
  function WriteRun(hs: seq<Handle>, files: map<string, string>, unwritable: set<string>, bytes: string, l: nat, k: nat): (r: Run)
    requires l <= k <= |hs|
    ensures |r.hs| == |hs| && l <= r.last <= k
    ensures r.st == Ok <==> r.last == k
    decreases k - l
  {
    if l == k then Run(hs, files, Ok, k)
    else
      var s := WriteStep(hs[l], files, unwritable, bytes);
      if s.st != Ok then Run(hs[l := s.h], s.files, s.st, l)
      else WriteRun(hs[l := s.h], s.files, unwritable, bytes, l + 1, k)
  }

  /** On failure the handle at `last` is the one that failed, and its error is returned. */
  lemma {:induction false} WriteRunStatus(hs: seq<Handle>, files: map<string, string>, unwritable: set<string>, bytes: string, l: nat, k: nat)
    requires l <= k <= |hs|
    ensures var r := WriteRun(hs, files, unwritable, bytes, l, k);
      r.st != Ok ==> r.st == if hs[r.last].name.None? then NilWriter else Failed(hs[r.last].name.value)
    decreases k - l
  {
    if l < k {
      var s := WriteStep(hs[l], files, unwritable, bytes);
      if s.st == Ok {
        var hs' := hs[l := s.h];
        var rest := WriteRun(hs', s.files, unwritable, bytes, l + 1, k);
        assert WriteRun(hs, files, unwritable, bytes, l, k) == rest;
        WriteRunStatus(hs', s.files, unwritable, bytes, l + 1, k);
        assert rest.last > l;
        assert rest.last < |hs| ==> hs'[rest.last] == hs[rest.last];
      }
    }
  }

  /**
   * The handle at i after the cumulative write: when it accepted the bytes it was open
   * and only what it holds changed; the one that failed changed at most its error
   * flag; any other is untouched.
   */
  lemma {:induction false} WriteRunHandle(hs: seq<Handle>, files: map<string, string>, unwritable: set<string>, bytes: string,
                                          l: nat, k: nat, i: int)
    requires l <= k <= |hs| && 0 <= i < |hs|
    ensures var r := WriteRun(hs, files, unwritable, bytes, l, k);
      if l <= i < r.last then hs[i].name.Some? && r.hs[i] == hs[i].(pending := r.hs[i].pending)
      else r.hs[i] == hs[i].(err := hs[i].err || (i == r.last && r.st.Failed?))
    decreases k - l
  {
    if l < k {
      var s := WriteStep(hs[l], files, unwritable, bytes);
      if s.st == Ok {
        WriteRunHandle(hs[l := s.h], s.files, unwritable, bytes, l + 1, k, i);
      }
    }
  }

  /** A file no accepting handle is on is left alone, and no file is removed. */
  lemma {:induction false} WriteRunFile(hs: seq<Handle>, files: map<string, string>, unwritable: set<string>, bytes: string,
                                        l: nat, k: nat, n: string)
    requires l <= k <= |hs|
    ensures n in files ==> n in WriteRun(hs, files, unwritable, bytes, l, k).files
    ensures var r := WriteRun(hs, files, unwritable, bytes, l, k);
      (forall i :: l <= i < r.last ==> hs[i].name != Some(n)) ==> SameEntry(files, r.files, n)
    decreases k - l
  {
    if l < k {
      var s := WriteStep(hs[l], files, unwritable, bytes);
      WriteStepFile(hs[l], files, unwritable, bytes, n);
      if s.st == Ok {
        WriteRunFile(hs[l := s.h], s.files, unwritable, bytes, l + 1, k, n);
      }
    }
  }

  /**
   * Names being distinct, the file of an accepting handle followed by what it holds
   * grows by exactly the bytes.
   */
  lemma {:induction false} WriteRunGrows(hs: seq<Handle>, files: map<string, string>, unwritable: set<string>, bytes: string,
                                         l: nat, k: nat, i: int)
    requires l <= k <= |hs| && DistinctNames(hs)
    requires l <= i < WriteRun(hs, files, unwritable, bytes, l, k).last
    ensures var r := WriteRun(hs, files, unwritable, bytes, l, k);
      hs[i].name.Some? &&
      Contents(r.files, hs[i].name.value) + r.hs[i].pending == Contents(files, hs[i].name.value) + hs[i].pending + bytes
    decreases k - l
  {
    if i == l {
      WriteRunGrowsFirst(hs, files, unwritable, bytes, l, k);
    } else {
      var s := WriteStep(hs[l], files, unwritable, bytes);
      var hs' := hs[l := s.h];
      WriteRunHandle(hs, files, unwritable, bytes, l, k, i);
      assert WriteRun(hs, files, unwritable, bytes, l, k) == WriteRun(hs', s.files, unwritable, bytes, l + 1, k);
      assert DistinctNames(hs');
      WriteRunGrows(hs', s.files, unwritable, bytes, l + 1, k, i);
      WriteStepFile(hs[l], files, unwritable, bytes, hs[i].name.value);
    }
  }

  /** The first handle of a cumulative write that got past it: its file and buffer grow by the bytes. */
  lemma WriteRunGrowsFirst(hs: seq<Handle>, files: map<string, string>, unwritable: set<string>, bytes: string, l: nat, k: nat)
    requires l <= k <= |hs| && DistinctNames(hs)
    requires l < WriteRun(hs, files, unwritable, bytes, l, k).last
    ensures var r := WriteRun(hs, files, unwritable, bytes, l, k);
      hs[l].name.Some? &&
      Contents(r.files, hs[l].name.value) + r.hs[l].pending == Contents(files, hs[l].name.value) + hs[l].pending + bytes
  {
    var s := WriteStep(hs[l], files, unwritable, bytes);
    var hs' := hs[l := s.h];
    WriteRunHandle(hs, files, unwritable, bytes, l, k, l);
    assert WriteRun(hs, files, unwritable, bytes, l, k) == WriteRun(hs', s.files, unwritable, bytes, l + 1, k);
    var n := hs[l].name.value;
    WriteStepFile(hs[l], files, unwritable, bytes, n);
    WriteRunHandle(hs', s.files, unwritable, bytes, l + 1, k, l);
    forall j | l + 1 <= j < WriteRun(hs', s.files, unwritable, bytes, l + 1, k).last
      ensures hs'[j].name != Some(n)
    {
      WriteRunHandle(hs, files, unwritable, bytes, l, k, j);
    }
    WriteRunFile(hs', s.files, unwritable, bytes, l + 1, k, n);
  }

  /** The cumulative write keeps every open handle on a file of its own level. */
  lemma WriteRunLevelNamed(hs: seq<Handle>, files: map<string, string>, unwritable: set<string>, bytes: string,
                           l: nat, k: nat, dir: string)
    requires l <= k <= |hs| && LevelNamed(hs, dir)
    ensures LevelNamed(WriteRun(hs, files, unwritable, bytes, l, k).hs, dir)
  {
    var r := WriteRun(hs, files, unwritable, bytes, l, k);
    forall i | 0 <= i < |hs|
      ensures r.hs[i].name == hs[i].name
    {
      WriteRunHandle(hs, files, unwritable, bytes, l, k, i);
    }
  }

  /** WriteRunHandle, WriteRunFile and WriteRunGrows for every handle and every name. */
  lemma WriteRunFacts(hs: seq<Handle>, files: map<string, string>, unwritable: set<string>, bytes: string, l: nat, k: nat)
    requires l <= k <= |hs|
    ensures var r := WriteRun(hs, files, unwritable, bytes, l, k);
      && (r.st != Ok ==> r.st == if hs[r.last].name.None? then NilWriter else Failed(hs[r.last].name.value))
      && (forall i :: 0 <= i < |hs| && (i < l || i >= r.last) ==> r.hs[i] == hs[i].(err := hs[i].err || (i == r.last && r.st.Failed?)))
      && (forall i :: l <= i < r.last ==> hs[i].name.Some? && r.hs[i] == hs[i].(pending := r.hs[i].pending))
      && (forall n :: n in files ==> n in r.files)
      && (forall n :: (forall i :: l <= i < r.last ==> hs[i].name != Some(n)) ==> SameEntry(files, r.files, n))
      && (DistinctNames(hs) ==> forall i :: l <= i < r.last ==>
            Contents(r.files, hs[i].name.value) + r.hs[i].pending == Contents(files, hs[i].name.value) + hs[i].pending + bytes)
  {
    var r := WriteRun(hs, files, unwritable, bytes, l, k);
    WriteRunStatus(hs, files, unwritable, bytes, l, k);
    forall i | 0 <= i < |hs|
      ensures if l <= i < r.last then hs[i].name.Some? && r.hs[i] == hs[i].(pending := r.hs[i].pending)
              else r.hs[i] == hs[i].(err := hs[i].err || (i == r.last && r.st.Failed?))
    {
      WriteRunHandle(hs, files, unwritable, bytes, l, k, i);
    }
    forall n
      ensures n in files ==> n in r.files
      ensures (forall i :: l <= i < r.last ==> hs[i].name != Some(n)) ==> SameEntry(files, r.files, n)
    {
      WriteRunFile(hs, files, unwritable, bytes, l, k, n);
    }
    if DistinctNames(hs) {
      forall i | l <= i < r.last
        ensures Contents(r.files, hs[i].name.value) + r.hs[i].pending == Contents(files, hs[i].name.value) + hs[i].pending + bytes
      {
        WriteRunGrows(hs, files, unwritable, bytes, l, k, i);
      }
    }
  }

  /** Today's file name of every level, indexed by level. */
  function LevelFileNames(dir: string, date: string): (names: seq<string>)
    ensures |names| == LevelMax + 1
    ensures forall l: Level :: l <= LevelMax ==> names[l] == LevelFileName(dir, l, date)
  {
    seq(LevelMax + 1, l requires 0 <= l <= LevelMax => LevelFileName(dir, l, date))
  }

  /** Today's file names are the files of their levels. */
  lemma LevelFileNamesNamed(dir: string, date: string)
    ensures forall l :: 0 <= l < |LevelFileNames(dir, date)| ==> IsLevelFile(dir, l, LevelFileNames(dir, date)[l])
  {
    var names := LevelFileNames(dir, date);
    forall l | 0 <= l < |names|
      ensures IsLevelFile(dir, l, names[l])
    {
      assert names[l] == LevelFileName(dir, l, date);
    }
  }

  /**
   * The handles after the daily re-open of l, l+1, ..., k-1: each one re-opened on
   * its new name, every other one as it was.
   */
  function Reopened(hs: seq<Handle>, unopenable: set<string>, names: seq<string>, bufsize: int, l: int, k: int): (r: seq<Handle>)
    requires |names| == |hs|
    ensures |r| == |hs|
    ensures forall i :: 0 <= i < |hs| ==> r[i] == if l <= i < k then Reopen(hs[i], unopenable, names[i], bufsize) else hs[i]
  {
    seq(|hs|, i requires 0 <= i < |hs| => if l <= i < k then Reopen(hs[i], unopenable, names[i], bufsize) else hs[i])
  }

  /** Re-opening one more handle extends the re-opened handles by it. */
  lemma ReopenedNext(hs: seq<Handle>, unopenable: set<string>, names: seq<string>, bufsize: int, lo: int, l: int)
    requires |names| == |hs| && 0 <= lo <= l < |hs|
    ensures Reopened(hs, unopenable, names, bufsize, lo, l)[l] == hs[l]
    ensures Reopened(hs, unopenable, names, bufsize, lo, l)[l := Reopen(hs[l], unopenable, names[l], bufsize)]
      == Reopened(hs, unopenable, names, bufsize, lo, l + 1)
  {
  }

  /** Re-opening on today's names keeps every open handle on a file of its own level. */
  lemma ReopenedLevelNamed(hs: seq<Handle>, unopenable: set<string>, dir: string, date: string, bufsize: int, l: int, k: int)
    requires LevelNamed(hs, dir) && |hs| == LevelMax + 1
    ensures LevelNamed(Reopened(hs, unopenable, LevelFileNames(dir, date), bufsize, l, k), dir)
  {
    LevelFileNamesNamed(dir, date);
  }

  /** The first re-open, of handles never opened, keeps every file that exists and its contents. */
  lemma FirstRotationKeeps(files: map<string, string>, unopenable: set<string>, unwritable: set<string>,
                           names: seq<string>, bufsize: int, l: nat)
    requires l <= LevelMax + 1 && |names| == LevelMax + 1
    ensures var r := Rotated(UnopenedHandles(), files, unopenable, unwritable, names, bufsize, l, LevelMax + 1);
      forall n :: (n in files ==> n in r) && Contents(r, n) == Contents(files, n)
  {
    forall n {
      RotatedFile(UnopenedHandles(), files, unopenable, unwritable, names, bufsize, l, LevelMax + 1, n);
    }
  }

  /**
   * The files after the daily re-open of l, l+1, ..., k-1: the init of each handle in
   * turn. Each init sees its handle as it was, since the earlier ones touch only their own.
   */
  function Rotated(hs: seq<Handle>, files: map<string, string>, unopenable: set<string>, unwritable: set<string>,
                   names: seq<string>, bufsize: int, l: nat, k: nat): map<string, string>
    requires l <= k <= |hs| && |names| == |hs|
    decreases k - l
  {
    if l == k then files
    else Rotated(hs, InitStep(hs[l], files, unopenable, unwritable, names[l], bufsize).files,
                 unopenable, unwritable, names, bufsize, l + 1, k)
  }

  /**
   * The re-open removes no file; a file no handle in the range was on keeps its
   * contents, and one that is also no new name is left alone.
   */
  lemma {:induction false} RotatedFile(hs: seq<Handle>, files: map<string, string>, unopenable: set<string>,
                                       unwritable: set<string>, names: seq<string>, bufsize: int, l: nat, k: nat, n: string)
    requires l <= k <= |hs| && |names| == |hs|
    ensures var r := Rotated(hs, files, unopenable, unwritable, names, bufsize, l, k);
      && (n in files ==> n in r)
      && ((forall j :: l <= j < k ==> hs[j].name != Some(n)) ==> Contents(r, n) == Contents(files, n))
      && ((forall j :: l <= j < k ==> hs[j].name != Some(n) && names[j] != n) ==> SameEntry(files, r, n))
    decreases k - l
  {
    if l < k {
      var s := InitStep(hs[l], files, unopenable, unwritable, names[l], bufsize);
      InitStepFile(hs[l], files, unopenable, unwritable, names[l], bufsize, n);
      RotatedFile(hs, s.files, unopenable, unwritable, names, bufsize, l + 1, k, n);
    }
  }

  /** Every new name that opened exists afterwards. */
  lemma {:induction false} RotatedOpens(hs: seq<Handle>, files: map<string, string>, unopenable: set<string>,
                                        unwritable: set<string>, names: seq<string>, bufsize: int, l: nat, k: nat, i: int)
    requires l <= i < k <= |hs| && |names| == |hs| && names[i] !in unopenable
    ensures names[i] in Rotated(hs, files, unopenable, unwritable, names, bufsize, l, k)
    decreases k - l
  {
    var s := InitStep(hs[l], files, unopenable, unwritable, names[l], bufsize);
    if i == l {
      RotatedFile(hs, s.files, unopenable, unwritable, names, bufsize, l + 1, k, names[i]);
    } else {
      RotatedOpens(hs, s.files, unopenable, unwritable, names, bufsize, l + 1, k, i);
    }
  }

  /** No other handle in the range is on handle i's old or new name. */
  predicate ApartAt(hs: seq<Handle>, names: seq<string>, l: nat, k: nat, i: int)
    requires k <= |hs| && |names| == |hs| && 0 <= i < |hs|
  {
    forall j :: l <= j < k && j != i ==> hs[j].name != Some(names[i]) && (hs[i].name.Some? ==> hs[j].name != hs[i].name)
  }

  /**
   * With no other handle on its names, handle i's file after the re-open followed by
   * what the re-opened handle holds is what it was followed by what the handle carries over.
   */
  lemma {:induction false} RotatedCarries(hs: seq<Handle>, files: map<string, string>, unopenable: set<string>,
                                          unwritable: set<string>, names: seq<string>, bufsize: int, l: nat, k: nat, i: int)
    requires l <= i < k <= |hs| && |names| == |hs| && ApartAt(hs, names, l, k, i)
    ensures var h := Reopen(hs[i], unopenable, names[i], bufsize);
      h.name.Some? ==>
        Contents(Rotated(hs, files, unopenable, unwritable, names, bufsize, l, k), h.name.value) + h.pending
          == Contents(files, h.name.value) + Carried(hs[i], unopenable, unwritable, names[i])
    decreases k - l
  {
    var h := Reopen(hs[i], unopenable, names[i], bufsize);
    if h.name.Some? {
      var s := InitStep(hs[l], files, unopenable, unwritable, names[l], bufsize);
      InitStepFile(hs[l], files, unopenable, unwritable, names[l], bufsize, h.name.value);
      if i == l {
        RotatedFile(hs, s.files, unopenable, unwritable, names, bufsize, l + 1, k, h.name.value);
      } else {
        RotatedCarries(hs, s.files, unopenable, unwritable, names, bufsize, l + 1, k, i);
      }
    }
  }

  /** With no other handle on its old name, handle i's old file gains what its flush wrote. */
  lemma {:induction false} RotatedFlushesOld(hs: seq<Handle>, files: map<string, string>, unopenable: set<string>,
                                             unwritable: set<string>, names: seq<string>, bufsize: int, l: nat, k: nat, i: int)
    requires l <= i < k <= |hs| && |names| == |hs| && ApartAt(hs, names, l, k, i) && hs[i].name.Some?
    ensures Contents(Rotated(hs, files, unopenable, unwritable, names, bufsize, l, k), hs[i].name.value)
      == Contents(files, hs[i].name.value) + (if names[i] in unopenable then [] else Drained(hs[i], unwritable))
    decreases k - l
  {
    var s := InitStep(hs[l], files, unopenable, unwritable, names[l], bufsize);
    InitStepFile(hs[l], files, unopenable, unwritable, names[l], bufsize, hs[i].name.value);
    if i == l {
      RotatedFile(hs, s.files, unopenable, unwritable, names, bufsize, l + 1, k, hs[i].name.value);
    } else {
      RotatedFlushesOld(hs, s.files, unopenable, unwritable, names, bufsize, l + 1, k, i);
    }
  }

  /** New names that keep the handles apart leave the re-opened handles on distinct names. */
  lemma ReopenedDistinct(hs: seq<Handle>, unopenable: set<string>, names: seq<string>, bufsize: int, l: int, k: int)
    requires Apart(hs, names)
    ensures DistinctNames(Reopened(hs, unopenable, names, bufsize, l, k))
  {
    var r := Reopened(hs, unopenable, names, bufsize, l, k);
    forall i, j | 0 <= i < j < |r| && r[i].name.Some? && r[j].name.Some?
      ensures r[i].name.value != r[j].name.value
    {
      assert r[i].name == Some(names[i]) || r[i].name == hs[i].name;
      assert r[j].name == Some(names[j]) || r[j].name == hs[j].name;
    }
  }

  /**
   * The re-open as a whole: no file is removed, every name that opened exists, no
   * file but the old ones changes its contents, and no other file changes at all.
   * When the names keep the handles apart, the re-opened handles are on distinct
   * names, each handle's file followed by what it holds is what it was followed by
   * what the handle carries over, and each old file gains what its handle's flush wrote.
   */
  lemma RotatedFacts(hs: seq<Handle>, files: map<string, string>, unopenable: set<string>, unwritable: set<string>,
                     names: seq<string>, bufsize: int, l: nat, k: nat)
    requires l <= k <= |hs| && |names| == |hs|
    ensures var r := Rotated(hs, files, unopenable, unwritable, names, bufsize, l, k);
      && (forall n :: n in files ==> n in r)
      && (forall i :: l <= i < k && names[i] !in unopenable ==> names[i] in r)
      && (forall n :: (forall j :: l <= j < k ==> hs[j].name != Some(n)) ==> Contents(r, n) == Contents(files, n))
      && (forall n :: (forall j :: l <= j < k ==> hs[j].name != Some(n) && names[j] != n) ==> SameEntry(files, r, n))
    ensures var r, rh := Rotated(hs, files, unopenable, unwritable, names, bufsize, l, k), Reopened(hs, unopenable, names, bufsize, l, k);
      Apart(hs, names) ==>
        && DistinctNames(rh)
        && (forall i :: l <= i < k && rh[i].name.Some? ==>
              Contents(r, rh[i].name.value) + rh[i].pending
                == Contents(files, rh[i].name.value) + Carried(hs[i], unopenable, unwritable, names[i]))
        && (forall i :: l <= i < k && hs[i].name.Some? ==>
              Contents(r, hs[i].name.value)
                == Contents(files, hs[i].name.value) + (if names[i] in unopenable then [] else Drained(hs[i], unwritable)))
  {
    var r := Rotated(hs, files, unopenable, unwritable, names, bufsize, l, k);
    var rh := Reopened(hs, unopenable, names, bufsize, l, k);
    forall i | l <= i < k && names[i] !in unopenable
      ensures names[i] in r
    {
      RotatedOpens(hs, files, unopenable, unwritable, names, bufsize, l, k, i);
    }
    forall n
      ensures n in files ==> n in r
      ensures (forall j :: l <= j < k ==> hs[j].name != Some(n)) ==> Contents(r, n) == Contents(files, n)
      ensures (forall j :: l <= j < k ==> hs[j].name != Some(n) && names[j] != n) ==> SameEntry(files, r, n)
    {
      RotatedFile(hs, files, unopenable, unwritable, names, bufsize, l, k, n);
    }
    if Apart(hs, names) {
      ReopenedDistinct(hs, unopenable, names, bufsize, l, k);
      forall i | l <= i < k
        ensures rh[i].name.Some? ==>
          Contents(r, rh[i].name.value) + rh[i].pending
            == Contents(files, rh[i].name.value) + Carried(hs[i], unopenable, unwritable, names[i])
        ensures hs[i].name.Some? ==>
          Contents(r, hs[i].name.value)
            == Contents(files, hs[i].name.value) + (if names[i] in unopenable then [] else Drained(hs[i], unwritable))
      {
        RotatedCarries(hs, files, unopenable, unwritable, names, bufsize, l, k, i);
        if hs[i].name.Some? {
          RotatedFlushesOld(hs, files, unopenable, unwritable, names, bufsize, l, k, i);
        }
      }
    }
  }

  /**
   * Flush of handles l, l+1, ..., k-1. The results are ignored, but a handle that was
   * never opened dereferences a nil writer, which stops the loop with a panic at
   * `last`.
   */
  function FlushRun(hs: seq<Handle>, files: map<string, string>, unwritable: set<string>, l: nat, k: nat): (r: Run)
    requires l <= k <= |hs|
    ensures |r.hs| == |hs| && l <= r.last <= k
    ensures r.st == Ok || r.st == NilWriter
    ensures r.st == Ok <==> r.last == k
    decreases k - l
  {
    if l == k then Run(hs, files, Ok, k)
    else
      var s := FlushStep(hs[l], files, unwritable);
      if s.st == NilWriter then Run(hs, files, NilWriter, l)
      else FlushRun(hs[l := s.h], s.files, unwritable, l + 1, k)
  }

  /** The flushes finish exactly when every handle was opened; otherwise they stop at one that was not. */
  lemma {:induction false} FlushRunStatus(hs: seq<Handle>, files: map<string, string>, unwritable: set<string>, l: nat, k: nat)
    requires l <= k <= |hs|
    ensures var r := FlushRun(hs, files, unwritable, l, k);
      (r.st == Ok <==> forall j :: l <= j < k ==> hs[j].name.Some?) && (r.st == NilWriter ==> hs[r.last].name.None?)
    decreases k - l
  {
    if l < k {
      var s := FlushStep(hs[l], files, unwritable);
      if s.st == NilWriter {
        assert FlushRun(hs, files, unwritable, l, k) == Run(hs, files, NilWriter, l);
      } else {
        var hs' := hs[l := s.h];
        assert FlushRun(hs, files, unwritable, l, k) == FlushRun(hs', s.files, unwritable, l + 1, k);
        FlushRunStatus(hs', s.files, unwritable, l + 1, k);
        assert forall j :: l < j < |hs| ==> hs'[j] == hs[j];
      }
    }
  }

  /** Every handle flushed is Flushed; no other handle changes. */
  lemma {:induction false} FlushRunHandle(hs: seq<Handle>, files: map<string, string>, unwritable: set<string>, l: nat, k: nat, i: int)
    requires l <= k <= |hs| && 0 <= i < |hs|
    ensures var r := FlushRun(hs, files, unwritable, l, k);
      if l <= i < r.last then hs[i].name.Some? && r.hs[i] == Flushed(hs[i], unwritable) else r.hs[i] == hs[i]
    decreases k - l
  {
    if l < k {
      var s := FlushStep(hs[l], files, unwritable);
      if s.st != NilWriter {
        FlushRunHandle(hs[l := s.h], s.files, unwritable, l + 1, k, i);
      }
    }
  }

  /** A file no flushed handle is on is left alone. */
  lemma {:induction false} FlushRunFile(hs: seq<Handle>, files: map<string, string>, unwritable: set<string>, l: nat, k: nat, n: string)
    requires l <= k <= |hs|
    ensures var r := FlushRun(hs, files, unwritable, l, k);
      (forall i :: l <= i < r.last ==> hs[i].name != Some(n)) ==> SameEntry(files, r.files, n)
    decreases k - l
  {
    if l < k {
      var s := FlushStep(hs[l], files, unwritable);
      if s.st != NilWriter {
        FlushStepFile(hs[l], files, unwritable, n);
        FlushRunFile(hs[l := s.h], s.files, unwritable, l + 1, k, n);
      }
    }
  }

  /** Names being distinct, each flushed handle's file gains exactly what its flush wrote. */
  lemma {:induction false} FlushRunDrains(hs: seq<Handle>, files: map<string, string>, unwritable: set<string>, l: nat, k: nat, i: int)
    requires l <= k <= |hs| && DistinctNames(hs)
    requires l <= i < FlushRun(hs, files, unwritable, l, k).last
    ensures var r := FlushRun(hs, files, unwritable, l, k);
      hs[i].name.Some? && Contents(r.files, hs[i].name.value) == Contents(files, hs[i].name.value) + Drained(hs[i], unwritable)
    decreases k - l
  {
    var s := FlushStep(hs[l], files, unwritable);
    var hs' := hs[l := s.h];
    FlushRunHandle(hs, files, unwritable, l, k, i);
    if i == l {
      var n := hs[l].name.value;
      forall j | l + 1 <= j < FlushRun(hs', s.files, unwritable, l + 1, k).last
        ensures hs'[j].name != Some(n)
      {
        FlushRunHandle(hs, files, unwritable, l, k, j);
      }
      FlushRunFile(hs', s.files, unwritable, l + 1, k, n);
    } else {
      assert DistinctNames(hs');
      FlushRunDrains(hs', s.files, unwritable, l + 1, k, i);
      FlushStepFile(hs[l], files, unwritable, hs[i].name.value);
    }
  }

  /** The flushes keep every open handle on a file of its own level. */
  lemma FlushRunLevelNamed(hs: seq<Handle>, files: map<string, string>, unwritable: set<string>, l: nat, k: nat, dir: string)
    requires l <= k <= |hs| && LevelNamed(hs, dir)
    ensures LevelNamed(FlushRun(hs, files, unwritable, l, k).hs, dir)
  {
    var r := FlushRun(hs, files, unwritable, l, k);
    forall i | 0 <= i < |hs|
      ensures r.hs[i].name == hs[i].name
    {
      FlushRunHandle(hs, files, unwritable, l, k, i);
    }
  }

  /**
   * The flushes as a whole: they finish exactly when every handle was opened, and
   * otherwise stop at one that was not; every handle flushed before that is Flushed,
   * and no other handle changes; a file no flushed handle is on is left alone, and,
   * names being distinct, each flushed handle's file gains exactly what its flush
   * wrote.
   */
  lemma FlushRunFacts(hs: seq<Handle>, files: map<string, string>, unwritable: set<string>, l: nat, k: nat)
    requires l <= k <= |hs|
    ensures var r := FlushRun(hs, files, unwritable, l, k);
      && (r.st == Ok <==> forall j :: l <= j < k ==> hs[j].name.Some?)
      && (r.st == NilWriter ==> hs[r.last].name.None?)
      && (forall i :: 0 <= i < |hs| && (i < l || i >= r.last) ==> r.hs[i] == hs[i])
      && (forall i :: l <= i < r.last ==> hs[i].name.Some? && r.hs[i] == Flushed(hs[i], unwritable))
      && (forall n :: (forall i :: l <= i < r.last ==> hs[i].name != Some(n)) ==> SameEntry(files, r.files, n))
      && (DistinctNames(hs) ==> forall i :: l <= i < r.last ==>
            Contents(r.files, hs[i].name.value) == Contents(files, hs[i].name.value) + Drained(hs[i], unwritable))
  {
    var r := FlushRun(hs, files, unwritable, l, k);
    FlushRunStatus(hs, files, unwritable, l, k);
    forall i | 0 <= i < |hs|
      ensures if l <= i < r.last then hs[i].name.Some? && r.hs[i] == Flushed(hs[i], unwritable) else r.hs[i] == hs[i]
    {
      FlushRunHandle(hs, files, unwritable, l, k, i);
    }
    forall n
      ensures (forall i :: l <= i < r.last ==> hs[i].name != Some(n)) ==> SameEntry(files, r.files, n)
    {
      FlushRunFile(hs, files, unwritable, l, k, n);
    }
    if DistinctNames(hs) {
      forall i | l <= i < r.last
        ensures Contents(r.files, hs[i].name.value) == Contents(files, hs[i].name.value) + Drained(hs[i], unwritable)
      {
        FlushRunDrains(hs, files, unwritable, l, k, i);
      }
    }
  }

  /** Close of handles l, l+1, ..., k-1. */
  function CloseRun(hs: seq<Handle>, files: map<string, string>, unwritable: set<string>, l: nat, k: nat): (r: Run)
    requires l <= k <= |hs|
    ensures |r.hs| == |hs| && r.st == Ok && r.last == k
    decreases k - l
  {
    if l == k then Run(hs, files, Ok, k)
    else
      var s := CloseStep(hs[l], files, unwritable);
      CloseRun(hs[l := s.0], s.1, unwritable, l + 1, k)
  }

  /** Each opened handle in the range is Flushed and closed; any other handle is untouched. */
  lemma {:induction false} CloseRunHandle(hs: seq<Handle>, files: map<string, string>, unwritable: set<string>, l: nat, k: nat, i: int)
    requires l <= k <= |hs| && 0 <= i < |hs|
    ensures var r := CloseRun(hs, files, unwritable, l, k);
      r.hs[i] == if l <= i < k && hs[i].name.Some? then Flushed(hs[i], unwritable).(closed := true) else hs[i]
    decreases k - l
  {
    if l < k {
      var s := CloseStep(hs[l], files, unwritable);
      CloseRunHandle(hs[l := s.0], s.1, unwritable, l + 1, k, i);
    }
  }

  /** A file no handle in the range is on is left alone. */
  lemma {:induction false} CloseRunFile(hs: seq<Handle>, files: map<string, string>, unwritable: set<string>, l: nat, k: nat, n: string)
    requires l <= k <= |hs|
    ensures (forall i :: l <= i < k ==> hs[i].name != Some(n)) ==> SameEntry(files, CloseRun(hs, files, unwritable, l, k).files, n)
    decreases k - l
  {
    if l < k {
      var s := CloseStep(hs[l], files, unwritable);
      CloseStepFile(hs[l], files, unwritable, n);
      CloseRunFile(hs[l := s.0], s.1, unwritable, l + 1, k, n);
    }
  }

  /** Names being distinct, each opened handle's file gains exactly what its flush wrote. */
  lemma {:induction false} CloseRunDrains(hs: seq<Handle>, files: map<string, string>, unwritable: set<string>, l: nat, k: nat, i: int)
    requires l <= i < k <= |hs| && DistinctNames(hs) && hs[i].name.Some?
    ensures Contents(CloseRun(hs, files, unwritable, l, k).files, hs[i].name.value)
      == Contents(files, hs[i].name.value) + Drained(hs[i], unwritable)
    decreases k - l
  {
    var s := CloseStep(hs[l], files, unwritable);
    var hs' := hs[l := s.0];
    if i == l {
      CloseRunFile(hs', s.1, unwritable, l + 1, k, hs[i].name.value);
    } else {
      assert DistinctNames(hs');
      CloseRunDrains(hs', s.1, unwritable, l + 1, k, i);
      CloseStepFile(hs[l], files, unwritable, hs[i].name.value);
    }
  }

  /** The closes keep every open handle on a file of its own level. */
  lemma CloseRunLevelNamed(hs: seq<Handle>, files: map<string, string>, unwritable: set<string>, l: nat, k: nat, dir: string)
    requires l <= k <= |hs| && LevelNamed(hs, dir)
    ensures LevelNamed(CloseRun(hs, files, unwritable, l, k).hs, dir)
  {
    var r := CloseRun(hs, files, unwritable, l, k);
    forall i | 0 <= i < |hs|
      ensures r.hs[i].name == hs[i].name
    {
      CloseRunHandle(hs, files, unwritable, l, k, i);
    }
  }

  /**
   * The closes as a whole: each opened handle in the range is Flushed and closed, any
   * other handle is untouched; a file no handle in the range is on is left alone,
   * and, names being distinct, each opened handle's file gains exactly what its flush
   * wrote.
   */
  lemma CloseRunFacts(hs: seq<Handle>, files: map<string, string>, unwritable: set<string>, l: nat, k: nat)
    requires l <= k <= |hs|
    ensures var r := CloseRun(hs, files, unwritable, l, k);
      && (forall i :: 0 <= i < |hs| ==>
            r.hs[i] == if l <= i < k && hs[i].name.Some? then Flushed(hs[i], unwritable).(closed := true) else hs[i])
      && (forall n :: (forall i :: l <= i < k ==> hs[i].name != Some(n)) ==> SameEntry(files, r.files, n))
      && (DistinctNames(hs) ==> forall i :: l <= i < k && hs[i].name.Some? ==>
            Contents(r.files, hs[i].name.value) == Contents(files, hs[i].name.value) + Drained(hs[i], unwritable))
  {
    var r := CloseRun(hs, files, unwritable, l, k);
    forall i | 0 <= i < |hs|
      ensures r.hs[i] == if l <= i < k && hs[i].name.Some? then Flushed(hs[i], unwritable).(closed := true) else hs[i]
    {
      CloseRunHandle(hs, files, unwritable, l, k, i);
    }
    forall n
      ensures (forall i :: l <= i < k ==> hs[i].name != Some(n)) ==> SameEntry(files, r.files, n)
    {
      CloseRunFile(hs, files, unwritable, l, k, n);
    }
    if DistinctNames(hs) {
      forall i | l <= i < k && hs[i].name.Some?
        ensures Contents(r.files, hs[i].name.value) == Contents(files, hs[i].name.value) + Drained(hs[i], unwritable)
      {
        CloseRunDrains(hs, files, unwritable, l, k, i);
      }
    }
  }

  /** The first level a loop from `from` up to `top` visits, or top + 1 when it visits none. */
  function Start(from: Level, top: int): int
  {
    if from <= top then from else top + 1
  }

  /** The write of one level's handle: only it and the files change, as WriteStep says. */
  method WriteLevel(files: array<BufferedFile>, fs: FileSystem, l: int, bytes: string) returns (st: Status)
    requires Handles(files, fs) && 0 <= l < files.Length
    modifies fs, files[l]
    ensures var s := WriteStep(old(States(files))[l], old(fs.files), fs.unwritable, bytes);
      States(files) == old(States(files))[l := s.h] && fs.files == s.files && st == s.st
  {
    ghost var hs := States(files);
    st := files[l].Write(bytes);
    assert States(files) == hs[l := files[l].State()];
  }

  /** The init of one level's handle: only it and the files change, as InitStep says. */
  method InitLevel(files: array<BufferedFile>, fs: FileSystem, l: int, name: string, bufsize: int) returns (st: Status)
    requires Handles(files, fs) && 0 <= l < files.Length
    modifies fs, files[l]
    ensures var s := InitStep(old(States(files))[l], old(fs.files), fs.unopenable, fs.unwritable, name, bufsize);
      States(files) == old(States(files))[l := s.h] && fs.files == s.files && st == s.st
  {
    ghost var hs := States(files);
    st := files[l].Init(name, bufsize);
    assert States(files) == hs[l := files[l].State()];
  }

  /** The flush of one level's handle: only it and the files change, as FlushStep says. */
  method FlushLevel(files: array<BufferedFile>, fs: FileSystem, l: int) returns (st: Status)
    requires Handles(files, fs) && 0 <= l < files.Length
    modifies fs, files[l]
    ensures var s := FlushStep(old(States(files))[l], old(fs.files), fs.unwritable);
      States(files) == old(States(files))[l := s.h] && fs.files == s.files && st == s.st
  {
    ghost var hs := States(files);
    st := files[l].Flush();
    assert States(files) == hs[l := files[l].State()];
  }

  /** The close of one level's handle: only it and the files change, as CloseStep says. */
  method CloseLevel(files: array<BufferedFile>, fs: FileSystem, l: int)
    requires Handles(files, fs) && 0 <= l < files.Length
    modifies fs, files[l]
    ensures var s := CloseStep(old(States(files))[l], old(fs.files), fs.unwritable);
      States(files) == old(States(files))[l := s.0] && fs.files == s.1
  {
    ghost var hs := States(files);
    files[l].Close();
    assert States(files) == hs[l := files[l].State()];
  }

  /**
   * The cumulative write: files[from], files[from+1], ... up to files[level], stopping
   * at the first that fails. The handles, the files, the result and where it stopped
   * are WriteRun's.
   */
  method WriteLevels(files: array<BufferedFile>, fs: FileSystem, from: Level, level: Level, bytes: string)
    returns (st: Status, ghost last: int)
    requires Handles(files, fs) && level <= LevelMax
    modifies fs, files[..]
    ensures Handles(files, fs)
    ensures Run(States(files), fs.files, st, last)
      == WriteRun(old(States(files)), old(fs.files), fs.unwritable, bytes, Start(from, level), level + 1)
  {
    ghost var run := WriteRun(States(files), fs.files, fs.unwritable, bytes, Start(from, level), level + 1);
    st := Ok;
    var l := Start(from, level);
    last := l;
    while l <= level && st == Ok
      invariant Start(from, level) <= l <= level + 1
      invariant st == Ok ==> last == l && WriteRun(States(files), fs.files, fs.unwritable, bytes, last, level + 1) == run
      invariant st != Ok ==> Run(States(files), fs.files, st, last) == run
    {
      st := WriteLevel(files, fs, l, bytes);
      if st == Ok {
        last := l + 1;
      }
      l := l + 1;
    }
  }

  /** Some name from index l up to k cannot be opened. */
  predicate AnyUnopenable(names: seq<string>, unopenable: set<string>, l: int, k: int)
    requires 0 <= l && k <= |names|
  {
    exists j :: l <= j < k && names[j] in unopenable
  }

  /**
   * The daily re-open: init every level from `from` to Fatal on its new name, going on
   * after a failure. The handles are Reopened and the files Rotated; `failed` says
   * whether any new name could not be opened.
   */
  method RotateLevels(files: array<BufferedFile>, fs: FileSystem, from: Level, names: seq<string>, bufsize: int)
    returns (failed: bool)
    requires Handles(files, fs) && |names| == LevelMax + 1
    modifies fs, files[..]
    ensures Handles(files, fs)
    ensures var hs, lo := old(States(files)), Start(from, LevelMax);
      && States(files) == Reopened(hs, fs.unopenable, names, bufsize, lo, LevelMax + 1)
      && fs.files == Rotated(hs, old(fs.files), fs.unopenable, fs.unwritable, names, bufsize, lo, LevelMax + 1)
      && (failed <==> AnyUnopenable(names, fs.unopenable, lo, LevelMax + 1))
  {
    ghost var hs := States(files);
    var lo := Start(from, LevelMax);
    ghost var target := Rotated(hs, fs.files, fs.unopenable, fs.unwritable, names, bufsize, lo, LevelMax + 1);
    failed := false;
    var l := lo;
    while l <= LevelMax
      invariant lo <= l <= LevelMax + 1
      invariant States(files) == Reopened(hs, fs.unopenable, names, bufsize, lo, l)
      invariant Rotated(hs, fs.files, fs.unopenable, fs.unwritable, names, bufsize, l, LevelMax + 1) == target
      invariant failed <==> AnyUnopenable(names, fs.unopenable, lo, l)
    {
      var st := InitLevel(files, fs, l, names[l], bufsize);
      ReopenedNext(hs, fs.unopenable, names, bufsize, lo, l);
      assert st == Ok <==> names[l] !in fs.unopenable;
      if st != Ok {
        failed := true;
      }
      l := l + 1;
    }
  }

  /**
   * Flush of every level from `from` to Fatal. The results are ignored; a handle
   * never opened panics. The handles, the files, the result and where it stopped are
   * FlushRun's.
   */
  method FlushLevels(files: array<BufferedFile>, fs: FileSystem, from: Level) returns (st: Status, ghost stop: int)
    requires Handles(files, fs)
    modifies fs, files[..]
    ensures Handles(files, fs)
    ensures Run(States(files), fs.files, st, stop)
      == FlushRun(old(States(files)), old(fs.files), fs.unwritable, Start(from, LevelMax), LevelMax + 1)
  {
    ghost var run := FlushRun(States(files), fs.files, fs.unwritable, Start(from, LevelMax), LevelMax + 1);
    var l := Start(from, LevelMax);
    while l <= LevelMax
      invariant Start(from, LevelMax) <= l <= LevelMax + 1
      invariant FlushRun(States(files), fs.files, fs.unwritable, l, LevelMax + 1) == run
    {
      var r := FlushLevel(files, fs, l);
      if r == NilWriter {
        return NilWriter, l;
      }
      l := l + 1;
    }
    st, stop := Ok, LevelMax + 1;
  }

  /**
   * Close of every level from `from` to Fatal. The handles and the files are
   * CloseRun's.
   */
  method CloseLevels(files: array<BufferedFile>, fs: FileSystem, from: Level)
    requires Handles(files, fs)
    modifies fs, files[..]
    ensures Handles(files, fs)
    ensures var r := CloseRun(old(States(files)), old(fs.files), fs.unwritable, Start(from, LevelMax), LevelMax + 1);
      States(files) == r.hs && fs.files == r.files
  {
    ghost var run := CloseRun(States(files), fs.files, fs.unwritable, Start(from, LevelMax), LevelMax + 1);
    var l := Start(from, LevelMax);
    while l <= LevelMax
      invariant Start(from, LevelMax) <= l <= LevelMax + 1
      invariant CloseRun(States(files), fs.files, fs.unwritable, l, LevelMax + 1) == run
    {
      CloseLevel(files, fs, l);
      l := l + 1;
    }
  }
}
