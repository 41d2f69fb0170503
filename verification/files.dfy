/**
 * The operating system as the file writers see it, and the buffered file handle
 * (buffedFile / logBuffer: an *os.File with a *bufio.Writer in front of it).
 */
module Files {
  import opened Wrappers

  /** The contents of a name, empty when the file does not exist. */
  function Contents(files: map<string, string>, name: string): string
  {
    if name in files then files[name] else []
  }

  /** `name` is absent from both maps, or present in both with the same contents. */
  predicate SameEntry(a: map<string, string>, b: map<string, string>, name: string)
  {
    (name in a <==> name in b) && Contents(a, name) == Contents(b, name)
  }

  /** The files after data is appended to name, which is created when missing. */
  function Appended(files: map<string, string>, name: string, data: string): (r: map<string, string>)
    ensures name in r && Contents(r, name) == Contents(files, name) + data
  {
    files[name := Contents(files, name) + data]
  }

  /** Appending to name changes no other file. */
  lemma AppendedFile(files: map<string, string>, name: string, data: string, n: string)
    ensures n != name ==> SameEntry(files, Appended(files, name, data), n)
  {
  }

  /** The files after name is opened for appending: created empty when missing. */
  function Opened(files: map<string, string>, name: string): (r: map<string, string>)
    ensures name in r && Contents(r, name) == Contents(files, name)
  {
    files[name := Contents(files, name)]
  }

  /** Opening removes no file, changes no contents and leaves every other name alone. */
  lemma OpenedFile(files: map<string, string>, name: string, n: string)
    ensures var r := Opened(files, name);
      && (n in files ==> n in r)
      && Contents(r, n) == Contents(files, n)
      && (n != name ==> SameEntry(files, r, n))
  {
  }

  /**
   * Files by name. Which names cannot be opened, which cannot be written and which
   * directories cannot be created are fixed properties of the environment.
   */
  class FileSystem {
    var files: map<string, string>
    const unopenable: set<string>
    const unwritable: set<string>
    const badDirs: set<string>

    constructor (files: map<string, string>, unopenable: set<string>, unwritable: set<string>, badDirs: set<string>)
      ensures this.files == files && this.unopenable == unopenable
      ensures this.unwritable == unwritable && this.badDirs == badDirs
    {
      this.files := files;
      this.unopenable := unopenable;
      this.unwritable := unwritable;
      this.badDirs := badDirs;
    }

    /** os.MkdirAll. */
    method MkdirAll(dir: string) returns (ok: bool)
      ensures ok <==> dir !in badDirs
    {
      ok := dir !in badDirs;
    }

    /** os.OpenFile with O_CREATE|O_WRONLY|O_APPEND: creates the file empty when it is missing. */
    method Open(name: string) returns (ok: bool)
      modifies this
      ensures ok <==> name !in unopenable
      ensures files == if ok then Opened(old(files), name) else old(files)
    {
      ok := name !in unopenable;
      if ok {
        files := Opened(files, name);
      }
    }

    /** A write through an open descriptor: appends, or fails and writes nothing. */
    method Append(name: string, data: string) returns (ok: bool)
      modifies this
      ensures ok <==> name !in unwritable
      ensures files == if ok then Appended(old(files), name, data) else old(files)
    {
      ok := name !in unwritable;
      if ok {
        files := Appended(files, name, data);
      }
    }

    /** os.Remove, with its error ignored. */
    method Remove(name: string)
      modifies this
      ensures files == old(files) - {name}
    {
      files := files - {name};
    }
  }

  /** What a write or flush came to: success, the error of a named file, or a nil *bufio.Writer dereferenced (a panic). */
  datatype Status = Ok | Failed(file: string) | NilWriter

  /** bufio.NewWriterSize: a size that is not positive means 4096. */
  function BufSize(n: int): (s: int)
    ensures s > 0
    ensures n > 0 ==> s == n
  {
    if n <= 0 then 4096 else n
  }

  /** A handle's fields as a value (see BufferedFile). */
  datatype Handle = Handle(name: Option<string>, closed: bool, size: int, pending: string, err: bool)

  /** The zero buffedFile: no file and a nil writer. */
  const Unopened: Handle := Handle(None, false, 0, [], false)

  /** A flush writes out everything held: a file, no error, and nothing to write or a descriptor that takes it. */
  predicate CanFlush(h: Handle, unwritable: set<string>)
  {
    h.name.Some? && !h.err && (h.pending == [] || (!h.closed && h.name.value !in unwritable))
  }

  /** Write(p) goes to the descriptor: p does not fit beside what is held, and the descriptor takes both. */
  predicate Spills(h: Handle, unwritable: set<string>, p: string)
  {
    h.name.Some? && !h.err && |h.pending| + |p| > h.size && !h.closed && h.name.value !in unwritable
  }

  /** What a flush writes out: everything held when it works, nothing otherwise. */
  function Drained(h: Handle, unwritable: set<string>): string
  {
    if CanFlush(h, unwritable) then h.pending else []
  }

  /**
   * What is held now and still reaches the file the handle has after init(newName):
   * everything when the open fails, what the flush writes when the new name is the
   * old one, and nothing otherwise (Reset drops it, or it went to the old file).
   */
  function Carried(h: Handle, unopenable: set<string>, unwritable: set<string>, newName: string): string
  {
    if newName in unopenable then h.pending else if h.name == Some(newName) then Drained(h, unwritable) else []
  }

  /** The handle and the files after one operation on a handle, and what it returned. */
  datatype Step = Step(h: Handle, files: map<string, string>, st: Status)

  /**
   * bufio.Writer.Write on handle h. A sticky error is returned again; data that fits
   * is kept; otherwise what is held and the new data go out together. The file
   * followed by what is held grows by exactly p when the write is accepted; no other
   * file changes, and nothing changes when it is refused.
   */
  function WriteStep(h: Handle, files: map<string, string>, unwritable: set<string>, p: string): (r: Step)
    ensures r.st == NilWriter <==> h.name.None?
    ensures r.st == Ok <==> h.name.Some? && !h.err && (|h.pending| + |p| <= h.size || (!h.closed && h.name.value !in unwritable))
    ensures r.st.Failed? ==> r.st == Failed(h.name.value)
    ensures r.h == h.(pending := r.h.pending, err := h.err || r.st.Failed?)
    ensures r.st == Ok ==> r.h.pending == [] || (r.h.pending == h.pending + p && |r.h.pending| <= h.size)
    ensures r.st != Ok ==> r.h.pending == h.pending && r.files == files
  {
    if h.name.None? then Step(h, files, NilWriter)
    else if h.err then Step(h, files, Failed(h.name.value))
    else if |h.pending| + |p| <= h.size then Step(h.(pending := h.pending + p), files, Ok)
    else if Spills(h, unwritable, p) then Step(h.(pending := []), Appended(files, h.name.value, h.pending + p), Ok)
    else Step(h.(err := true), files, Failed(h.name.value))
  }

  /**
   * When a write is accepted, the handle's file followed by what is held grows by
   * exactly p. A write removes no file and leaves alone every file but the handle's.
   */
  lemma WriteStepFile(h: Handle, files: map<string, string>, unwritable: set<string>, p: string, n: string)
    ensures var r := WriteStep(h, files, unwritable, p);
      r.st == Ok && h.name == Some(n) ==> Contents(r.files, n) + r.h.pending == Contents(files, n) + h.pending + p
    ensures n in files ==> n in WriteStep(h, files, unwritable, p).files
    ensures h.name != Some(n) ==> SameEntry(files, WriteStep(h, files, unwritable, p).files, n)
  {
    if Spills(h, unwritable, p) && |h.pending| + |p| > h.size {
      AppendedFile(files, h.name.value, h.pending + p, n);
    }
  }

  /**
   * bufio.Writer.Flush on handle h: writes out what is held, or records the error.
   * The file gains exactly what the flush wrote; the file followed by what is held
   * does not change; no other file changes.
   */
  function FlushStep(h: Handle, files: map<string, string>, unwritable: set<string>): (r: Step)
    ensures r.st == NilWriter <==> h.name.None?
    ensures r.st == Ok <==> CanFlush(h, unwritable)
    ensures r.st.Failed? ==> r.st == Failed(h.name.value)
    ensures r.h == h.(pending := if r.st == Ok then [] else h.pending, err := h.err || r.st.Failed?)
    ensures Drained(h, unwritable) == [] ==> r.files == files
  {
    if h.name.None? then Step(h, files, NilWriter)
    else if h.err then Step(h, files, Failed(h.name.value))
    else if h.pending == [] then Step(h, files, Ok)
    else if !h.closed && h.name.value !in unwritable then Step(h.(pending := []), Appended(files, h.name.value, h.pending), Ok)
    else Step(h.(err := true), files, Failed(h.name.value))
  }

  /**
   * The handle's file gains exactly what the flush wrote, so the file followed by
   * what is held does not change. A flush removes no file and leaves alone every
   * file but the handle's.
   */
  lemma FlushStepFile(h: Handle, files: map<string, string>, unwritable: set<string>, n: string)
    ensures var r := FlushStep(h, files, unwritable);
      h.name == Some(n) ==> Contents(r.files, n) == Contents(files, n) + Drained(h, unwritable)
    ensures var r := FlushStep(h, files, unwritable);
      h.name == Some(n) ==> Contents(r.files, n) + r.h.pending == Contents(files, n) + h.pending
    ensures n in files ==> n in FlushStep(h, files, unwritable).files
    ensures h.name != Some(n) ==> SameEntry(files, FlushStep(h, files, unwritable).files, n)
  {
    if CanFlush(h, unwritable) && h.pending != [] {
      AppendedFile(files, h.name.value, h.pending, n);
    }
  }

  /**
   * init on handle h: open the new file; on failure return its error and change
   * nothing. On success flush and close the old file and reuse its writer (Reset
   * drops whatever the flush could not write and clears the error), or, the first
   * time, make a writer of bufsize. The old file gains what the flush wrote; the new
   * file exists; the new file followed by what is held is what it was followed by
   * what the handle carries over; no other file changes.
   */
  function InitStep(h: Handle, files: map<string, string>, unopenable: set<string>, unwritable: set<string>,
                    newName: string, bufsize: int): (r: Step)
    ensures r.st == Ok <==> newName !in unopenable
    ensures r.st != Ok ==> r == Step(h, files, Failed(newName))
    ensures r.h == Reopen(h, unopenable, newName, bufsize)
    ensures r.st == Ok ==> newName in r.files
  {
    if newName in unopenable then Step(h, files, Failed(newName))
    else
      var created := Opened(files, newName);
      if h.name.Some? then
        Step(Handle(Some(newName), false, h.size, [], false), FlushStep(h, created, unwritable).files, Ok)
      else
        Step(Handle(Some(newName), false, BufSize(bufsize), [], false), created, Ok)
  }

  /**
   * What init(newName) leaves in handle h: the new name, open, empty, without error,
   * its writer kept (or made of bufsize the first time) when the name opens;
   * otherwise the handle exactly as it was.
   */
  function Reopen(h: Handle, unopenable: set<string>, newName: string, bufsize: int): (r: Handle)
    ensures newName in unopenable ==> r == h
    ensures newName !in unopenable ==>
      && r.name == Some(newName) && !r.closed && r.pending == [] && !r.err
      && r.size == if h.name.Some? then h.size else BufSize(bufsize)
  {
    if newName in unopenable then h
    else Handle(Some(newName), false, if h.name.Some? then h.size else BufSize(bufsize), [], false)
  }

  /**
   * After init the old file has gained what the flush wrote, and the file the handle
   * has, followed by what is held, is what it was followed by what the handle
   * carries over. init removes no file; it changes the contents of no file but the
   * handle's old one, and leaves alone every file but that and the new one.
   */
  lemma InitStepFile(h: Handle, files: map<string, string>, unopenable: set<string>, unwritable: set<string>,
                     newName: string, bufsize: int, n: string)
    ensures var r := InitStep(h, files, unopenable, unwritable, newName, bufsize);
      r.st == Ok && h.name == Some(n) ==> Contents(r.files, n) == Contents(files, n) + Drained(h, unwritable)
    ensures var r := InitStep(h, files, unopenable, unwritable, newName, bufsize);
      r.h.name == Some(n) ==> Contents(r.files, n) + r.h.pending == Contents(files, n) + Carried(h, unopenable, unwritable, newName)
    ensures var r := InitStep(h, files, unopenable, unwritable, newName, bufsize);
      && (n in files ==> n in r.files)
      && (h.name != Some(n) ==> Contents(r.files, n) == Contents(files, n))
      && (h.name != Some(n) && n != newName ==> SameEntry(files, r.files, n))
  {
    if newName !in unopenable {
      OpenedFile(files, newName, n);
      if h.name.Some? {
        FlushStepFile(h, Opened(files, newName), unwritable, n);
      }
    }
  }

  /** The first init, of a handle never opened, keeps every file that exists and its contents. */
  lemma FirstInitKeeps(files: map<string, string>, unopenable: set<string>, unwritable: set<string>,
                       newName: string, bufsize: int)
    ensures var r := InitStep(Unopened, files, unopenable, unwritable, newName, bufsize);
      forall n :: (n in files ==> n in r.files) && Contents(r.files, n) == Contents(files, n)
  {
    forall n {
      InitStepFile(Unopened, files, unopenable, unwritable, newName, bufsize, n);
    }
  }

  /**
   * Close on handle h (it returns nothing): nothing for a never-opened handle;
   * otherwise flush, ignoring the result, and close the descriptor. The file gains
   * exactly what the flush wrote; no other file changes.
   */
  function CloseStep(h: Handle, files: map<string, string>, unwritable: set<string>): (r: (Handle, map<string, string>))
    ensures h.name.None? ==> r == (h, files)
    ensures h.name.Some? ==>
      r.0 == h.(closed := true, pending := if CanFlush(h, unwritable) then [] else h.pending, err := !CanFlush(h, unwritable))
    ensures Drained(h, unwritable) == [] ==> r.1 == files
  {
    if h.name.None? then (h, files)
    else
      var f := FlushStep(h, files, unwritable);
      (f.h.(closed := true), f.files)
  }

  /** The handle's file gains exactly what the flush wrote; a close leaves alone every other file. */
  lemma CloseStepFile(h: Handle, files: map<string, string>, unwritable: set<string>, n: string)
    ensures h.name == Some(n) ==> Contents(CloseStep(h, files, unwritable).1, n) == Contents(files, n) + Drained(h, unwritable)
    ensures h.name != Some(n) ==> SameEntry(files, CloseStep(h, files, unwritable).1, n)
  {
    if h.name.Some? {
      FlushStepFile(h, files, unwritable, n);
    }
  }

  /**
   * buffedFile / logBuffer. `name` is the open *os.File (None while it is nil, which is
   * also when the *bufio.Writer is nil); `closed` says the descriptor was closed;
   * `pending` is what the bufio.Writer holds; `err` says it holds a sticky error, which
   * is always the error of a write to `name`.
   */
  class BufferedFile {
    var name: Option<string>
    var closed: bool
    var size: int
    var pending: string
    var err: bool
    const fs: FileSystem

    /** The zero buffedFile. */
    constructor (fs: FileSystem)
      ensures this.fs == fs && State() == Unopened
    {
      this.fs := fs;
      name := None;
      closed := false;
      size := 0;
      pending := [];
      err := false;
    }

    ghost function State(): Handle
      reads this
    {
      Handle(name, closed, size, pending, err)
    }

    /** A write of the descriptor: fails on a closed one or an unwritable name. */
    method WriteOut(data: string) returns (ok: bool)
      requires name.Some?
      modifies fs
      ensures ok <==> !closed && name.value !in fs.unwritable
      ensures fs.files == if ok then Appended(old(fs.files), name.value, data) else old(fs.files)
    {
      if closed {
        ok := false;
      } else {
        ok := fs.Append(name.value, data);
      }
    }

    /** bufio.Writer.Write: the handle, the files and the result are WriteStep's. */
    method Write(p: string) returns (st: Status)
      modifies this`pending, this`err, fs
      ensures Step(State(), fs.files, st) == WriteStep(old(State()), old(fs.files), fs.unwritable, p)
    {
      if name.None? {
        return NilWriter;
      }
      if err {
        return Failed(name.value);
      }
      if |pending| + |p| <= size {
        pending := pending + p;
        return Ok;
      }
      var ok := WriteOut(pending + p);
      if ok {
        pending := [];
        st := Ok;
      } else {
        err := true;
        st := Failed(name.value);
      }
    }

    /** bufio.Writer.Flush: the handle, the files and the result are FlushStep's. */
    method Flush() returns (st: Status)
      modifies this`pending, this`err, fs
      ensures Step(State(), fs.files, st) == FlushStep(old(State()), old(fs.files), fs.unwritable)
    {
      if name.None? {
        return NilWriter;
      }
      if err {
        return Failed(name.value);
      }
      if pending == [] {
        return Ok;
      }
      var ok := WriteOut(pending);
      if ok {
        pending := [];
        st := Ok;
      } else {
        err := true;
        st := Failed(name.value);
      }
    }

    /** init: the handle, the files and the result are InitStep's. */
    method Init(newName: string, bufsize: int) returns (st: Status)
      modifies this, fs
      ensures Step(State(), fs.files, st) == InitStep(old(State()), old(fs.files), fs.unopenable, fs.unwritable, newName, bufsize)
    {
      var ok := fs.Open(newName);
      if !ok {
        return Failed(newName);
      }
      if name.Some? {
        var _ := Flush();
        closed := true;
        pending := [];
        err := false;
      } else {
        size := BufSize(bufsize);
        pending := [];
        err := false;
      }
      name := Some(newName);
      closed := false;
      st := Ok;
    }

    /** Close: the handle and the files are CloseStep's. */
    method Close()
      modifies this, fs
      ensures (State(), fs.files) == CloseStep(old(State()), old(fs.files), fs.unwritable)
    {
      if name.Some? {
        var _ := Flush();
        closed := true;
      }
    }
  }
}
