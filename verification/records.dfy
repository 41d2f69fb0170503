/**
 * The log record (Log), its field-accumulation rules, the caller-path trimming, and the
 * pools that recycle records and buffers.
 */
module Records {
  import opened Levels
  import opened Values
  import Decimal
  import TypeEncoding

  /** The zero time.Time (January 1, year 1, UTC). */
  const ZeroTime := Instant(-62135596800 * 1_000_000_000)

  /**
   * WithFields' reading of its arguments: a string with a successor is a key and its
   * value, a Field is taken as it is, anything else skips two places; a final string
   * without a value is dropped.
   */
  function CollectFields(args: seq<Value>): seq<Field>
  {
    if args == [] then []
    else match args[0]
      case Atom(Str(k)) => if |args| >= 2 then [Field(k, args[1])] + CollectFields(args[2..]) else []
      case FieldVal(f) => [f] + CollectFields(args[1..])
      case _ => if |args| >= 2 then CollectFields(args[2..]) else []
  }

  /** The suffix of args from i on (empty past the end). */
  function From(args: seq<Value>, i: nat): seq<Value>
  {
    if i >= |args| then [] else args[i..]
  }

  /** No argument ever produces more than one field. */
  lemma {:induction false} CollectFieldsBound(args: seq<Value>)
    ensures |CollectFields(args)| <= |args|
  {
    if args != [] {
      if args[0].FieldVal? {
        CollectFieldsBound(args[1..]);
      } else if |args| >= 2 {
        CollectFieldsBound(args[2..]);
      }
    }
  }

  /** A well-formed WithFields argument: a key/value pair or a pre-built Field. */
  datatype Entry = Pair(key: string, val: Value) | Prebuilt(field: Field)

  function Flatten(es: seq<Entry>): seq<Value>
  {
    if es == [] then []
    else match es[0]
      case Pair(k, v) => [Atom(Str(k)), v] + Flatten(es[1..])
      case Prebuilt(f) => [FieldVal(f)] + Flatten(es[1..])
  }

  function ToFields(es: seq<Entry>): seq<Field>
  {
    if es == [] then []
    else match es[0]
      case Pair(k, v) => [Field(k, v)] + ToFields(es[1..])
      case Prebuilt(f) => [f] + ToFields(es[1..])
  }

  /**
   * Well-formed arguments lose nothing: each pair becomes one Field and each Field
   * is kept, in order; an unpaired key added at the end is silently dropped.
   */
  lemma {:induction false} CollectFlatten(es: seq<Entry>, k: string)
    ensures CollectFields(Flatten(es)) == ToFields(es)
    ensures CollectFields(Flatten(es) + [Atom(Str(k))]) == ToFields(es)
  {
    if es != [] {
      CollectFlatten(es[1..], k);
      var rest := Flatten(es[1..]);
      match es[0]
      case Pair(kk, v) =>
        assert (Flatten(es) + [Atom(Str(k))])[2..] == rest + [Atom(Str(k))];
        assert Flatten(es)[2..] == rest;
      case Prebuilt(f) =>
        assert (Flatten(es) + [Atom(Str(k))])[1..] == rest + [Atom(Str(k))];
        assert Flatten(es)[1..] == rest;
    }
  }

  /** Anything that is neither string nor Field costs its successor too. */
  lemma NonKeySkipsTwo(x: Value, v: Value, rest: seq<Value>)
    requires !x.IsStr() && !x.FieldVal?
    ensures CollectFields([x, v] + rest) == CollectFields(rest)
  {
    assert ([x, v] + rest)[2..] == rest;
  }

  /** isPathSeparator: '/' or the platform's separator. */
  predicate IsSep(c: char, osSep: char)
  {
    c == '/' || c == osSep
  }

  function CountSep(s: string, osSep: char): nat
  {
    if s == [] then 0 else CountSep(s[..|s| - 1], osSep) + (if IsSep(s[|s| - 1], osSep) then 1 else 0)
  }

  /** strings.LastIndexFunc(s, isPathSeparator). */
  function LastSep(s: string, osSep: char): (i: int)
    ensures -1 <= i < |s|
    ensures i >= 0 ==> IsSep(s[i], osSep) && CountSep(s, osSep) == CountSep(s[..i], osSep) + 1
    ensures i < 0 ==> CountSep(s, osSep) == 0
  {
    if s == [] then -1
    else if IsSep(s[|s| - 1], osSep) then
      assert s[..|s| - 1] == s[..|s| - 1];
      |s| - 1
    else
      var i := LastSep(s[..|s| - 1], osSep);
      assert i >= 0 ==> s[..|s| - 1][..i] == s[..i];
      i
  }

  /** CountSep of a suffix, counted from the front. */
  lemma {:induction false} CountSepSplit(s: string, k: nat, osSep: char)
    requires k <= |s|
    ensures CountSep(s, osSep) == CountSep(s[..k], osSep) + CountSep(s[k..], osSep)
    decreases |s|
  {
    if k < |s| {
      var t := s[..|s| - 1];
      CountSepSplit(t, k, osSep);
      assert t[..k] == s[..k];
      assert s[k..][..|s[k..]| - 1] == t[k..];
    } else {
      assert s[..k] == s;
      assert s[k..] == [];
    }
  }

  /**
   * The file part of callerPos: the text after the second-to-last separator, so at most
   * "dir/file"; a path with one separator keeps the file name only.
   */
  function TrimCaller(file: string, osSep: char): (r: string)
    ensures |r| <= |file| && r == file[|file| - |r|..]
    ensures |r| < |file| ==> IsSep(file[|file| - |r| - 1], osSep)
    ensures CountSep(file, osSep) == 0 ==> r == file
    ensures CountSep(file, osSep) == 1 ==> CountSep(r, osSep) == 0
    ensures CountSep(file, osSep) >= 2 ==> CountSep(r, osSep) == 1
  {
    var i := LastSep(file, osSep);
    if i >= 0 then
      var j := LastSep(file[..i], osSep);
      var k := if j >= 0 then j else i;
      TrimCallerCut(file, i, j, osSep);
      file[k + 1..]
    else
      file
  }

  /** The separator counts on both sides of the cut TrimCaller makes. */
  lemma TrimCallerCut(file: string, i: int, j: int, osSep: char)
    requires i == LastSep(file, osSep) && i >= 0
    requires j == LastSep(file[..i], osSep)
    ensures var k := if j >= 0 then j else i;
      CountSep(file, osSep) == CountSep(file[..k], osSep) + 1 + CountSep(file[k + 1..], osSep)
      && (j >= 0 ==> CountSep(file[k + 1..], osSep) == 1 && IsSep(file[j], osSep))
      && (j < 0 ==> CountSep(file[k + 1..], osSep) == 0 && CountSep(file, osSep) == 1)
  {
    if j >= 0 {
      TrimCallerCutTwo(file, i, j, osSep);
    } else {
      CountSepSplit(file, i + 1, osSep);
      assert file[..i + 1][..i] == file[..i];
      CountSepSplit(file, i, osSep);
    }
  }

  /** The cut at the second-to-last separator j, the last being i. */
  lemma TrimCallerCutTwo(file: string, i: int, j: int, osSep: char)
    requires i == LastSep(file, osSep) && i >= 0
    requires j == LastSep(file[..i], osSep) && j >= 0
    ensures CountSep(file, osSep) == CountSep(file[..j], osSep) + 1 + CountSep(file[j + 1..], osSep)
    ensures CountSep(file[j + 1..], osSep) == 1 && IsSep(file[j], osSep)
  {
    var p := file[..i];
    assert p[..j] == file[..j] && p[j] == file[j];
    assert CountSep(file, osSep) == CountSep(file[..j], osSep) + 2;
    CountSepSplit(file, j + 1, osSep);
    CountSepAt(file, j, osSep);
  }

  /** A separator at k adds one to the count of the text before it. */
  lemma CountSepAt(s: string, k: nat, osSep: char)
    requires k < |s| && IsSep(s[k], osSep)
    ensures CountSep(s[..k + 1], osSep) == CountSep(s[..k], osSep) + 1
  {
    assert s[..k + 1][..k] == s[..k];
  }

  /** callerPos: the trimmed file name, ':' and the line number. */
  function CallerPos(file: string, line: int, osSep: char): string
  {
    TrimCaller(file, osSep) + ":" + Decimal.IntText(line)
  }

  /** One step of WithFields' loop, as CollectFields sees it. */
  lemma CollectStep(vals: seq<Value>, i: nat)
    requires i < |vals|
    ensures vals[i].IsStr() && i + 1 < |vals| ==>
      CollectFields(From(vals, i)) == [Field(vals[i].a.s, vals[i + 1])] + CollectFields(From(vals, i + 2))
    ensures vals[i].FieldVal? ==>
      CollectFields(From(vals, i)) == [vals[i].field] + CollectFields(From(vals, i + 1))
    ensures !vals[i].FieldVal? && !(vals[i].IsStr() && i + 1 < |vals|) ==>
      CollectFields(From(vals, i)) == CollectFields(From(vals, i + 2))
  {
    var t := From(vals, i);
    assert t[0] == vals[i];
    if i + 1 < |vals| {
      assert t[2..] == From(vals, i + 2);
    }
    assert t[1..] == From(vals, i + 1);
  }

  /** The content of a record, without its owner. */
  datatype RecordView = RecordView(
    level: Level, time: Instant, position: string,
    prefix: string, format: string, args: seq<Value>, fields: seq<Field>)

  /** A pooled log record (Log). `logger` is the back-reference to the owning logger. */
  class Log {
    var logger: object?
    var level: Level
    var time: Instant
    var position: string
    var prefix: string
    var format: string
    var args: seq<Value>
    var fields: seq<Field>

    /** The record's content, as the encoders read it. */
    function View(): RecordView
      reads this
    {
      RecordView(level, time, position, prefix, format, args, fields)
    }

    /** What freeLog clears: everything but the time. */
    predicate IsReset()
      reads this
    {
      logger == null && level == 0 && position == [] && prefix == [] && format == []
      && args == [] && fields == []
    }

    /** The zero Log, as the pool's New function makes it. */
    constructor ()
      ensures IsReset() && time == ZeroTime
    {
      logger := null;
      level := 0;
      time := ZeroTime;
      position := [];
      prefix := [];
      format := [];
      args := [];
      fields := [];
    }

    /** WithField: one more field at the end; the earlier ones stay. */
    method WithField(key: string, val: Value) returns (r: Log)
      modifies this`fields
      ensures r == this
      ensures fields == old(fields) + [Field(key, val)]
    {
      fields := fields + [Field(key, val)];
      r := this;
    }

    /** WithFields: the index loop over the arguments. */
    method WithFields(vals: seq<Value>) returns (r: Log)
      modifies this`fields
      ensures r == this
      ensures fields == old(fields) + CollectFields(vals)
    {
      var i := 0;
      assert From(vals, 0) == vals;
      while i < |vals|
        invariant 0 <= i <= |vals| + 1
        invariant fields + CollectFields(From(vals, i)) == old(fields) + CollectFields(vals)
        decreases |vals| + 1 - i
      {
        i := WithFieldsStep(vals, i);
      }
      r := this;
    }

    /**
     * One turn of WithFields' loop at index i: a string key takes the next argument as
     * its value (none past the end), a Field is appended, anything else is skipped with
     * its successor. Returns the next index.
     */
    method WithFieldsStep(vals: seq<Value>, i: nat) returns (next: nat)
      requires i < |vals|
      modifies this`fields
      ensures i < next <= i + 2
      ensures fields + CollectFields(From(vals, next)) == old(fields) + CollectFields(From(vals, i))
    {
      CollectStep(vals, i);
      match vals[i]
      case Atom(Str(k)) =>
        if i < |vals| - 1 {
          var _ := WithField(k, vals[i + 1]);
        }
        next := i + 2;
      case FieldVal(f) =>
        fields := fields + [f];
        next := i + 1;
      case _ =>
        next := i + 2;
    }
  }

  /** The record pool, as a free list whose every record has been reset. */
  class LogPool {
    var free: seq<Log>

    ghost predicate Valid()
      reads this, set l | l in free
    {
      (forall a, b :: 0 <= a < b < |free| ==> free[a] != free[b])
      && (forall l :: l in free ==> l.IsReset())
    }

    constructor ()
      ensures Valid() && free == []
    {
      free := [];
    }

    /** allocLog: a pooled record, or a fresh zero one; either way reset and off the list. */
    method Alloc() returns (r: Log)
      requires Valid()
      modifies this
      ensures Valid()
      ensures r.IsReset() && r !in free
      ensures old(free) == [] ==> fresh(r) && free == []
      ensures old(free) != [] ==> r == old(free)[|old(free)| - 1] && free == old(free)[..|old(free)| - 1]
    {
      if free == [] {
        r := new Log();
      } else {
        r := free[|free| - 1];
        free := free[..|free| - 1];
      }
    }

    /** freeLog: reset every field but Time, then return the record to the list. */
    method Free(log: Log)
      requires Valid() && log !in free
      modifies this, log
      ensures Valid()
      ensures log.IsReset() && log.time == old(log.time)
      ensures free == old(free) + [log]
    {
      log.level := 0;
      // Time.Truncate(0) returns a new value that is discarded: the time stays.
      log.position := [];
      log.prefix := [];
      log.format := [];
      log.args := [];
      log.fields := [];
      log.logger := null;
      free := free + [log];
    }
  }

  /** The buffer pool, as a free list of empty buffers. */
  class BufferPool {
    var free: seq<TypeEncoding.Buffer>

    ghost predicate Valid()
      reads this, set b | b in free
    {
      (forall a, b :: 0 <= a < b < |free| ==> free[a] != free[b])
      && (forall b :: b in free ==> b.data == [])
    }

    constructor ()
      ensures Valid() && free == []
    {
      free := [];
    }

    /** allocBuffer: always an empty buffer. */
    method Alloc() returns (r: TypeEncoding.Buffer)
      requires Valid()
      modifies this
      ensures Valid()
      ensures r.data == [] && r !in free
      ensures old(free) == [] ==> fresh(r) && free == []
      ensures old(free) != [] ==> r == old(free)[|old(free)| - 1] && free == old(free)[..|old(free)| - 1]
    {
      if free == [] {
        r := new TypeEncoding.Buffer();
      } else {
        r := free[|free| - 1];
        free := free[..|free| - 1];
      }
    }

    /** freeBuffer: empty the buffer, then return it to the list. */
    method Free(buf: TypeEncoding.Buffer)
      requires Valid() && buf !in free
      modifies this, buf
      ensures Valid()
      ensures buf.data == [] && free == old(free) + [buf]
    {
      buf.Reset();
      free := free + [buf];
    }
  }
}
