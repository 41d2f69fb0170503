/** The flat `key=value` record encoder (TextEncoder). */
module TextEncoding {
  import opened Wrappers
  import opened Levels
  import opened Values
  import opened TypeEncoding
  import opened Records

  /** The default time layout, "20060102150405" in Go's reference-time notation. */
  const LogDatetimeFmt := "20060102150405"

  datatype TextEncoder = TextEncoder(types: TypeEncoder, separator: string)

  /** NewTextEncoder: empty layout and separator take their defaults; strings are written raw. */
  function NewTextEncoder(rt: Runtime, timeformat: string, separator: string): (e: TextEncoder)
    ensures e.types.timeformat == (if timeformat == "" then LogDatetimeFmt else timeformat)
    ensures e.separator == (if separator == "" then "=" else separator)
    ensures e.types.stringHook.Some? && forall s :: e.types.StringText(s) == s
    ensures forall v :: e.types.default(v) == rt.sprint(v)
  {
    TextEncoder(
      TypeEncoder(
        if timeformat == "" then LogDatetimeFmt else timeformat,
        v => rt.sprint(v),
        Some(s => s)),
      if separator == "" then "=" else separator)
  }

  /**
   * The message: with a format, Sprintf of prefix+format (the prefix takes part in the
   * formatting); without one, the prefix then Sprintln's text less its final newline.
   */
  function TextMessage(rt: Runtime, prefix: string, format: string, args: seq<Value>): (msg: string)
    ensures format != "" ==> msg == rt.sprintf(prefix + format, args)
    ensures format == "" ==> msg == prefix + JoinSpaced(rt, args)
  {
    if format != "" then rt.sprintf(prefix + format, args)
    else
      var m := prefix + Sprintln(rt, args);
      assert m[..|m| - 1] == prefix + JoinSpaced(rt, args);
      if |m| > 0 && m[|m| - 1] == '\n' then m[..|m| - 1] else m
  }

  /** encodeKeyValue: key, separator, encoded value. */
  function KeyValue(e: TextEncoder, rt: Runtime, key: string, v: Value): string
  {
    key + e.separator + e.types.ValText(rt, v)
  }

  function FieldFn(e: TextEncoder, rt: Runtime): Field -> string
  {
    (f: Field) => " " + KeyValue(e, rt, f.key, f.value)
  }

  /** The four fixed pairs: level, time, pos, msg. */
  function TextHead(e: TextEncoder, rt: Runtime, r: RecordView): string
  {
    KeyValue(e, rt, "level", Atom(Str(Name(r.level)))) + " "
    + KeyValue(e, rt, "time", Atom(Time(r.time))) + " "
    + KeyValue(e, rt, "pos", Atom(Str(r.position))) + " "
    + KeyValue(e, rt, "msg", Atom(Str(TextMessage(rt, r.prefix, r.format, r.args))))
  }

  /** The whole line Encode writes for a record. */
  function TextLine(e: TextEncoder, rt: Runtime, r: RecordView): string
  {
    TextHead(e, rt, r) + Concat(r.fields, FieldFn(e, rt)) + "\n"
  }

  /**
   * With the encoder NewTextEncoder builds, the line is level, time, pos and msg
   * as raw strings, then each field, space-separated, ending in one newline.
   */
  lemma TextLineLayout(rt: Runtime, tf: string, sep: string, r: RecordView)
    ensures var e := NewTextEncoder(rt, tf, sep);
      var s := e.separator;
      TextLine(e, rt, r) ==
        ("level" + s + Name(r.level)) + " "
        + ("time" + s + rt.formatTime(r.time, e.types.timeformat)) + " "
        + ("pos" + s + r.position) + " "
        + ("msg" + s + TextMessage(rt, r.prefix, r.format, r.args))
        + Concat(r.fields, FieldFn(e, rt)) + "\n"
  {
    var e := NewTextEncoder(rt, tf, sep);
    assert KeyValue(e, rt, "level", Atom(Str(Name(r.level)))) == "level" + e.separator + Name(r.level);
    assert KeyValue(e, rt, "time", Atom(Time(r.time)))
      == "time" + e.separator + rt.formatTime(r.time, e.types.timeformat);
    assert KeyValue(e, rt, "pos", Atom(Str(r.position))) == "pos" + e.separator + r.position;
    assert KeyValue(e, rt, "msg", Atom(Str(TextMessage(rt, r.prefix, r.format, r.args))))
      == "msg" + e.separator + TextMessage(rt, r.prefix, r.format, r.args);
  }

  /** Fields are written in insertion order, each after one space. */
  lemma TextFieldsInOrder(e: TextEncoder, rt: Runtime, r: RecordView, f: Field)
    ensures TextLine(e, rt, r.(fields := r.fields + [f]))
      == TextLine(e, rt, r)[..|TextLine(e, rt, r)| - 1] + " " + KeyValue(e, rt, f.key, f.value) + "\n"
  {
    var fs := r.fields + [f];
    assert fs[..|fs| - 1] == r.fields;
  }

  /** The line always ends with a newline. */
  lemma TextLineEndsWithNewline(e: TextEncoder, rt: Runtime, r: RecordView)
    ensures |TextLine(e, rt, r)| > 0 && TextLine(e, rt, r)[|TextLine(e, rt, r)| - 1] == '\n'
  {
  }

  /** encodeKeyValue. */
  method EncodeKeyValue(e: TextEncoder, rt: Runtime, buf: Buffer, key: string, v: Value)
    modifies buf
    ensures buf.data == old(buf.data) + KeyValue(e, rt, key, v)
  {
    ghost var before := buf.data;
    buf.WriteString(key + e.separator);
    e.types.EncodeVal(buf, rt, v);
    ghost var text := e.types.ValText(rt, v);
    ghost var ks := key + e.separator;
    assert buf.data == (before + ks) + text;
    assert KeyValue(e, rt, key, v) == ks + text;
    AppendAssoc(before, ks, text);
  }

  /** Writes sep, then the pair, tracking what was appended since start. */
  method PutPair(e: TextEncoder, rt: Runtime, buf: Buffer, sep: string, key: string, v: Value,
                 ghost start: string, ghost acc: string) returns (ghost acc': string)
    requires buf.data == start + acc
    modifies buf
    ensures acc' == acc + sep + KeyValue(e, rt, key, v) && buf.data == start + acc'
  {
    acc' := Put(buf, sep, start, acc);
    EncodeKeyValue(e, rt, buf, key, v);
    AppendAssoc(start, acc', KeyValue(e, rt, key, v));
    acc' := acc' + KeyValue(e, rt, key, v);
  }

  /** The level, time, pos and msg pairs. */
  method EncodeHead(e: TextEncoder, rt: Runtime, buf: Buffer, log: Log)
    modifies buf
    ensures buf.data == old(buf.data) + TextHead(e, rt, log.View())
  {
    var level, time, position := log.level, log.time, log.position;
    var msg := TextMessage(rt, log.prefix, log.format, log.args);
    ghost var v := log.View();
    assert v.level == level && v.time == time && v.position == position;
    assert TextMessage(rt, v.prefix, v.format, v.args) == msg;
    ghost var head := TextHead(e, rt, v);
    ghost var start := buf.data;
    ghost var acc: string := [];
    assert buf.data == start + acc;
    acc := PutPair(e, rt, buf, "", "level", Atom(Str(Name(level))), start, acc);
    assert acc == KeyValue(e, rt, "level", Atom(Str(Name(level))));
    acc := PutPair(e, rt, buf, " ", "time", Atom(Time(time)), start, acc);
    acc := PutPair(e, rt, buf, " ", "pos", Atom(Str(position)), start, acc);
    acc := PutPair(e, rt, buf, " ", "msg", Atom(Str(msg)), start, acc);
    assert acc == head;
  }

  /** The loop over the fields: a space, then the pair, for each. */
  method EncodeFields(e: TextEncoder, rt: Runtime, buf: Buffer, fields: seq<Field>)
    modifies buf
    ensures buf.data == old(buf.data) + Concat(fields, FieldFn(e, rt))
  {
    ghost var start := buf.data;
    var i := 0;
    while i < |fields|
      invariant 0 <= i <= |fields|
      invariant buf.data == start + Concat(fields[..i], FieldFn(e, rt))
    {
      ConcatStep(fields, i, FieldFn(e, rt));
      ghost var before := Concat(fields[..i], FieldFn(e, rt));
      ghost var kv := KeyValue(e, rt, fields[i].key, fields[i].value);
      ghost var acc := Put(buf, " ", start, before);
      EncodeKeyValue(e, rt, buf, fields[i].key, fields[i].value);
      AppendAssoc(start, acc, kv);
      AppendAssoc(before, " ", kv);
      i := i + 1;
    }
    assert fields[..i] == fields;
  }

  /** Encode: the fixed pairs, the fields, the newline; the record is not changed. */
  method Encode(e: TextEncoder, rt: Runtime, buf: Buffer, log: Log)
    modifies buf
    ensures buf.data == old(buf.data) + TextLine(e, rt, log.View())
  {
    ghost var start := buf.data;
    ghost var acc: string := [];
    assert buf.data == start + acc;
    EncodeHead(e, rt, buf, log);
    acc := TextHead(e, rt, log.View());
    EncodeFields(e, rt, buf, log.fields);
    AppendAssoc(start, acc, Concat(log.fields, FieldFn(e, rt)));
    acc := acc + Concat(log.fields, FieldFn(e, rt));
    acc := Put(buf, "\n", start, acc);
    assert acc == TextLine(e, rt, log.View());
  }
}
