/** The `{"key":value,...}` record encoder (JSONEncoder). */
module JsonEncoding {
  import opened Wrappers
  import opened Values
  import opened Levels
  import opened TypeEncoding
  import opened Records
  import TextEncoding

  datatype JSONEncoder = JSONEncoder(types: TypeEncoder)

  /**
   * NewJSONEncoder: an empty layout takes the default; strings keep the quoting
   * encoder (no String hook); anything outside the closed set goes through json.Marshal.
   */
  function NewJSONEncoder(rt: Runtime, timeformat: string): (e: JSONEncoder)
    ensures e.types.timeformat == (if timeformat == "" then TextEncoding.LogDatetimeFmt else timeformat)
    ensures e.types.stringHook.None?
    ensures forall v :: e.types.default(v) == rt.jsonMarshal(v)
  {
    JSONEncoder(
      TypeEncoder(
        if timeformat == "" then TextEncoding.LogDatetimeFmt else timeformat,
        v => rt.jsonMarshal(v),
        None))
  }

  /** The Format the record holds after Encode: the prefix is folded into a non-empty format. */
  function JsonFormat(prefix: string, format: string): (f: string)
    ensures format == "" || prefix == "" ==> f == format
    ensures format != "" && prefix != "" ==> f == prefix + format && |f| > |format|
  {
    if format != "" && prefix != "" then prefix + format else format
  }

  /** The message of a record as Encode composes it. */
  function JsonMessage(rt: Runtime, r: RecordView): string
  {
    if r.format != "" then rt.sprintf(JsonFormat(r.prefix, r.format), r.args)
    else
      var s := Sprintln(rt, r.args);
      r.prefix + (if s[|s| - 1] == '\n' then s[..|s| - 1] else s)
  }

  /** On a record's first encoding, the message is the one the text encoder writes. */
  lemma JsonMessageIsTextMessage(rt: Runtime, r: RecordView)
    ensures JsonMessage(rt, r) == TextEncoding.TextMessage(rt, r.prefix, r.format, r.args)
    ensures r.format == "" ==> JsonMessage(rt, r) == r.prefix + JoinSpaced(rt, r.args)
  {
    assert "" + r.format == r.format;
    var s := Sprintln(rt, r.args);
    var m := r.prefix + s;
    assert m[..|m| - 1] == r.prefix + s[..|s| - 1];
  }

  /** encodeKeyValue: the key through EncodeString, ':', the encoded value. */
  function KeyValue(e: JSONEncoder, rt: Runtime, key: string, v: Value): string
  {
    e.types.StringText(key) + ":" + e.types.ValText(rt, v)
  }

  function FieldFn(e: JSONEncoder, rt: Runtime): Field -> string
  {
    (f: Field) => "," + KeyValue(e, rt, f.key, f.value)
  }

  /** The opening brace and the four fixed pairs. */
  function JsonHead(e: JSONEncoder, rt: Runtime, r: RecordView): string
  {
    "{" + KeyValue(e, rt, "level", Atom(Str(Name(r.level)))) + ","
    + KeyValue(e, rt, "time", Atom(Time(r.time))) + ","
    + KeyValue(e, rt, "pos", Atom(Str(r.position))) + ","
    + KeyValue(e, rt, "msg", Atom(Str(JsonMessage(rt, r))))
  }

  /** The whole line Encode writes for a record (as it was before the call). */
  function JsonLine(e: JSONEncoder, rt: Runtime, r: RecordView): string
  {
    JsonHead(e, rt, r) + Concat(r.fields, FieldFn(e, rt)) + "}\n"
  }

  /** The line opens with '{' and closes with "}\n". */
  lemma JsonLineBraces(e: JSONEncoder, rt: Runtime, r: RecordView)
    ensures var l := JsonLine(e, rt, r);
      |l| >= 3 && l[0] == '{' && l[|l| - 2..] == "}\n"
  {
  }

  /** With the encoder NewJSONEncoder builds, every key is quoted by the narrow escaper. */
  lemma KeysAreQuoted(rt: Runtime, tf: string, key: string, v: Value)
    ensures var e := NewJSONEncoder(rt, tf);
      KeyValue(e, rt, key, v) == QuoteText(key) + ":" + e.types.ValText(rt, v)
    ensures var e := NewJSONEncoder(rt, tf);
      v.IsStr() ==> KeyValue(e, rt, key, v) == QuoteText(key) + ":" + QuoteText(v.a.s)
  {
  }

  /** The four fixed keys in their order, from the encoder NewJSONEncoder builds. */
  lemma JsonLineLayout(rt: Runtime, tf: string, r: RecordView)
    ensures var e := NewJSONEncoder(rt, tf);
      JsonLine(e, rt, r) ==
        "{" + ("\"level\":" + QuoteText(Name(r.level))) + ","
        + ("\"time\":" + QuoteText(rt.formatTime(r.time, e.types.timeformat))) + ","
        + ("\"pos\":" + QuoteText(r.position)) + ","
        + ("\"msg\":" + QuoteText(JsonMessage(rt, r)))
        + Concat(r.fields, FieldFn(e, rt)) + "}\n"
  {
    var e := NewJSONEncoder(rt, tf);
    QuotedKey(e, rt, "level", "\"level\":", Name(r.level));
    QuotedKey(e, rt, "time", "\"time\":", rt.formatTime(r.time, e.types.timeformat));
    e.types.TimeAndDurationAreStrings(rt, r.time, Duration(0));
    QuotedKey(e, rt, "pos", "\"pos\":", r.position);
    QuotedKey(e, rt, "msg", "\"msg\":", JsonMessage(rt, r));
  }

  /** A key without '"' is written between quotes, followed by ':'. */
  lemma QuotedKey(e: JSONEncoder, rt: Runtime, key: string, head: string, x: string)
    requires e.types.stringHook.None?
    requires forall i :: 0 <= i < |key| ==> key[i] != '"'
    requires head == "\"" + key + "\":"
    ensures KeyValue(e, rt, key, Atom(Str(x))) == head + QuoteText(x)
  {
    EscapedNoQuote(key);
  }

  /** Escaping leaves a text without '"' unchanged. */
  lemma {:induction false} EscapedNoQuote(s: string)
    requires forall i :: 0 <= i < |s| ==> s[i] != '"'
    ensures Escaped(s) == s
  {
    if s != [] {
      EscapedNoQuote(s[..|s| - 1]);
    }
  }

  /** Fields are written in insertion order, each after one ','. */
  lemma JsonFieldsInOrder(e: JSONEncoder, rt: Runtime, r: RecordView, f: Field)
    ensures JsonLine(e, rt, r.(fields := r.fields + [f]))
      == JsonLine(e, rt, r)[..|JsonLine(e, rt, r)| - 2] + "," + KeyValue(e, rt, f.key, f.value) + "}\n"
  {
    var fs := r.fields + [f];
    assert fs[..|fs| - 1] == r.fields;
    var h := JsonHead(e, rt, r);
    assert JsonHead(e, rt, r.(fields := fs)) == h;
    var c := Concat(r.fields, FieldFn(e, rt));
    var kv := KeyValue(e, rt, f.key, f.value);
    assert Concat(fs, FieldFn(e, rt)) == c + ("," + kv);
    var l := JsonLine(e, rt, r);
    assert l[..|l| - 2] == h + c;
  }

  /**
   * Encode mutates the record: after one call with a prefix and a format, the second
   * encoding formats prefix+prefix+format, so the prefix shows up twice.
   */
  lemma SecondEncodingRepeatsPrefix(rt: Runtime, r: RecordView)
    requires r.prefix != "" && r.format != ""
    ensures var r1 := r.(format := JsonFormat(r.prefix, r.format));
      JsonMessage(rt, r) == rt.sprintf(r.prefix + r.format, r.args)
      && JsonMessage(rt, r1) == rt.sprintf(r.prefix + r.prefix + r.format, r.args)
  {
    AppendAssoc(r.prefix, r.prefix, r.format);
  }

  /** encodeKeyValue. */
  method EncodeKeyValue(e: JSONEncoder, rt: Runtime, buf: Buffer, key: string, v: Value)
    modifies buf
    ensures buf.data == old(buf.data) + KeyValue(e, rt, key, v)
  {
    ghost var start := buf.data;
    ghost var ks := e.types.StringText(key);
    ghost var vt := e.types.ValText(rt, v);
    e.types.EncodeString(buf, key);
    buf.WriteString(":");
    e.types.EncodeVal(buf, rt, v);
    assert buf.data == start + ks + ":" + vt;
    AppendAssoc(start + ks, ":", vt);
    AppendAssoc(start, ks, ":" + vt);
    assert KeyValue(e, rt, key, v) == ks + (":" + vt);
  }

  /** The message, folding the prefix into a non-empty Format of the record. */
  method ComposeMessage(rt: Runtime, log: Log) returns (msg: string)
    modifies log`format
    ensures log.format == JsonFormat(old(log.prefix), old(log.format))
    ensures msg == JsonMessage(rt, old(log.View()))
  {
    if log.format != "" {
      if log.prefix != "" {
        log.format := log.prefix + log.format;
      }
      msg := rt.sprintf(log.format, log.args);
    } else {
      var s := Sprintln(rt, log.args);
      if s[|s| - 1] == '\n' {
        s := s[..|s| - 1];
      }
      msg := log.prefix + s;
    }
  }

  /** Writes sep, then the pair, tracking what was appended since start. */
  method PutPair(e: JSONEncoder, rt: Runtime, buf: Buffer, sep: string, key: string, v: Value,
                 ghost start: string, ghost acc: string) returns (ghost acc': string)
    requires buf.data == start + acc
    modifies buf
    ensures acc' == acc + sep + KeyValue(e, rt, key, v) && buf.data == start + acc'
  {
    acc' := Put(buf, sep, start, acc);
    EncodeKeyValue(e, rt, buf, key, v);
    AppendAssoc(start, acc', KeyValue(e, rt, key, v));
    acc' := acc' + KeyValue(e, rt, key, v);
  }

  /** '{', the level, time and pos pairs, then the message pair. */
  method EncodeHead(e: JSONEncoder, rt: Runtime, buf: Buffer, log: Log)
    modifies buf, log`format
    ensures log.format == JsonFormat(old(log.prefix), old(log.format))
    ensures buf.data == old(buf.data) + JsonHead(e, rt, old(log.View()))
  {
    ghost var r := log.View();
    var level, time, position := log.level, log.time, log.position;
    ghost var k1 := KeyValue(e, rt, "level", Atom(Str(Name(level))));
    ghost var k2 := KeyValue(e, rt, "time", Atom(Time(time)));
    ghost var k3 := KeyValue(e, rt, "pos", Atom(Str(position)));
    ghost var k4 := KeyValue(e, rt, "msg", Atom(Str(JsonMessage(rt, r))));
    assert JsonHead(e, rt, r) == "{" + k1 + "," + k2 + "," + k3 + "," + k4;
    ghost var start := buf.data;
    ghost var acc: string := "{";
    buf.WriteString("{");
    acc := PutPair(e, rt, buf, "", "level", Atom(Str(Name(level))), start, acc);
    acc := PutPair(e, rt, buf, ",", "time", Atom(Time(time)), start, acc);
    acc := PutPair(e, rt, buf, ",", "pos", Atom(Str(position)), start, acc);
    var msg := ComposeMessage(rt, log);
    acc := PutPair(e, rt, buf, ",", "msg", Atom(Str(msg)), start, acc);
    assert acc == "{" + "" + k1 + "," + k2 + "," + k3 + "," + k4;
    assert "{" + "" == "{";
  }

  /** The loop over the fields: a ',', then the pair, for each. */
  method EncodeFields(e: JSONEncoder, rt: Runtime, buf: Buffer, fields: seq<Field>)
    modifies buf
    ensures buf.data == old(buf.data) + Concat(fields, FieldFn(e, rt))
  {
    ghost var start := buf.data;
    var i := 0;
    while i < |fields|
      invariant 0 <= i <= |fields|
      invariant buf.data == start + Concat(fields[..i], FieldFn(e, rt))
    {
      ConcatStep(fields, i, FieldFn(e, rt));
      ghost var before := Concat(fields[..i], FieldFn(e, rt));
      ghost var kv := KeyValue(e, rt, fields[i].key, fields[i].value);
      ghost var acc := Put(buf, ",", start, before);
      EncodeKeyValue(e, rt, buf, fields[i].key, fields[i].value);
      AppendAssoc(start, acc, kv);
      AppendAssoc(before, ",", kv);
      i := i + 1;
    }
    assert fields[..i] == fields;
  }

  /**
   * Encode: the line for the record as it was, and the record's Format rewritten to
   * Prefix+Format when both are non-empty; nothing else of the record changes.
   */
  method Encode(e: JSONEncoder, rt: Runtime, buf: Buffer, log: Log)
    modifies buf, log`format
    ensures log.format == JsonFormat(old(log.prefix), old(log.format))
    ensures buf.data == old(buf.data) + JsonLine(e, rt, old(log.View()))
  {
    ghost var r := log.View();
    ghost var start := buf.data;
    ghost var acc: string := [];
    assert buf.data == start + acc;
    EncodeHead(e, rt, buf, log);
    acc := JsonHead(e, rt, r);
    EncodeFields(e, rt, buf, log.fields);
    AppendAssoc(start, acc, Concat(r.fields, FieldFn(e, rt)));
    acc := acc + Concat(r.fields, FieldFn(e, rt));
    acc := Put(buf, "}\n", start, acc);
    assert acc == JsonLine(e, rt, r);
  }
}
