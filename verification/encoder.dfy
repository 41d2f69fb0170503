/**
 * The type-dispatching value encoder (TypeEncoder) and the byte buffer it appends to.
 * Each Encode method appends exactly the text given by the matching text function.
 */
module TypeEncoding {
  import opened Wrappers
  import opened Values
  import Decimal

  /** A bytes.Buffer: an append-only text, emptied by Reset. */
  class Buffer {
    var data: string

    constructor ()
      ensures data == []
    {
      data := [];
    }

    method WriteString(s: string)
      modifies this
      ensures data == old(data) + s
    {
      data := data + s;
    }

    method Reset()
      modifies this
      ensures data == []
    {
      data := [];
    }
  }

  /** Concatenation is associative (stated once so that buffer proofs can cite it). */
  lemma AppendAssoc(a: string, b: string, c: string)
    ensures (a + b) + c == a + (b + c)
  {
  }

  /** Appends piece to buf, keeping track of what was appended since start. */
  method Put(buf: Buffer, piece: string, ghost start: string, ghost acc: string) returns (ghost acc': string)
    requires buf.data == start + acc
    modifies buf
    ensures acc' == acc + piece && buf.data == start + acc'
  {
    buf.WriteString(piece);
    AppendAssoc(start, acc, piece);
    acc' := acc + piece;
  }

  /** The texts of xs's elements, one after the other, with nothing in between. */
  function Concat<X>(xs: seq<X>, f: X -> string): string
  {
    if xs == [] then [] else Concat(xs[..|xs| - 1], f) + f(xs[|xs| - 1])
  }

  lemma {:induction false} ConcatAppend<X>(xs: seq<X>, ys: seq<X>, f: X -> string)
    ensures Concat(xs + ys, f) == Concat(xs, f) + Concat(ys, f)
  {
    if ys != [] {
      var zs := xs + ys;
      assert zs[..|zs| - 1] == xs + ys[..|ys| - 1];
      ConcatAppend(xs, ys[..|ys| - 1], f);
    } else {
      assert xs + ys == xs;
    }
  }

  /** One step of a loop over xs. */
  lemma ConcatStep<X>(xs: seq<X>, i: nat, f: X -> string)
    requires i < |xs|
    ensures Concat(xs[..i + 1], f) == Concat(xs[..i], f) + f(xs[i])
  {
    assert xs[..i + 1][..i] == xs[..i];
  }

  /** The escape of one rune: a backslash goes before '"', nothing else changes. */
  function EscapeRune(c: char): (r: string)
    ensures c == '"' ==> r == "\\\""
    ensures c != '"' ==> r == [c]
  {
    if c == '"' then "\\\"" else [c]
  }

  /** The body of the default string encoding. */
  function Escaped(s: string): string
  {
    Concat(s, EscapeRune)
  }

  function CountQuotes(s: string): nat
  {
    if s == [] then 0 else (if s[0] == '"' then 1 else 0) + CountQuotes(s[1..])
  }

  /** Remove the character in front of every '"' (reading left to right). */
  function Unescape(e: string): string
  {
    if e == [] then []
    else if |e| >= 2 && e[0] == '\\' && e[1] == '"' then "\"" + Unescape(e[2..])
    else [e[0]] + Unescape(e[1..])
  }

  lemma EscapedCons(c: char, s: string)
    ensures Escaped([c] + s) == EscapeRune(c) + Escaped(s)
  {
    ConcatAppend([c], s, EscapeRune);
    assert Concat([c], EscapeRune) == EscapeRune(c) by {
      assert [c][..0] == [];
    }
  }

  /** The escaped text is one character longer per '"'. */
  lemma {:induction false} EscapedLength(s: string)
    ensures |Escaped(s)| == |s| + CountQuotes(s)
  {
    if s != [] {
      EscapedCons(s[0], s[1..]);
      assert [s[0]] + s[1..] == s;
      EscapedLength(s[1..]);
    }
  }

  /** Deleting the backslash before each '"' recovers the original text. */
  lemma {:induction false} UnescapeEscaped(s: string)
    ensures Unescape(Escaped(s)) == s
  {
    if s != [] {
      EscapedCons(s[0], s[1..]);
      assert [s[0]] + s[1..] == s;
      UnescapeEscaped(s[1..]);
      var e := Escaped(s);
      var rest := Escaped(s[1..]);
      if s[0] == '"' {
        assert e[2..] == rest;
      } else {
        assert e[1..] == rest;
        if s[1..] != [] {
          EscapedCons(s[1], s[2..]);
          assert [s[1]] + s[2..] == s[1..];
          assert rest[0] != '"';
        }
      }
    }
  }

  /** Every '"' of the escaped text has a backslash right before it. */
  lemma {:induction false} QuotesEscaped(s: string)
    ensures forall i :: 0 <= i < |Escaped(s)| && Escaped(s)[i] == '"' ==> i > 0 && Escaped(s)[i - 1] == '\\'
  {
    if s != [] {
      var n := |s| - 1;
      assert s[..n + 1] == s;
      ConcatStep(s, n, EscapeRune);
      QuotesEscaped(s[..n]);
      var e := Escaped(s);
      var p := Escaped(s[..n]);
      assert e == p + EscapeRune(s[n]);
      forall i | 0 <= i < |e| && e[i] == '"'
        ensures i > 0 && e[i - 1] == '\\'
      {
        if i < |p| {
          assert p[i] == '"';
        }
      }
    }
  }

  /** Default string encoding: the escaped text between two '"'. */
  function QuoteText(s: string): string
  {
    "\"" + Escaped(s) + "\""
  }

  /**
   * The quoted text is len(s) + 2 + (number of '"') long, starts and ends with '"',
   * and deleting the backslash before each inner '"' gives s back.
   */
  lemma QuoteTextRoundTrip(s: string)
    ensures var r := QuoteText(s);
      |r| == |s| + 2 + CountQuotes(s)
      && r[0] == '"' && r[|r| - 1] == '"'
      && Unescape(r[1..|r| - 1]) == s
  {
    EscapedLength(s);
    UnescapeEscaped(s);
    var r := QuoteText(s);
    assert r[1..|r| - 1] == Escaped(s);
  }

  lemma EscapedSingle(c: char)
    ensures Escaped([c]) == EscapeRune(c)
  {
    EscapedCons(c, []);
    assert [c] + [] == [c];
    assert Escaped([]) == [];
  }

  /** Backslashes and control characters pass through unchanged: only '"' is escaped. */
  lemma QuoteTextIsNarrow()
    ensures QuoteText("\\") == "\"\\\""
    ensures QuoteText("\n") == "\"\n\""
    ensures QuoteText("\"") == "\"\\\"\""
  {
    EscapedSingle('\\');
    EscapedSingle('\n');
    EscapedSingle('"');
  }

  /** The text of a boolean. */
  function BoolText(b: bool): (r: string)
    ensures r == "true" || r == "false"
    ensures r == "true" <==> b
  {
    if b then "true" else "false"
  }

  /**
   * The configuration of a TypeEncoder: the time layout, the Default hook for values
   * outside the closed set, and the optional String hook replacing the default quoting.
   */
  datatype TypeEncoder = TypeEncoder(
    timeformat: string,
    default: Value -> string,
    stringHook: Option<string -> string>)
  {
    /** What EncodeString appends. */
    function StringText(s: string): (r: string)
      ensures stringHook.None? ==> r == QuoteText(s)
      ensures stringHook.Some? ==> r == stringHook.value(s)
    {
      match stringHook
      case Some(h) => h(s)
      case None => QuoteText(s)
    }

    /** What each of EncodeInt, EncodeUint, EncodeFloat, ..., EncodeDuration appends. */
    function ScalarText(rt: Runtime, x: Scalar): string
    {
      match x
      case Int(i) => Decimal.IntText(i)
      case Uint(u) => Decimal.NatText(u)
      case Float(f) => rt.formatFloat(f)
      case Complex(c) => rt.sprint(Atom(Complex(c)))
      case Bool(b) => BoolText(b)
      case Str(s) => StringText(s)
      case Time(t) => StringText(rt.formatTime(t, timeformat))
      case Dur(d) => StringText(rt.durationString(d))
    }

    function ScalarFn(rt: Runtime): Scalar -> string
    {
      x => ScalarText(rt, x)
    }

    /** What EncodeVal appends for v: a slice is its elements' texts back to back. */
    function ValText(rt: Runtime, v: Value): string
    {
      match v
      case Atom(x) => ScalarText(rt, x)
      case Slice(xs) => Concat(xs, ScalarFn(rt))
      case FieldVal(_) => default(v)
      case Other(_) => default(v)
    }

    /** Time and duration values are encoded as strings: through the String hook or quoted. */
    lemma TimeAndDurationAreStrings(rt: Runtime, t: Instant, d: Duration)
      ensures ValText(rt, Atom(Time(t))) == ValText(rt, Atom(Str(rt.formatTime(t, timeformat))))
      ensures ValText(rt, Atom(Dur(d))) == ValText(rt, Atom(Str(rt.durationString(d))))
      ensures stringHook.None? ==> ValText(rt, Atom(Time(t)))[0] == '"'
    {
      QuoteTextRoundTrip(rt.formatTime(t, timeformat));
    }

    /**
     * A slice is its elements' encodings back to back, with no separator: splitting
     * the slice splits the text, and a one-element slice encodes as its element.
     */
    lemma SliceHasNoSeparator(rt: Runtime, xs: seq<Scalar>, ys: seq<Scalar>, x: Scalar)
      ensures ValText(rt, Slice(xs + ys)) == ValText(rt, Slice(xs)) + ValText(rt, Slice(ys))
      ensures ValText(rt, Slice([x])) == ValText(rt, Atom(x))
      ensures ValText(rt, Slice([])) == []
    {
      ConcatAppend(xs, ys, ScalarFn(rt));
      assert [x][..0] == [];
      assert Concat([x], ScalarFn(rt)) == [] + ScalarText(rt, x);
      assert [] + ScalarText(rt, x) == ScalarText(rt, x);
    }

    method EncodeInt(buf: Buffer, n: Int64)
      modifies buf
      ensures buf.data == old(buf.data) + Decimal.IntText(n)
    {
      buf.WriteString(Decimal.IntText(n));
    }

    method EncodeUint(buf: Buffer, n: Uint64)
      modifies buf
      ensures buf.data == old(buf.data) + Decimal.NatText(n)
    {
      buf.WriteString(Decimal.NatText(n));
    }

    method EncodeBool(buf: Buffer, b: bool)
      modifies buf
      ensures buf.data == old(buf.data) + BoolText(b)
    {
      if b {
        buf.WriteString("true");
      } else {
        buf.WriteString("false");
      }
    }

    /** The String hook if set; otherwise '"', each rune with '\' before a '"', and '"'. */
    method EncodeString(buf: Buffer, s: string)
      modifies buf
      ensures buf.data == old(buf.data) + StringText(s)
    {
      if stringHook.Some? {
        buf.WriteString(stringHook.value(s));
        return;
      }
      buf.WriteString("\"");
      var i := 0;
      while i < |s|
        invariant 0 <= i <= |s|
        invariant buf.data == old(buf.data) + "\"" + Escaped(s[..i])
      {
        ConcatStep(s, i, EscapeRune);
        if s[i] == '"' {
          buf.WriteString("\\");
        }
        buf.WriteString([s[i]]);
        i := i + 1;
      }
      assert s[..i] == s;
      buf.WriteString("\"");
    }

    method EncodeFloat(buf: Buffer, rt: Runtime, f: FloatBits)
      modifies buf
      ensures buf.data == old(buf.data) + rt.formatFloat(f)
    {
      buf.WriteString(rt.formatFloat(f));
    }

    method EncodeComplex(buf: Buffer, rt: Runtime, c: ComplexBits)
      modifies buf
      ensures buf.data == old(buf.data) + rt.sprint(Atom(Complex(c)))
    {
      buf.WriteString(rt.sprint(Atom(Complex(c))));
    }

    method EncodeTime(buf: Buffer, rt: Runtime, t: Instant)
      modifies buf
      ensures buf.data == old(buf.data) + StringText(rt.formatTime(t, timeformat))
    {
      EncodeString(buf, rt.formatTime(t, timeformat));
    }

    method EncodeDuration(buf: Buffer, rt: Runtime, d: Duration)
      modifies buf
      ensures buf.data == old(buf.data) + StringText(rt.durationString(d))
    {
      EncodeString(buf, rt.durationString(d));
    }

    /** One case of EncodeVal's type switch for a scalar. */
    method EncodeScalar(buf: Buffer, rt: Runtime, x: Scalar)
      modifies buf
      ensures buf.data == old(buf.data) + ScalarText(rt, x)
    {
      match x
      case Int(i) => EncodeInt(buf, i);
      case Uint(u) => EncodeUint(buf, u);
      case Float(f) => EncodeFloat(buf, rt, f);
      case Complex(c) => EncodeComplex(buf, rt, c);
      case Bool(b) => EncodeBool(buf, b);
      case Str(s) => EncodeString(buf, s);
      case Time(t) => EncodeTime(buf, rt, t);
      case Dur(d) => EncodeDuration(buf, rt, d);
    }

    /** Dispatch on the value's kind; a slice element by element; anything else to Default. */
    method EncodeVal(buf: Buffer, rt: Runtime, v: Value)
      modifies buf
      ensures buf.data == old(buf.data) + ValText(rt, v)
    {
      match v
      case Atom(x) => EncodeScalar(buf, rt, x);
      case Slice(xs) =>
        var i := 0;
        while i < |xs|
          invariant 0 <= i <= |xs|
          invariant buf.data == old(buf.data) + Concat(xs[..i], ScalarFn(rt))
        {
          ConcatStep(xs, i, ScalarFn(rt));
          EncodeScalar(buf, rt, xs[i]);
          i := i + 1;
        }
        assert xs[..i] == xs;
      case FieldVal(_) => buf.WriteString(default(v));
      case Other(_) => buf.WriteString(default(v));
    }
  }
}
