/** The Option wrapper used for absent values and failed parses. */
module Wrappers {
  datatype Option<+T> = None | Some(value: T)
}

/**
 * The closed universe of values a record can carry, and the Go library routines the
 * encoders call but whose text is not part of this model (float formatting, fmt's
 * generic printing, time formatting, json.Marshal). Those routines are injected as
 * functions of a Runtime value.
 */
module Values {

  type Int64 = x: int | -0x8000_0000_0000_0000 <= x < 0x8000_0000_0000_0000
  type Uint64 = x: nat | x < 0x1_0000_0000_0000_0000

  /** A float64 (float32 values are widened to it before encoding). */
  datatype FloatBits = FloatBits(bits: bv64)
  /** A complex128 (complex64 values are widened to it). */
  datatype ComplexBits = ComplexBits(re: FloatBits, im: FloatBits)
  /** A time.Time, by its instant. */
  datatype Instant = Instant(unixNanos: int)
  /** A time.Duration. */
  datatype Duration = Duration(nanos: Int64)
  /** A value of a type outside the closed set (structs, maps, pointers, ...). */
  datatype Opaque = Opaque(id: nat)

  /**
   * The kinds EncodeVal writes itself. Every signed width is held as the int64 it is
   * widened to, every unsigned width as a uint64, float32 as a float64.
   */
  datatype Scalar =
    | Int(i: Int64)
    | Uint(u: Uint64)
    | Float(f: FloatBits)
    | Complex(c: ComplexBits)
    | Bool(b: bool)
    | Str(s: string)
    | Time(t: Instant)
    | Dur(d: Duration)

  /**
   * A value passed to a record: one scalar, a typed slice of scalars ([]int, []string,
   * ...; Go's slices hold one kind, the model does not need to insist on it), a
   * pre-built Field passed where a value is expected, or a value of any other type.
   */
  datatype Value =
    | Atom(a: Scalar)
    | Slice(elems: seq<Scalar>)
    | FieldVal(field: Field)
    | Other(o: Opaque)
  {
    /** A Go string. */
    predicate IsStr()
    {
      Atom? && a.Str?
    }
  }

  /** A key and its value; keys need not be unique. */
  datatype Field = Field(key: string, value: Value)

  /** The library routines the encoders rely on, taken as given. */
  datatype Runtime = Runtime(
    sprint: Value -> string,                  // fmt.Sprint / fmt.Fprint of one operand
    sprintf: (string, seq<Value>) -> string,  // fmt.Sprintf
    formatFloat: FloatBits -> string,         // strconv.FormatFloat(f, 'f', 4, 64)
    formatTime: (Instant, string) -> string,  // time.Time.Format(layout)
    durationString: Duration -> string,       // time.Duration.String
    jsonMarshal: Value -> string              // encoding/json.Marshal, error ignored
  )

  /** Operands printed by Sprint, joined by single spaces. */
  function JoinSpaced(rt: Runtime, args: seq<Value>): (r: string)
    ensures args == [] ==> r == []
    ensures |args| == 1 ==> r == rt.sprint(args[0])
  {
    if args == [] then []
    else if |args| == 1 then rt.sprint(args[0])
    else JoinSpaced(rt, args[..|args| - 1]) + " " + rt.sprint(args[|args| - 1])
  }

  /** fmt.Sprintln: the operands separated by spaces, then a newline. */
  function Sprintln(rt: Runtime, args: seq<Value>): (r: string)
    ensures |r| > 0 && r[|r| - 1] == '\n'
    ensures r[..|r| - 1] == JoinSpaced(rt, args)
  {
    JoinSpaced(rt, args) + "\n"
  }
}
