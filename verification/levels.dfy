/** Severity levels: the six-level total order, its names and the lenient parser. */
module Levels {

  /** A level is a Go uint8: only 0..5 have names, the rest print as INFO. */
  type Level = x: nat | x < 256

  const Debug: Level := 0
  const Info: Level := 1
  const Warn: Level := 2
  const Error: Level := 3
  const Panic: Level := 4
  const Fatal: Level := 5

  const LevelMin: Level := Debug
  const LevelMax: Level := Fatal

  /** The printed name of a level (Level.String). */
  function Name(l: Level): (r: string)
    ensures l > LevelMax ==> r == "INFO"
  {
    if l == Debug then "DEBUG"
    else if l == Info then "INFO"
    else if l == Warn then "WARN"
    else if l == Error then "ERROR"
    else if l == Panic then "PANIC"
    else if l == Fatal then "FATAL"
    else "INFO"
  }

  /** Debug..Fatal print as DEBUG..FATAL; every other value prints as INFO. */
  lemma NameTable(l: Level)
    ensures Name(l) in {"DEBUG", "INFO", "WARN", "ERROR", "PANIC", "FATAL"}
    ensures l == Debug ==> Name(l) == "DEBUG"
    ensures l == Warn ==> Name(l) == "WARN"
    ensures l == Error ==> Name(l) == "ERROR"
    ensures l == Panic ==> Name(l) == "PANIC"
    ensures l == Fatal ==> Name(l) == "FATAL"
    ensures l == Info || l > LevelMax ==> Name(l) == "INFO"
  {
  }

  /** The six named levels have six different names. */
  lemma NamesDistinct(a: Level, b: Level)
    requires a <= LevelMax && b <= LevelMax
    ensures Name(a) == Name(b) <==> a == b
  {
  }

  /** unicode.IsSpace: the characters strings.TrimSpace removes. */
  predicate IsSpace(c: char)
  {
    c in WhiteSpace
  }

  /**
   * The white space of unicode.IsSpace: tab, line feed, vertical tab, form feed,
   * carriage return, space, U+0085, U+00A0, and U+1680, U+2000 to U+200A, U+2028,
   * U+2029, U+202F, U+205F and U+3000.
   */
  const WhiteSpace: set<char> :=
    {'\t', '\n', '\U{000B}', '\U{000C}', '\r', ' ', '\U{0085}', '\U{00A0}', '\U{1680}',
     '\U{2000}', '\U{2001}', '\U{2002}', '\U{2003}', '\U{2004}', '\U{2005}', '\U{2006}', '\U{2007}',
     '\U{2008}', '\U{2009}', '\U{200A}', '\U{2028}', '\U{2029}', '\U{202F}', '\U{205F}', '\U{3000}'}

  /** strings.TrimLeftFunc(s, unicode.IsSpace): s from its first character that is not white space. */
  function TrimLeft(s: string): (r: string)
    ensures |r| <= |s| && r == s[|s| - |r|..]
    ensures r == [] || !IsSpace(r[0])
    ensures AllSpace(s[..|s| - |r|])
  {
    if s != [] && IsSpace(s[0]) then
      var r := TrimLeft(s[1..]);
      SpaceThenSuffix(s, r);
      r
    else s
  }

  /** A suffix of s[1..] after white space, with s starting with white space, is a suffix of s after white space. */
  lemma SpaceThenSuffix(s: string, r: string)
    requires s != [] && IsSpace(s[0])
    requires |r| <= |s| - 1 && r == s[1..][|s| - 1 - |r|..] && AllSpace(s[1..][..|s| - 1 - |r|])
    ensures r == s[|s| - |r|..] && AllSpace(s[..|s| - |r|])
  {
    var k := |s| - |r|;
    assert s[1..][k - 1..] == s[k..];
    assert s[..k] == [s[0]] + s[1..][..k - 1];
  }

  /** strings.TrimRightFunc(s, unicode.IsSpace): s up to its last character that is not white space. */
  function TrimRight(s: string): (r: string)
    ensures |r| <= |s| && r == s[..|r|]
    ensures r == [] || !IsSpace(r[|r| - 1])
    ensures AllSpace(s[|r|..])
  {
    if s != [] && IsSpace(s[|s| - 1]) then
      var r := TrimRight(s[..|s| - 1]);
      PrefixThenSpace(s, r);
      r
    else s
  }

  /** A prefix of all of s but its last character, before white space, with s ending in white space, is a prefix of s before white space. */
  lemma PrefixThenSpace(s: string, r: string)
    requires s != [] && IsSpace(s[|s| - 1])
    requires |r| <= |s| - 1 && r == s[..|s| - 1][..|r|] && AllSpace(s[..|s| - 1][|r|..])
    ensures r == s[..|r|] && AllSpace(s[|r|..])
  {
    assert s[|r|..] == s[..|s| - 1][|r|..] + [s[|s| - 1]];
  }

  /**
   * strings.TrimSpace: drop leading and trailing white space. The result is the part
   * of s that lies between white space only and neither starts nor ends with it.
   */
  function TrimSpace(s: string): (r: string)
    ensures r == [] || (!IsSpace(r[0]) && !IsSpace(r[|r| - 1]))
    ensures exists i :: SpaceAround(s, r, i)
  {
    TrimBothAround(s);
    TrimRight(TrimLeft(s))
  }

  /** Trimming both ends leaves the part of s after the leading and before the trailing white space. */
  lemma TrimBothAround(s: string)
    ensures SpaceAround(s, TrimRight(TrimLeft(s)), |s| - |TrimLeft(s)|)
  {
    SpaceOnBothSides(s, TrimLeft(s), TrimRight(TrimLeft(s)));
  }

  /** A suffix t after white space, and a prefix r of t before white space: r sits in s between white space. */
  lemma SpaceOnBothSides(s: string, t: string, r: string)
    requires |t| <= |s| && t == s[|s| - |t|..] && AllSpace(s[..|s| - |t|])
    requires |r| <= |t| && r == t[..|r|] && AllSpace(t[|r|..])
    ensures SpaceAround(s, r, |s| - |t|)
  {
    var i := |s| - |t|;
    assert t[|r|..] == s[i + |r|..];
  }

  /** r occurs in s at offset i. */
  predicate SliceAt(s: string, r: string, i: int)
  {
    0 <= i <= |s| - |r| && r == s[i..i + |r|]
  }

  /** Nothing but white space. */
  predicate AllSpace(x: string)
  {
    forall k :: 0 <= k < |x| ==> IsSpace(x[k])
  }

  /** r occurs in s at offset i, with only white space before and after it. */
  predicate SpaceAround(s: string, r: string, i: int)
  {
    SliceAt(s, r, i) && AllSpace(s[..i]) && AllSpace(s[i + |r|..])
  }

  /**
   * unicode.ToUpper restricted to what can matter for level names: ASCII letters,
   * and the two non-ASCII letters whose upper case is an ASCII letter
   * (dotless i and long s). Every other character is left as it is.
   */
  function UpperRune(c: char): (r: char)
    ensures 'a' <= c <= 'z' ==> r as int == c as int - 32
    ensures !('a' <= c <= 'z') && c != '\U{0131}' && c != '\U{017F}' ==> r == c
  {
    if 'a' <= c <= 'z' then (c as int - 32) as char
    else if c == '\U{0131}' then 'I'
    else if c == '\U{017F}' then 'S'
    else c
  }

  /** strings.ToUpper, rune by rune. */
  function ToUpper(s: string): (r: string)
    ensures |r| == |s|
    ensures forall i :: 0 <= i < |s| ==> r[i] == UpperRune(s[i])
  {
    if s == [] then [] else [UpperRune(s[0])] + ToUpper(s[1..])
  }

  /** The first level in from..LevelMax whose name is u: the search loop of ParseLevel. */
  function FindLevel(u: string, from: nat): (r: Level)
    requires from <= LevelMax + 1
    decreases LevelMax + 1 - from
    ensures r <= LevelMax
    ensures (exists k: Level :: from <= k <= LevelMax && Name(k) == u) ==> Name(r) == u && from <= r
    ensures (forall k: Level :: from <= k <= LevelMax ==> Name(k) != u) ==> r == Info
  {
    if from > LevelMax then Info
    else if Name(from) == u then from
    else FindLevel(u, from + 1)
  }

  /**
   * ParseLevel: trim, upper-case, then the first level whose name matches;
   * Info when none does. It never fails.
   */
  function ParseLevel(s: string): (r: Level)
    ensures r <= LevelMax
    ensures Name(r) == ToUpper(TrimSpace(s))
            || (r == Info && forall k: Level :: k <= LevelMax ==> Name(k) != ToUpper(TrimSpace(s)))
  {
    FindLevel(ToUpper(TrimSpace(s)), LevelMin)
  }

  /** A name that matches no level parses as Info. */
  lemma ParseUnknownIsInfo(s: string)
    requires forall k: Level :: k <= LevelMax ==> Name(k) != ToUpper(TrimSpace(s))
    ensures ParseLevel(s) == Info
  {
  }

  /** Upper-case ASCII text is its own upper case. */
  lemma {:induction false} UpperOfUpper(s: string)
    requires forall i :: 0 <= i < |s| ==> 'A' <= s[i] <= 'Z'
    ensures ToUpper(s) == s
  {
    if s != [] {
      UpperOfUpper(s[1..]);
    }
  }

  /** A level name has no surrounding blanks. */
  lemma NameIsTrimmed(l: Level)
    ensures TrimSpace(Name(l)) == Name(l)
  {
    var n := Name(l);
    assert !IsSpace(n[0]) && !IsSpace(n[|n| - 1]);
    TrimmedIsTrimSpace(n);
  }

  /** A text that neither starts nor ends with white space is left as it is by TrimSpace. */
  lemma TrimmedIsTrimSpace(s: string)
    requires s == [] || (!IsSpace(s[0]) && !IsSpace(s[|s| - 1]))
    ensures TrimSpace(s) == s
  {
    assert TrimLeft(s) == s;
    assert TrimRight(s) == s;
  }

  /** A level's name is upper-case ASCII. */
  lemma NameIsUpper(l: Level)
    ensures forall i :: 0 <= i < |Name(l)| ==> 'A' <= Name(l)[i] <= 'Z'
  {
    NameTable(l);
  }

  /** Round trip: every named level parses back from its own name. */
  lemma ParseName(l: Level)
    requires l <= LevelMax
    ensures ParseLevel(Name(l)) == l
  {
    NameIsTrimmed(l);
    NameIsUpper(l);
    UpperOfUpper(Name(l));
    ParseMatches(Name(l), l);
  }

  /** Whatever trims and upper-cases to a level's name parses as that level. */
  lemma ParseMatches(s: string, l: Level)
    requires l <= LevelMax && ToUpper(TrimSpace(s)) == Name(l)
    ensures ParseLevel(s) == l
  {
    NamesDistinct(ParseLevel(s), l);
  }

  /** Surrounding blanks and lower case do not matter: " warn " is Warn. */
  lemma ParseLowerPadded()
    ensures ParseLevel(" warn ") == Warn
  {
    PaddedWarnTrims();
    LowerWarnUppers();
    NameTable(Warn);
    ParseMatches(" warn ", Warn);
  }

  lemma PaddedWarnTrims()
    ensures TrimSpace(" warn ") == "warn"
  {
    PaddedWarnTrimsLeft();
    PaddedWarnTrimsRight();
  }

  lemma PaddedWarnTrimsLeft()
    ensures TrimLeft(" warn ") == "warn "
  {
    var s := " warn ";
    assert s[1..] == "warn " && IsSpace(s[0]);
    assert !IsSpace(s[1..][0]);
  }

  lemma PaddedWarnTrimsRight()
    ensures TrimRight("warn ") == "warn"
  {
    var s := "warn ";
    assert s[..4] == "warn" && IsSpace(s[4]);
    assert !IsSpace(s[..4][3]);
  }

  lemma LowerWarnUppers()
    ensures ToUpper("warn") == "WARN"
  {
    var u := ToUpper("warn");
    assert u[0] == 'W' && u[1] == 'A' && u[2] == 'R' && u[3] == 'N';
  }

  /** A name outside the six parses as Info. */
  lemma ParseVerboseIsInfo()
    ensures ParseLevel("verbose") == Info
  {
    var v := "verbose";
    assert !IsSpace(v[0]) && !IsSpace(v[|v| - 1]);
    TrimmedIsTrimSpace(v);
    LongNameIsInfo(v);
  }

  /** No level name has more than five letters, so a longer word parses as Info. */
  lemma LongNameIsInfo(s: string)
    requires |TrimSpace(s)| > 5
    ensures ParseLevel(s) == Info
  {
    var u := ToUpper(TrimSpace(s));
    forall k: Level | k <= LevelMax
      ensures Name(k) != u
    {
      NameTable(k);
    }
    ParseUnknownIsInfo(s);
  }
}
