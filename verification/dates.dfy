/**
 * Calendar dates as the file writers use them: the "20060102" file-name stamp
 * (time.Format and its parse), uniqueLogDay, Go's string order on stamps, and the
 * day arithmetic of the retention cut-off. The proleptic Gregorian calendar, in
 * local time, without daylight-saving shifts.
 */
module Dates {
  import opened Wrappers
  import opened Decimal

  datatype Date = Date(year: int, month: int, day: int)

  predicate IsLeap(y: int)
  {
    y % 4 == 0 && (y % 100 != 0 || y % 400 == 0)
  }

  function DaysIn(y: int, m: int): (n: int)
    requires 1 <= m <= 12
    ensures 28 <= n <= 31
  {
    if m == 2 then (if IsLeap(y) then 29 else 28)
    else if m == 4 || m == 6 || m == 9 || m == 11 then 30
    else 31
  }

  /** A real day of the calendar. */
  predicate Valid(d: Date)
  {
    1 <= d.month <= 12 && 1 <= d.day <= DaysIn(d.year, d.month)
  }

  /** Chronological order. */
  predicate Before(a: Date, b: Date)
  {
    a.year < b.year
    || (a.year == b.year && a.month < b.month)
    || (a.year == b.year && a.month == b.month && a.day < b.day)
  }

  function Pow10(w: nat): (p: nat)
    ensures p >= 1
  {
    if w == 0 then 1 else 10 * Pow10(w - 1)
  }

  /** The w-digit zero-padded text of n. */
  function Fixed(n: nat, w: nat): (r: string)
    requires n < Pow10(w)
    ensures |r| == w
    ensures forall i :: 0 <= i < |r| ==> IsDigit(r[i])
  {
    if w == 0 then [] else Fixed(n / 10, w - 1) + [DigitChar(n % 10)]
  }

  /** Reading a padded number back. */
  lemma {:induction false} ParseFixed(n: nat, w: nat)
    requires n < Pow10(w)
    ensures ParseNat(Fixed(n, w)) == n
  {
    if w > 0 {
      var s := Fixed(n, w);
      ParseFixed(n / 10, w - 1);
      assert s[..|s| - 1] == Fixed(n / 10, w - 1);
    }
  }

  /** Padded texts of one width are equal only for equal numbers. */
  lemma FixedInjective(x: nat, y: nat, w: nat)
    requires x < Pow10(w) && y < Pow10(w)
    ensures Fixed(x, w) == Fixed(y, w) <==> x == y
  {
    if Fixed(x, w) == Fixed(y, w) {
      ParseFixed(x, w);
      ParseFixed(y, w);
    }
  }

  /** "2006" in a layout: four digits, zero padded; a '-' before negative years; more digits past 9999. */
  function YearText(y: int): (r: string)
    ensures 0 <= y < 10000 ==> r == Fixed(y, 4)
  {
    if 0 <= y < 10000 then Fixed(y, 4)
    else if -10000 < y < 0 then "-" + Fixed(-y, 4)
    else IntText(y)
  }

  /** now.Format("20060102"). */
  function Stamp(d: Date): (s: string)
    requires Valid(d)
    ensures 0 <= d.year < 10000 ==> |s| == 8 && forall i :: 0 <= i < 8 ==> IsDigit(s[i])
  {
    YearText(d.year) + Fixed(d.month, 2) + Fixed(d.day, 2)
  }

  /** uniqueLogDay: year*10000 + month*100 + day. */
  function UniqueLogDay(d: Date): int
  {
    d.year * 10000 + d.month * 100 + d.day
  }

  /** On real dates, uniqueLogDay tells days apart and follows their order. */
  lemma UniqueLogDayOrder(a: Date, b: Date)
    requires Valid(a) && Valid(b)
    ensures UniqueLogDay(a) == UniqueLogDay(b) <==> a == b
    ensures UniqueLogDay(a) < UniqueLogDay(b) <==> Before(a, b)
  {
    var ra, rb := a.month * 100 + a.day, b.month * 100 + b.day;
    assert 101 <= ra <= 1231 && 101 <= rb <= 1231;
    if a.year < b.year {
      assert a.year * 10000 + 10000 <= b.year * 10000;
    } else if a.year > b.year {
      assert b.year * 10000 + 10000 <= a.year * 10000;
    }
  }

  /** A stamp of a year within four digits is the 8-digit text of uniqueLogDay. */
  lemma StampIsFixedDay(d: Date)
    requires Valid(d) && 0 <= d.year < 10000
    ensures Stamp(d) == Fixed(UniqueLogDay(d), 8)
  {
    assert d.day <= 31;
    DayDigits(d.year, d.month, d.day, UniqueLogDay(d));
    assert YearText(d.year) == Fixed(d.year, 4);
  }

  /** Four digits of y, two of m, two of dd: the eight digits of n = y*10000 + m*100 + dd. */
  lemma DayDigits(y: nat, m: nat, dd: nat, n: int)
    requires y < 10000 && m < 100 && dd < 100 && n == y * 10000 + m * 100 + dd
    ensures 0 <= n < Pow10(8)
    ensures Fixed(y, 4) + Fixed(m, 2) + Fixed(dd, 2) == Fixed(n, 8)
  {
    var ym := y * 100 + m;
    YearMonthDigits(y, m, ym);
    ShiftTwice(y, m);
    TwoMoreDigits(ym, 6, dd, n);
  }

  /** Four digits of y then two of m: the six digits of ym = y*100 + m. */
  lemma YearMonthDigits(y: nat, m: nat, ym: int)
    requires y < 10000 && m < 100 && ym == y * 100 + m
    ensures 0 <= ym < Pow10(6)
    ensures Fixed(y, 4) + Fixed(m, 2) == Fixed(ym, 6)
  {
    assert Pow10(4) == 10000;
    TwoMoreDigits(y, 4, m, ym);
  }

  /** Shifting y two digits, adding m and shifting again is shifting y four digits. */
  lemma ShiftTwice(y: int, m: int)
    ensures (y * 100 + m) * 100 == y * 10000 + m * 100
  {
  }

  /** Padded x then two digits of y is the padding of n = x*100 + y, two digits wider. */
  lemma TwoMoreDigits(x: nat, w: nat, y: nat, n: int)
    requires x < Pow10(w) && y < 100 && n == x * 100 + y
    ensures 0 <= n < Pow10(w + 2)
    ensures Fixed(x, w) + Fixed(y, 2) == Fixed(n, w + 2)
  {
    assert Pow10(2) == 100;
    FixedConcat(x, w, y, 2);
  }

  /** Padded x then padded y is the padding of x * 10^k + y. */
  lemma {:induction false} FixedConcat(x: nat, w: nat, y: nat, k: nat)
    requires x < Pow10(w) && y < Pow10(k)
    ensures x * Pow10(k) + y < Pow10(w + k)
    ensures Fixed(x, w) + Fixed(y, k) == Fixed(x * Pow10(k) + y, w + k)
    decreases k
  {
    if k == 0 {
      assert Fixed(y, k) == [];
    } else {
      var n := x * Pow10(k) + y;
      var a := x * Pow10(k - 1);
      assert x * Pow10(k) == 10 * a;
      assert n / 10 == a + y / 10 && n % 10 == y % 10;
      FixedConcat(x, w, y / 10, k - 1);
      PowAdd(w, k);
    }
  }

  lemma {:induction false} PowAdd(w: nat, k: nat)
    ensures Pow10(w + k) == Pow10(w) * Pow10(k)
    decreases k
  {
    if k > 0 {
      PowAdd(w, k - 1);
      assert Pow10(w + k) == 10 * Pow10(w + (k - 1));
    }
  }

  /** Go's `<` on strings: byte order at the first difference, a proper prefix first. */
  predicate LexLess(a: string, b: string)
  {
    if a == [] then b != []
    else if b == [] then false
    else if a[0] != b[0] then a[0] < b[0]
    else LexLess(a[1..], b[1..])
  }

  lemma {:induction false} LexLessAppend(a: string, c: char, b: string, e: char)
    requires |a| == |b|
    ensures LexLess(a + [c], b + [e]) <==> LexLess(a, b) || (a == b && c < e)
    decreases |a|
  {
    if a != [] {
      assert (a + [c])[1..] == a[1..] + [c];
      assert (b + [e])[1..] == b[1..] + [e];
      LexLessAppend(a[1..], c, b[1..], e);
      if a[0] == b[0] && a[1..] == b[1..] {
        assert a == [a[0]] + a[1..] && b == [b[0]] + b[1..];
      }
    }
  }

  /** On padded numbers of one width, string order is numeric order. */
  lemma {:induction false} LexLessFixed(x: nat, y: nat, w: nat)
    requires x < Pow10(w) && y < Pow10(w)
    ensures LexLess(Fixed(x, w), Fixed(y, w)) <==> x < y
  {
    if w > 0 {
      LexLessFixed(x / 10, y / 10, w - 1);
      FixedInjective(x / 10, y / 10, w - 1);
      LexLessAppend(Fixed(x / 10, w - 1), DigitChar(x % 10), Fixed(y / 10, w - 1), DigitChar(y % 10));
    }
  }

  /**
   * Comparing "20060102" stamps as strings, as the retention filter does, is the
   * same as comparing the dates, for years 0 to 9999.
   */
  lemma StampOrder(a: Date, b: Date)
    requires Valid(a) && Valid(b) && 0 <= a.year < 10000 && 0 <= b.year < 10000
    ensures LexLess(Stamp(a), Stamp(b)) <==> Before(a, b)
    ensures Stamp(a) == Stamp(b) <==> a == b
  {
    StampIsFixedDay(a);
    StampIsFixedDay(b);
    UniqueLogDayOrder(a, b);
    PowAdd(4, 4);
    assert UniqueLogDay(a) < 100000000 && UniqueLogDay(b) < 100000000;
    LexLessFixed(UniqueLogDay(a), UniqueLogDay(b), 8);
    FixedInjective(UniqueLogDay(a), UniqueLogDay(b), 8);
  }

  predicate AllDigits(s: string)
  {
    forall i :: 0 <= i < |s| ==> IsDigit(s[i])
  }

  /** The "2006" element of a parse: four digits (a sign or any other first character is rejected). */
  function ParseYear(p: string): (y: Option<int>)
    requires |p| == 4
  {
    if AllDigits(p) then Some(ParseNat(p) as int) else None
  }

  /**
   * timeutil.ParseLocal("20060102", s): four digits of year, two of month, two of day,
   * nothing more, and a day that exists.
   */
  function ParseStamp(s: string): (r: Option<Date>)
    ensures r.Some? ==> |s| == 8 && AllDigits(s) && Valid(r.value)
  {
    if |s| != 8 || !AllDigits(s[4..]) then None
    else match ParseYear(s[..4])
      case None => None
      case Some(y) =>
        var d := Date(y, ParseNat(s[4..6]), ParseNat(s[6..]));
        if Valid(d) then Some(d) else None
  }

  /** Stamping a date and parsing the stamp gives the date back. */
  lemma ParseStampOfStamp(d: Date)
    requires Valid(d) && 0 <= d.year < 10000
    ensures ParseStamp(Stamp(d)) == Some(d)
  {
    var s := Stamp(d);
    assert s[..4] == Fixed(d.year, 4) && s[4..6] == Fixed(d.month, 2) && s[6..] == Fixed(d.day, 2);
    ParseFixed(d.year, 4);
    ParseFixed(d.month, 2);
    ParseFixed(d.day, 2);
    assert AllDigits(s[..4]);
  }

  /** A text that parses is the stamp of what it parses to. */
  lemma StampOfParseStamp(s: string)
    requires ParseStamp(s).Some?
    ensures Stamp(ParseStamp(s).value) == s
  {
    var d := ParseStamp(s).value;
    assert AllDigits(s[..4]) && AllDigits(s[4..6]) && AllDigits(s[6..]);
    assert 0 <= d.year < 10000 by {
      ParseNatBound(s[..4]);
    }
    ParseStampOfStamp(d);
    FixedOfParse(s[..4]);
    FixedOfParse(s[4..6]);
    FixedOfParse(s[6..]);
    assert s == s[..4] + s[4..6] + s[6..];
  }

  lemma {:induction false} ParseNatBound(s: string)
    requires AllDigits(s)
    ensures ParseNat(s) < Pow10(|s|)
  {
    if s != [] {
      var init := s[..|s| - 1];
      assert AllDigits(init) by {
        forall i | 0 <= i < |init| ensures IsDigit(init[i]) {
          assert init[i] == s[i];
        }
      }
      ParseNatBound(init);
    }
  }

  lemma {:induction false} FixedOfParse(s: string)
    requires AllDigits(s)
    ensures ParseNat(s) < Pow10(|s|) && Fixed(ParseNat(s), |s|) == s
  {
    ParseNatBound(s);
    if s != [] {
      var init := s[..|s| - 1];
      assert AllDigits(init) by {
        forall i | 0 <= i < |init| ensures IsDigit(init[i]) {
          assert init[i] == s[i];
        }
      }
      FixedOfParse(init);
      var n := ParseNat(s);
      assert n / 10 == ParseNat(init) && n % 10 == DigitValue(s[|s| - 1]);
      assert init + [s[|s| - 1]] == s;
    }
  }

  /** The day before. */
  function PrevDay(d: Date): (p: Date)
    requires Valid(d)
    ensures Valid(p) && Before(p, d)
  {
    if d.day > 1 then Date(d.year, d.month, d.day - 1)
    else if d.month > 1 then Date(d.year, d.month - 1, DaysIn(d.year, d.month - 1))
    else Date(d.year - 1, 12, 31)
  }

  /** The day n days earlier: nowT.Add(-n * 24h), without daylight-saving shifts. */
  function SubtractDays(d: Date, n: nat): (p: Date)
    requires Valid(d)
    ensures Valid(p)
    ensures n > 0 ==> Before(p, d)
    ensures n == 0 ==> p == d
    decreases n
  {
    if n == 0 then d
    else
      var p := SubtractDays(PrevDay(d), n - 1);
      BeforeTransitive(p, PrevDay(d), d);
      p
  }

  lemma BeforeTransitive(a: Date, b: Date, c: Date)
    requires Before(a, b) || a == b
    requires Before(b, c)
    ensures Before(a, c)
  {
  }

  /** Nothing lies strictly between a day and the day before it. */
  lemma PrevDayIsAdjacent(d: Date, e: Date)
    requires Valid(d) && Valid(e)
    ensures Before(PrevDay(d), e) && Before(e, d) ==> false
  {
  }
}
