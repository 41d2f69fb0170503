/**
 * The path and string helpers the file writers use: filepath.Join and filepath.Base
 * for '/' as the separator, strings.Split, and the non-empty split of the goutils
 * package (Split with the empty parts dropped).
 */
module Paths {
  const Sep := '/'

  /**
   * What filepath.Join puts before a plain name: nothing for "" and "." (Clean drops
   * "./"), the root for "/" (Clean merges the doubled separator), otherwise the
   * directory and one separator.
   */
  function DirPrefix(dir: string): (d: string)
    ensures d == [] || d[|d| - 1] == Sep
    ensures dir == "" || dir == "." ==> d == []
    ensures dir == "/" ==> d == [Sep]
    ensures dir != "" && dir != "." && dir != "/" ==> d == dir + [Sep]
  {
    if dir == "" || dir == "." then [] else if dir == "/" then [Sep] else dir + [Sep]
  }

  /** filepath.Join(dir, name) for a clean directory and a plain name: the name under the directory's prefix. */
  function Join(dir: string, name: string): (p: string)
    ensures p == DirPrefix(dir) + name
    ensures dir == "" || dir == "." ==> p == name
    ensures dir == "/" ==> p == [Sep] + name
    ensures dir != "" && dir != "." && dir != "/" ==> p == dir + [Sep] + name
  {
    DirPrefix(dir) + name
  }

  /** The path without its trailing separators. */
  function TrimTrailingSeps(p: string): (r: string)
    ensures |r| <= |p| && r == p[..|r|]
    ensures r == [] || r[|r| - 1] != Sep
    ensures forall i :: |r| <= i < |p| ==> p[i] == Sep
  {
    if p != [] && p[|p| - 1] == Sep then TrimTrailingSeps(p[..|p| - 1]) else p
  }

  /** The text after the last separator. */
  function AfterLastSep(p: string): (r: string)
    ensures |r| <= |p| && r == p[|p| - |r|..]
    ensures Sep !in r
    ensures |r| < |p| ==> p[|p| - |r| - 1] == Sep
  {
    if p == [] then []
    else if p[|p| - 1] == Sep then []
    else AfterLastSep(p[..|p| - 1]) + [p[|p| - 1]]
  }

  /**
   * filepath.Base: "." for the empty path, "/" for a path of separators only,
   * otherwise the last element, trailing separators removed.
   */
  function Base(p: string): (b: string)
    ensures p == "" ==> b == "."
    ensures b != []
    ensures p != "" && TrimTrailingSeps(p) == [] ==> b == [Sep]
    ensures var t := TrimTrailingSeps(p);
      t != [] ==> Sep !in b && |b| <= |t| && b == t[|t| - |b|..] && (|b| < |t| ==> t[|t| - |b| - 1] == Sep)
  {
    if p == "" then "."
    else
      var t := TrimTrailingSeps(p);
      if t == [] then [Sep]
      else
        var last := AfterLastSep(t);
        if last == [] then [Sep] else last
  }

  /** A name without separators, joined to a directory, is its own base. */
  lemma BaseOfJoin(dir: string, name: string)
    requires name != [] && Sep !in name
    ensures Base(Join(dir, name)) == name
  {
    var p := Join(dir, name);
    assert p[|p| - 1] == name[|name| - 1] != Sep;
    assert TrimTrailingSeps(p) == p;
    AfterLastSepOfJoin(dir, name);
  }

  lemma AfterLastSepOfJoin(dir: string, name: string)
    requires Sep !in name
    ensures AfterLastSep(Join(dir, name)) == name
  {
    AfterLastSepAfter(DirPrefix(dir), name);
  }

  /** After a prefix that is empty or ends with a separator, a name without separators is the last element. */
  lemma {:induction false} AfterLastSepAfter(d: string, name: string)
    requires d == [] || d[|d| - 1] == Sep
    requires Sep !in name
    ensures AfterLastSep(d + name) == name
    decreases |name|
  {
    if name == [] {
      assert d + name == d;
    } else {
      var init, c := name[..|name| - 1], name[|name| - 1];
      assert name == init + [c];
      AfterLastSepAfter(d, init);
      assert d + name == (d + init) + [c];
      AfterLastSepSnoc(d + init, c);
    }
  }

  /** A character other than the separator extends the last element. */
  lemma AfterLastSepSnoc(q: string, c: char)
    requires c != Sep
    ensures AfterLastSep(q + [c]) == AfterLastSep(q) + [c]
  {
    assert (q + [c])[..|q|] == q;
  }

  /** strings.Split(s, string(c)): the parts between the occurrences of c, always at least one. */
  function Split(s: string, c: char): (parts: seq<string>)
    ensures |parts| >= 1
    ensures forall i :: 0 <= i < |parts| ==> c !in parts[i]
  {
    if s == [] then [[]]
    else
      var rest := Split(s[1..], c);
      if s[0] == c then [[]] + rest else [[s[0]] + rest[0]] + rest[1..]
  }

  /** Splitting a text without c gives the text itself. */
  lemma {:induction false} SplitNone(s: string, c: char)
    requires c !in s
    ensures Split(s, c) == [s]
  {
    if s != [] {
      assert c !in s[1..] by {
        forall i | 0 <= i < |s[1..]| ensures s[1..][i] != c {
          assert s[1..][i] == s[i + 1];
        }
      }
      SplitNone(s[1..], c);
      assert [s[0]] + s[1..] == s;
    }
  }

  /** A first part without c, then c, then the rest: the first part, then the parts of the rest. */
  lemma {:induction false} SplitAt(a: string, c: char, b: string)
    requires c !in a
    ensures Split(a + [c] + b, c) == [a] + Split(b, c)
    decreases |a|
  {
    var s := a + [c] + b;
    if a == [] {
      assert s[0] == c && s[1..] == b;
    } else {
      assert s[1..] == a[1..] + [c] + b;
      assert c !in a[1..] by {
        forall i | 0 <= i < |a[1..]| ensures a[1..][i] != c {
          assert a[1..][i] == a[i + 1];
        }
      }
      SplitAt(a[1..], c, b);
      assert s[0] == a[0] != c;
      assert [a[0]] + a[1..] == a;
    }
  }

  /** strings.Join(parts, string(c)). */
  function JoinWith(parts: seq<string>, c: char): string
    requires |parts| >= 1
  {
    if |parts| == 1 then parts[0] else parts[0] + [c] + JoinWith(parts[1..], c)
  }

  /** Split loses nothing: joining the parts with c gives the text back. */
  lemma {:induction false} SplitJoin(s: string, c: char)
    ensures JoinWith(Split(s, c), c) == s
  {
    if s != [] {
      var rest := Split(s[1..], c);
      SplitJoin(s[1..], c);
      if s[0] == c {
        assert Split(s, c)[1..] == rest;
        assert [] + [c] + s[1..] == s;
      } else {
        var parts := Split(s, c);
        assert parts[0] == [s[0]] + rest[0] && parts[1..] == rest[1..];
        if |rest| == 1 {
          assert JoinWith(rest, c) == rest[0];
        } else {
          assert JoinWith(rest, c) == rest[0] + [c] + JoinWith(rest[1..], c);
        }
        assert [s[0]] + s[1..] == s;
      }
    }
  }

  /** The parts that are not empty, in order. */
  function NonEmpty(parts: seq<string>): (r: seq<string>)
    ensures |r| <= |parts|
    ensures forall x :: x in r <==> x in parts && x != []
  {
    if parts == [] then []
    else if parts[0] == [] then NonEmpty(parts[1..])
    else [parts[0]] + NonEmpty(parts[1..])
  }

  /** Dropping the empty parts keeps the order: it distributes over concatenation. */
  lemma {:induction false} NonEmptyConcat(a: seq<string>, b: seq<string>)
    ensures NonEmpty(a + b) == NonEmpty(a) + NonEmpty(b)
    decreases |a|
  {
    if a == [] {
      assert a + b == b;
    } else {
      assert (a + b)[0] == a[0] && (a + b)[1..] == a[1..] + b;
      NonEmptyConcat(a[1..], b);
      if a[0] != [] {
        assert [a[0]] + (NonEmpty(a[1..]) + NonEmpty(b)) == [a[0]] + NonEmpty(a[1..]) + NonEmpty(b);
      }
    }
  }

  /** stringutil.SplitNonEmpty(s, string(c)): the parts of Split that are not empty. */
  function SplitNonEmpty(s: string, c: char): (parts: seq<string>)
    ensures forall i :: 0 <= i < |parts| ==> parts[i] != [] && c !in parts[i]
    ensures forall x :: x in parts <==> x in Split(s, c) && x != []
  {
    var parts := NonEmpty(Split(s, c));
    assert forall i :: 0 <= i < |parts| ==> parts[i] in Split(s, c);
    parts
  }

  /** One part and no more. */
  lemma NonEmptySingle(x: string)
    ensures NonEmpty([x]) == if x == [] then [] else [x]
  {
    assert [x][1..] == [];
  }

  /** Splitting at the first occurrence of c: the first part, unless it is empty, then the parts of the rest. */
  lemma SplitNonEmptyFirst(a: string, c: char, b: string)
    requires c !in a
    ensures SplitNonEmpty(a + [c] + b, c) == (if a == [] then [] else [a]) + SplitNonEmpty(b, c)
  {
    SplitAt(a, c, b);
    NonEmptyConcat([a], Split(b, c));
    NonEmptySingle(a);
  }

  /** m copies of c. */
  function Fill(c: char, m: nat): (r: string)
    ensures |r| == m && forall i :: 0 <= i < m ==> r[i] == c
  {
    if m == 0 then [] else [c] + Fill(c, m - 1)
  }

  /** A text in which c occurs is split at the first occurrence. */
  lemma {:induction false} FirstOccurrence(s: string, c: char) returns (a: string, b: string)
    requires c in s
    ensures s == a + [c] + b && c !in a
  {
    if s[0] == c {
      a, b := [], s[1..];
      assert s == [s[0]] + s[1..];
    } else {
      assert c in s[1..] by {
        var i :| 0 <= i < |s| && s[i] == c;
        assert s[1..][i - 1] == c;
      }
      var a', b' := FirstOccurrence(s[1..], c);
      a, b := [s[0]] + a', b';
      assert s == [s[0]] + s[1..];
    }
  }

  /** A part without c, followed by nothing or by c, comes out whole. */
  lemma SplitNonEmptyWord(x: string, c: char, t: string)
    requires x != [] && c !in x && (t == [] || t[0] == c)
    ensures SplitNonEmpty(x + t, c) == [x] + SplitNonEmpty(t, c)
  {
    if t == [] {
      SplitNone(x, c);
      NonEmptySingle(x);
      assert x + t == x;
      assert Split(t, c) == [[]];
      NonEmptySingle([]);
    } else {
      SplitNonEmptyFirst(x, c, t[1..]);
      SplitNonEmptyFirst([], c, t[1..]);
      assert x + t == x + [c] + t[1..];
      assert t == [] + [c] + t[1..];
    }
  }

  /** Leading copies of c give no part. */
  lemma {:induction false} SplitNonEmptyFill(m: nat, c: char, t: string)
    ensures SplitNonEmpty(Fill(c, m) + t, c) == SplitNonEmpty(t, c)
    decreases m
  {
    if m > 0 {
      SplitNonEmptyFill(m - 1, c, t);
      var u := Fill(c, m - 1) + t;
      assert Fill(c, m) + t == [] + [c] + u;
      SplitNonEmptyFirst([], c, u);
      assert SplitNonEmpty(Fill(c, m) + t, c) == [] + SplitNonEmpty(u, c);
      assert [] + SplitNonEmpty(u, c) == SplitNonEmpty(u, c);
    } else {
      assert Fill(c, m) + t == t;
    }
  }

  /** No part at all: the text is nothing but c. */
  lemma {:induction false} SplitNonEmptyNone(s: string, c: char)
    requires SplitNonEmpty(s, c) == []
    ensures s == Fill(c, |s|)
    decreases |s|
  {
    if c !in s {
      SplitNone(s, c);
      NonEmptySingle(s);
    } else {
      var a, b := FirstOccurrence(s, c);
      SplitNonEmptyFirst(a, c, b);
      assert a == [];
      SplitNonEmptyNone(b, c);
      assert s == [c] + b;
    }
  }

  /** A text without c: no part when it is empty, otherwise itself. */
  lemma SplitNonEmptyPlain(s: string, c: char)
    requires c !in s
    ensures SplitNonEmpty(s, c) == if s == [] then [] else [s]
  {
    SplitNone(s, c);
    NonEmptySingle(s);
  }

  /** A leading c gives no part. */
  lemma SplitNonEmptySep(c: char, b: string)
    ensures SplitNonEmpty([c] + b, c) == SplitNonEmpty(b, c)
  {
    assert [c] + b == [] + [c] + b;
    SplitNonEmptyFirst([], c, b);
  }

  /** A first part that is not empty is the first of the parts; the rest from the c after it gives the others. */
  lemma SplitNonEmptyLead(a: string, c: char, b: string)
    requires a != [] && c !in a
    ensures var parts := SplitNonEmpty(a + [c] + b, c);
      parts != [] && parts[0] == a && SplitNonEmpty([c] + b, c) == parts[1..]
  {
    SplitNonEmptyFirst(a, c, b);
    SplitNonEmptySep(c, b);
  }

  /**
   * The first part of a non-empty split: the text is some copies of c, that part,
   * and a rest that is empty or starts with c and gives the remaining parts.
   */
  lemma {:induction false} SplitNonEmptyHead(s: string, c: char) returns (m: nat, t: string)
    requires SplitNonEmpty(s, c) != []
    ensures var parts := SplitNonEmpty(s, c);
      && s == Fill(c, m) + parts[0] + t
      && (t == [] || t[0] == c)
      && SplitNonEmpty(t, c) == parts[1..]
    decreases |s|
  {
    if c !in s {
      SplitNonEmptyPlain(s, c);
      SplitNonEmptyPlain([], c);
      m, t := 0, [];
      assert s == Fill(c, 0) + s + [];
    } else {
      var a, b := FirstOccurrence(s, c);
      if a == [] {
        assert s == [c] + b;
        SplitNonEmptySep(c, b);
        var m', t' := SplitNonEmptyHead(b, c);
        m, t := m' + 1, t';
        assert Fill(c, m) == [c] + Fill(c, m');
      } else {
        SplitNonEmptyLead(a, c, b);
        m, t := 0, [c] + b;
        assert s == Fill(c, 0) + a + t;
      }
    }
  }
}
