/** Strings as sequences of characters: the few functions of Go's strings package that the operator uses. */
module Text {
  datatype Option<+T> = None | Some(value: T)
  datatype Result<+T, +E> = Ok(value: T) | Err(error: E)

  /** The characters with Unicode's White_Space property, which strings.TrimSpace removes. */
  predicate IsSpace(c: char) {
    '\t' <= c <= '\r' || c == ' ' || c == '\U{0085}' || c == '\U{00A0}' || c == '\U{1680}' ||
    '\U{2000}' <= c <= '\U{200A}' || c == '\U{2028}' || c == '\U{2029}' || c == '\U{202F}' ||
    c == '\U{205F}' || c == '\U{3000}'
  }

  /** The same characters one by one. */
  lemma Spaces()
    ensures forall c: char :: IsSpace(c) <==>
      c in {'\t', '\n', '\U{000B}', '\U{000C}', '\r', ' ', '\U{0085}', '\U{00A0}', '\U{1680}', '\U{2000}', '\U{2001}',
        '\U{2002}', '\U{2003}', '\U{2004}', '\U{2005}', '\U{2006}', '\U{2007}', '\U{2008}', '\U{2009}', '\U{200A}',
        '\U{2028}', '\U{2029}', '\U{202F}', '\U{205F}', '\U{3000}'}
  {
  }

  function TrimLeft(s: string, drop: char -> bool): string {
    if s != "" && drop(s[0]) then TrimLeft(s[1..], drop) else s
  }

  function TrimRight(s: string, drop: char -> bool): string {
    if s != "" && drop(s[|s| - 1]) then TrimRight(s[..|s| - 1], drop) else s
  }

  function Trim(s: string, drop: char -> bool): string {
    TrimRight(TrimLeft(s, drop), drop)
  }

  function TrimSpace(s: string): string {
    Trim(s, IsSpace)
  }

  predicate Trimmed(s: string, drop: char -> bool) {
    s != "" ==> !drop(s[0]) && !drop(s[|s| - 1])
  }

  /** The parts of a text with one more character in front. */
  function Push(parts: seq<string>, c: char, sep: char): seq<string>
    requires parts != []
  {
    if c == sep then [""] + parts else [[c] + parts[0]] + parts[1..]
  }

  /** strings.Split with a one-character separator; the empty string splits into one empty part. */
  function Split(s: string, sep: char): (parts: seq<string>)
    ensures |parts| >= 1
  {
    if s == "" then [""]
    else
      var rest := Split(s[1..], sep);
      Push(rest, s[0], sep)
  }

  function Join(parts: seq<string>, sep: string): string {
    if parts == [] then ""
    else if |parts| == 1 then parts[0]
    else parts[0] + sep + Join(parts[1..], sep)
  }

  lemma TrimOfTrimmed(s: string, drop: char -> bool)
    requires Trimmed(s, drop)
    ensures Trim(s, drop) == s
  {
  }

  lemma {:induction false} TrimRightEnds(s: string, drop: char -> bool)
    ensures TrimRight(s, drop) <= s
    ensures TrimRight(s, drop) != "" ==> !drop(TrimRight(s, drop)[|TrimRight(s, drop)| - 1])
  {
    if s != "" && drop(s[|s| - 1]) {
      TrimRightEnds(s[..|s| - 1], drop);
    }
  }

  lemma {:induction false} TrimLeftEnds(s: string, drop: char -> bool)
    ensures TrimLeft(s, drop) != "" ==> !drop(TrimLeft(s, drop)[0])
    ensures exists i :: 0 <= i <= |s| && TrimLeft(s, drop) == s[i..]
  {
    if s != "" && drop(s[0]) {
      TrimLeftEnds(s[1..], drop);
      var i :| 0 <= i <= |s| - 1 && TrimLeft(s[1..], drop) == s[1..][i..];
      assert s[1..][i..] == s[i + 1..];
    } else {
      assert s[0..] == s;
    }
  }

  /** What is trimmed has no dropped character at either end and is a piece of the original. */
  lemma TrimIsTrimmed(s: string, drop: char -> bool)
    ensures Trimmed(Trim(s, drop), drop)
    ensures exists i, n :: 0 <= i <= n <= |s| && Trim(s, drop) == s[i..n]
  {
    TrimLeftEnds(s, drop);
    var left := TrimLeft(s, drop);
    var i :| 0 <= i <= |s| && left == s[i..];
    TrimRightEnds(left, drop);
    var n := i + |Trim(s, drop)|;
    assert Trim(s, drop) == left[..|Trim(s, drop)|] == s[i..n];
  }

  lemma {:induction false} TrimLeftOfSnoc(s: string, c: char, drop: char -> bool)
    requires drop(c)
    ensures TrimLeft(s + [c], drop) == if TrimLeft(s, drop) == "" then "" else TrimLeft(s, drop) + [c]
  {
    if s == "" {
      assert s + [c] == [c];
      assert TrimLeft([c][1..], drop) == "";
    } else if drop(s[0]) {
      assert (s + [c])[1..] == s[1..] + [c];
      TrimLeftOfSnoc(s[1..], c, drop);
    }
  }

  /** A dropped character added at either end does not change the trimmed string. */
  lemma TrimOfPadded(s: string, c: char, drop: char -> bool)
    requires drop(c)
    ensures Trim([c] + s, drop) == Trim(s, drop) == Trim(s + [c], drop)
  {
    assert ([c] + s)[1..] == s;
    TrimLeftOfSnoc(s, c, drop);
    var left := TrimLeft(s, drop);
    assert (left + [c])[..|left|] == left;
  }

  /** parts with c appended to its last part. */
  function Grow(parts: seq<string>, c: char): seq<string>
    requires parts != []
  {
    parts[..|parts| - 1] + [parts[|parts| - 1] + [c]]
  }

  lemma {:induction false} SplitOfSnoc(s: string, c: char, sep: char)
    ensures Split(s + [c], sep) == if c == sep then Split(s, sep) + [""] else Grow(Split(s, sep), c)
  {
    if s == "" {
      assert s + [c] == [c];
      assert Split([c], sep) == Push([""], c, sep);
      assert [c] + "" == [c] == "" + [c];
    } else {
      assert (s + [c])[1..] == s[1..] + [c];
      SplitOfSnoc(s[1..], c, sep);
      var q := Split(s[1..], sep);
      assert Split(s + [c], sep) == Push(Split(s[1..] + [c], sep), s[0], sep);
      assert Split(s, sep) == Push(q, s[0], sep);
      PushAndGrow(q, s[0], c, sep);
    }
  }

  lemma PushAndGrow(q: seq<string>, a: char, c: char, sep: char)
    requires q != []
    ensures Push(Grow(q, c), a, sep) == Grow(Push(q, a, sep), c)
    ensures Push(q + [""], a, sep) == Push(q, a, sep) + [""]
  {
    if |q| == 1 {
      assert [a] + (q[0] + [c]) == ([a] + q[0]) + [c];
    }
  }

  lemma {:induction false} SplitHasNoSeparator(s: string, sep: char)
    ensures forall i :: 0 <= i < |Split(s, sep)| ==> sep !in Split(s, sep)[i]
  {
    if s != "" {
      SplitHasNoSeparator(s[1..], sep);
    }
  }

  lemma {:induction false} SplitOfPrepended(a: string, rest: string, sep: char)
    requires sep !in a
    ensures Split(a + [sep] + rest, sep) == [a] + Split(rest, sep)
  {
    if a == "" {
      assert a + [sep] + rest == [sep] + rest;
      assert ([sep] + rest)[1..] == rest;
    } else {
      assert (a + [sep] + rest)[1..] == a[1..] + [sep] + rest;
      SplitOfPrepended(a[1..], rest, sep);
      assert [a[0]] + a[1..] == a;
    }
  }

  lemma {:induction false} SplitAcross(a: string, b: string, sep: char)
    ensures Split(a + [sep] + b, sep) == Split(a, sep) + Split(b, sep)
  {
    if a == "" {
      assert (a + [sep] + b)[1..] == b;
    } else {
      assert (a + [sep] + b)[1..] == a[1..] + [sep] + b;
      SplitAcross(a[1..], b, sep);
    }
  }

  lemma {:induction false} SplitOfWhole(a: string, sep: char)
    requires sep !in a
    ensures Split(a, sep) == [a]
  {
    if a != "" {
      SplitOfWhole(a[1..], sep);
      assert [a[0]] + a[1..] == a;
    }
  }

  /** Splitting undoes joining when no part holds the separator. */
  lemma {:induction false} SplitOfJoin(parts: seq<string>, sep: char)
    requires parts != []
    requires forall i :: 0 <= i < |parts| ==> sep !in parts[i]
    ensures Split(Join(parts, [sep]), sep) == parts
  {
    if |parts| == 1 {
      SplitOfWhole(parts[0], sep);
    } else {
      SplitOfJoin(parts[1..], sep);
      SplitOfPrepended(parts[0], Join(parts[1..], [sep]), sep);
      assert [parts[0]] + parts[1..] == parts;
    }
  }
}
