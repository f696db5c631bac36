/** Dotted field paths: the parser that the mapping writer and the document writer each carry a copy of. */
module FieldPath {
  import opened Text

  /** A parsed path: its segments, outermost first. */
  type Path = seq<string>

  predicate IsSegment(s: string) {
    s != "" && Trimmed(s, IsSpace) && '.' !in s
  }

  predicate IsPath(p: Path) {
    forall i :: 0 <= i < |p| ==> IsSegment(p[i])
  }

  /** The parts that are not blank, each trimmed. */
  function NonBlank(parts: seq<string>): Path {
    if parts == [] then []
    else
      var s := TrimSpace(parts[0]);
      (if s == "" then [] else [s]) + NonBlank(parts[1..])
  }

  /** What parsing a path means: split at dots, trim each part, drop the blank ones. */
  function Segments(fieldPath: string): Path {
    NonBlank(Split(fieldPath, '.'))
  }

  function Print(p: Path): string {
    Join(p, ".")
  }

  lemma {:induction false} NonBlankOfSnoc(parts: seq<string>, last: string)
    ensures NonBlank(parts + [last]) == NonBlank(parts) + if TrimSpace(last) == "" then [] else [TrimSpace(last)]
  {
    if parts == [] {
      assert parts + [last] == [last];
    } else {
      assert (parts + [last])[1..] == parts[1..] + [last];
      NonBlankOfSnoc(parts[1..], last);
    }
  }

  lemma {:induction false} OuterTrimLeft(s: string)
    ensures Segments(TrimLeft(s, IsSpace)) == Segments(s)
  {
    if s != "" && IsSpace(s[0]) {
      OuterTrimLeft(s[1..]);
      var rest := Split(s[1..], '.');
      TrimOfPadded(rest[0], s[0], IsSpace);
      assert rest == [rest[0]] + rest[1..];
    }
  }

  lemma TrailingSpace(p: seq<string>, c: char)
    requires p != [] && IsSpace(c)
    ensures NonBlank(Grow(p, c)) == NonBlank(p)
  {
    var init, last := p[..|p| - 1], p[|p| - 1];
    TrimOfPadded(last, c, IsSpace);
    NonBlankOfSnoc(init, last);
    NonBlankOfSnoc(init, last + [c]);
    assert p == init + [last];
  }

  lemma {:induction false} OuterTrimRight(s: string)
    ensures Segments(TrimRight(s, IsSpace)) == Segments(s)
  {
    if s != "" && IsSpace(s[|s| - 1]) {
      var front, c := s[..|s| - 1], s[|s| - 1];
      OuterTrimRight(front);
      assert s == front + [c];
      SplitOfSnoc(front, c, '.');
      TrailingSpace(Split(front, '.'), c);
    }
  }

  /** The trim of the whole path before splitting never changes the result. */
  lemma OuterTrimIsRedundant(s: string)
    ensures Segments(TrimSpace(s)) == Segments(s)
  {
    OuterTrimLeft(s);
    OuterTrimRight(TrimLeft(s, IsSpace));
  }

  lemma {:induction false} NonBlankIsPath(parts: seq<string>)
    requires forall i :: 0 <= i < |parts| ==> '.' !in parts[i]
    ensures IsPath(NonBlank(parts))
  {
    if parts != [] {
      TrimIsTrimmed(parts[0], IsSpace);
      NonBlankIsPath(parts[1..]);
    }
  }

  /** Parsing any string gives non-empty, trimmed, dot-free segments. */
  lemma SegmentsArePath(s: string)
    ensures IsPath(Segments(s))
  {
    SplitHasNoSeparator(s, '.');
    NonBlankIsPath(Split(s, '.'));
  }

  lemma {:induction false} NonBlankOfPath(p: Path)
    requires IsPath(p)
    ensures NonBlank(p) == p
  {
    if p != [] {
      TrimOfTrimmed(p[0], IsSpace);
      NonBlankOfPath(p[1..]);
      assert [p[0]] + p[1..] == p;
    }
  }

  /** Parsing undoes printing. */
  lemma ParseOfPrint(p: Path)
    requires IsPath(p)
    ensures Segments(Print(p)) == p
  {
    if p != [] {
      SplitOfJoin(p, '.');
      NonBlankOfPath(p);
    }
  }

  /** Printing a parsed path gives one normal form per path: two strings name the same path exactly when they agree on
      it. */
  lemma PrintIsNormalForm(s: string, t: string)
    ensures Segments(Print(Segments(s))) == Segments(s)
    ensures Segments(s) == Segments(t) <==> Print(Segments(s)) == Print(Segments(t))
  {
    SegmentsArePath(s);
    SegmentsArePath(t);
    ParseOfPrint(Segments(s));
    ParseOfPrint(Segments(t));
  }

  /** A text without a dot is one segment, trimmed, or none if it is blank. */
  lemma SegmentsOfPart(part: string)
    requires '.' !in part
    ensures Segments(part) == if TrimSpace(part) == "" then [] else [TrimSpace(part)]
  {
    SplitOfWhole(part, '.');
    var one := [part];
    assert one[1..] == [] && NonBlank(one) == (if TrimSpace(one[0]) == "" then [] else [TrimSpace(one[0])]) + [];
  }

  /** A dot separates the segments of its two sides. With SegmentsOfPart this determines Segments. */
  lemma SegmentsAcross(a: string, b: string)
    ensures Segments(a + "." + b) == Segments(a) + Segments(b)
  {
    SplitAcross(a, b, '.');
    assert "." == ['.'];
    NonBlankOfTwo(Split(a, '.'), Split(b, '.'));
  }

  lemma {:induction false} NonBlankOfTwo(p: seq<string>, q: seq<string>)
    ensures NonBlank(p + q) == NonBlank(p) + NonBlank(q)
  {
    if p == [] {
      assert p + q == q;
    } else {
      assert (p + q)[1..] == p[1..] + q;
      NonBlankOfTwo(p[1..], q);
    }
  }

  /** splitFieldPath and opensearchSplitFieldPath: the same loop, written twice. */
  method SplitFieldPath(fieldPath: string) returns (segments: Path)
    ensures segments == Segments(fieldPath)
    ensures IsPath(segments)
  {
    var rawSegments := Split(TrimSpace(fieldPath), '.');
    segments := [];
    for i := 0 to |rawSegments|
      invariant segments == NonBlank(rawSegments[..i])
    {
      assert rawSegments[..i + 1] == rawSegments[..i] + [rawSegments[i]];
      NonBlankOfSnoc(rawSegments[..i], rawSegments[i]);
      var segment := TrimSpace(rawSegments[i]);
      if segment == "" {
        continue;
      }
      segments := segments + [segment];
    }
    assert rawSegments[..|rawSegments|] == rawSegments;
    OuterTrimIsRedundant(fieldPath);
    SegmentsArePath(fieldPath);
  }
}
