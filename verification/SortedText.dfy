/** sort.Strings: byte order on UTF-8 text is the order of the code points. */
module SortedText {
  /** Strictly before in lexicographic order. */
  predicate Before(a: string, b: string) {
    b != "" && (a == "" || a[0] < b[0] || (a[0] == b[0] && Before(a[1..], b[1..])))
  }

  predicate StrictlySorted(s: seq<string>) {
    forall i, j :: 0 <= i < j < |s| ==> Before(s[i], s[j])
  }

  /** The order of dictionaries: after a common beginning the one text ends, or has the smaller character. */
  lemma {:induction false} BeforeIsLexicographic(a: string, b: string)
    ensures Before(a, b) <==>
      exists n :: 0 <= n <= |a| && n < |b| && a[..n] == b[..n] && (n == |a| || a[n] < b[n])
  {
    if a != "" && b != "" && a[0] == b[0] {
      var a1, b1 := a[1..], b[1..];
      BeforeIsLexicographic(a1, b1);
      if n :| 0 <= n <= |a1| && n < |b1| && a1[..n] == b1[..n] && (n == |a1| || a1[n] < b1[n]) {
        assert a[..n + 1] == [a[0]] + a1[..n] && b[..n + 1] == [b[0]] + b1[..n];
      }
      if n :| 0 <= n <= |a| && n < |b| && a[..n] == b[..n] && (n == |a| || a[n] < b[n]) {
        assert a1[..n - 1] == a[..n][1..] == b[..n][1..] == b1[..n - 1];
      }
    } else if b != "" {
      assert a[..0] == b[..0];
      assert forall n | 0 < n <= |a| && n < |b| :: a[..n][0] == a[0] && b[..n][0] == b[0];
    }
  }

  lemma {:induction false} BeforeIsStrict(a: string, b: string)
    ensures !(Before(a, b) && Before(b, a)) && !Before(a, a)
    ensures a != b ==> Before(a, b) || Before(b, a)
  {
    if a != "" {
      BeforeIsStrict(a[1..], a[1..]);
      if b != "" && a[0] == b[0] {
        BeforeIsStrict(a[1..], b[1..]);
        assert a == [a[0]] + a[1..] && b == [b[0]] + b[1..];
      }
    }
  }

  lemma {:induction false} BeforeIsTransitive(a: string, b: string, c: string)
    requires Before(a, b) && Before(b, c)
    ensures Before(a, c)
  {
    if a != "" && a[0] == b[0] && b[0] == c[0] {
      BeforeIsTransitive(a[1..], b[1..], c[1..]);
    }
  }

  /** The place of x in a sorted list. */
  function Insert(s: seq<string>, x: string): seq<string> {
    if s == [] || Before(x, s[0]) then [x] + s else [s[0]] + Insert(s[1..], x)
  }

  lemma {:induction false} InsertKeepsOrder(s: seq<string>, x: string)
    requires StrictlySorted(s) && x !in s
    ensures StrictlySorted(Insert(s, x)) && forall y :: y in Insert(s, x) <==> y == x || y in s
  {
    if s != [] {
      if Before(x, s[0]) {
        forall j | 0 <= j < |s| ensures Before(x, s[j]) {
          if j > 0 {
            BeforeIsTransitive(x, s[0], s[j]);
          }
        }
      } else {
        BeforeIsStrict(x, s[0]);
        InsertKeepsOrder(s[1..], x);
        var rest := Insert(s[1..], x);
        forall j | 0 <= j < |rest| ensures Before(s[0], rest[j]) {
          assert rest[j] in rest;
        }
        assert s == [s[0]] + s[1..];
      }
    }
  }

  /** There is only one strictly sorted list of a set. */
  lemma {:induction false} SortedListIsUnique(a: seq<string>, b: seq<string>)
    requires StrictlySorted(a) && StrictlySorted(b) && forall y :: y in a <==> y in b
    ensures a == b
  {
    assert a != [] ==> a[0] in a;
    assert b != [] ==> b[0] in b;
    if a != [] && b != [] {
      FirstIsLeast(a, b);
      FirstIsLeast(b, a);
      BeforeIsStrict(a[0], b[0]);
      assert a == [a[0]] + a[1..] && b == [b[0]] + b[1..];
      TailOfSorted(a);
      TailOfSorted(b);
      SortedListIsUnique(a[1..], b[1..]);
    }
  }

  lemma TailOfSorted(a: seq<string>)
    requires StrictlySorted(a) && a != []
    ensures forall y :: y in a[1..] <==> y in a && y != a[0]
  {
    BeforeIsStrict(a[0], a[0]);
    assert a == [a[0]] + a[1..];
    assert forall j :: 0 < j < |a| ==> Before(a[0], a[j]);
  }

  lemma FirstIsLeast(a: seq<string>, b: seq<string>)
    requires StrictlySorted(a) && a != [] && b != [] && b[0] in a
    ensures a[0] == b[0] || Before(a[0], b[0])
  {
  }

  /** sort.Strings on a list without duplicates. */
  method SortStrings(fields: seq<string>) returns (sorted: seq<string>)
    requires forall i, j :: 0 <= i < j < |fields| ==> fields[i] != fields[j]
    ensures StrictlySorted(sorted) && forall y :: y in sorted <==> y in fields
  {
    sorted := [];
    for i := 0 to |fields|
      invariant StrictlySorted(sorted) && forall y :: y in sorted <==> y in fields[..i]
    {
      InsertKeepsOrder(sorted, fields[i]);
      sorted := Insert(sorted, fields[i]);
      assert fields[..i + 1] == fields[..i] + [fields[i]];
    }
    assert fields[..|fields|] == fields;
  }
}
