/** Index names: the sanitizer, the canonical name of an organization's resource, and the aliases derived from a
    name. */
module IndexName {
  import opened Text

  predicate IsAlnum(c: char) {
    'a' <= c <= 'z' || '0' <= c <= '9'
  }

  predicate IsDash(c: char) {
    c == '-'
  }

  /** Lower-casing, as far as the sanitizer can see it: besides A to Z, exactly two characters have a lower case in a
      to z; any other character that changes changes to one that the sanitizer also turns into a dash. */
  function LowerChar(c: char): (r: char)
    ensures IsAlnum(c) || c == '-' ==> r == c
    ensures IsAlnum(r) <==> IsAlnum(c) || 'A' <= c <= 'Z' || c == '\U{0130}' || c == '\U{212A}'
    ensures 'A' <= c <= 'Z' ==> r as int - 'a' as int == c as int - 'A' as int
    ensures (c == '\U{0130}' ==> r == 'i') && (c == '\U{212A}' ==> r == 'k')
  {
    if 'A' <= c <= 'Z' then (c as int + 32) as char
    else if c == '\U{0130}' then 'i'
    else if c == '\U{212A}' then 'k'
    else c
  }

  function Lower(s: string): (r: string)
    ensures |r| == |s| && forall i :: 0 <= i < |s| ==> r[i] == LowerChar(s[i])
  {
    seq(|s|, i requires 0 <= i < |s| => LowerChar(s[i]))
  }

  predicate EndsInRun(w: string) {
    w != "" && IsAlnum(w[|w| - 1])
  }

  /** The maximal runs of letters a to z and digits. */
  function Tokens(w: string): (runs: seq<string>)
    ensures EndsInRun(w) ==> runs != []
  {
    if w == "" then []
    else
      var front, c := w[..|w| - 1], w[|w| - 1];
      if !IsAlnum(c) then Tokens(front)
      else if EndsInRun(front) then Grow(Tokens(front), c)
      else Tokens(front) + [[c]]
  }

  predicate IsRun(w: string) {
    w != "" && forall i :: 0 <= i < |w| ==> IsAlnum(w[i])
  }

  /** The value of sanitizeIndexNamePart: the runs of the lower-cased text, joined by single dashes. */
  function Sanitize(value: string): string {
    Join(Tokens(Lower(value)), "-")
  }

  lemma {:induction false} TokensAreRuns(w: string)
    ensures forall i :: 0 <= i < |Tokens(w)| ==> IsRun(Tokens(w)[i])
  {
    if w != "" {
      TokensAreRuns(w[..|w| - 1]);
    }
  }

  lemma {:induction false} TokensOfRun(w: string)
    requires IsRun(w)
    ensures Tokens(w) == [w]
  {
    var front := w[..|w| - 1];
    assert w == front + [w[|w| - 1]];
    if front != "" {
      TokensOfRun(front);
    }
  }

  /** Runs do not reach across a separator. With TokensOfRun and TokensAreRuns this determines Tokens. */
  lemma {:induction false} TokensAcross(a: string, c: char, b: string)
    requires !IsAlnum(c)
    ensures Tokens(a + [c] + b) == Tokens(a) + Tokens(b)
    decreases |b|
  {
    var w := a + [c] + b;
    if b == "" {
      assert w[..|w| - 1] == a;
    } else {
      var front := b[..|b| - 1];
      assert w[..|w| - 1] == a + [c] + front;
      TokensAcross(a, c, front);
      assert EndsInRun(a + [c] + front) == EndsInRun(front);
      assert w[|w| - 1] == b[|b| - 1];
    }
  }

  /** Letters are lower-cased, one by one. */
  lemma SanitizeLowersCase(value: string, w: string)
    requires IsRun(w) && |value| == |w|
    requires forall i | 0 <= i < |w| ::
      value[i] == w[i] || ('a' <= w[i] <= 'z' && value[i] as int == w[i] as int - 32)
    ensures Sanitize(value) == w
  {
    assert Lower(value) == w;
    TokensOfRun(w);
  }

  lemma {:induction false} JoinOfSnoc(parts: seq<string>, last: string, sep: string)
    ensures Join(parts + [last], sep) == if parts == [] then last else Join(parts, sep) + sep + last
  {
    if parts == [] {
      assert parts + [last] == [last];
    } else {
      assert (parts + [last])[1..] == parts[1..] + [last];
      JoinOfSnoc(parts[1..], last, sep);
      if |parts| > 1 {
        assert parts[0] + sep + (Join(parts[1..], sep) + sep + last) ==
          (parts[0] + sep + Join(parts[1..], sep)) + sep + last;
      }
    }
  }

  lemma JoinOfGrow(parts: seq<string>, c: char, sep: string)
    requires parts != []
    ensures Join(Grow(parts, c), sep) == Join(parts, sep) + [c]
  {
    var front, last := parts[..|parts| - 1], parts[|parts| - 1];
    assert parts == front + [last];
    JoinOfSnoc(front, last, sep);
    JoinOfSnoc(front, last + [c], sep);
  }

  /** Two texts around a dash; an empty text takes the dash with it. */
  function Glue(a: string, b: string): string {
    if a == "" then b else if b == "" then a else a + "-" + b
  }

  lemma {:induction false} JoinOfTwo(a: seq<string>, b: seq<string>)
    requires forall i :: 0 <= i < |a| ==> a[i] != ""
    requires forall i :: 0 <= i < |b| ==> b[i] != ""
    ensures (Join(b, "-") == "" <==> b == []) && Join(a + b, "-") == Glue(Join(a, "-"), Join(b, "-"))
  {
    if a == [] {
      assert a + b == b;
    } else {
      assert (a + b)[1..] == a[1..] + b;
      JoinOfTwo(a[1..], b);
      if |a| > 1 {
        assert a[0] + "-" + (Join(a[1..], "-") + "-" + Join(b, "-")) ==
          (a[0] + "-" + Join(a[1..], "-")) + "-" + Join(b, "-");
      }
      assert b == [] ==> a + b == a;
    }
  }

  /** The sanitizer goes through any separator. */
  lemma SanitizeAcross(a: string, c: char, b: string)
    requires !IsAlnum(LowerChar(c))
    ensures Sanitize(a + [c] + b) == Glue(Sanitize(a), Sanitize(b))
  {
    assert Lower(a + [c] + b) == Lower(a) + [LowerChar(c)] + Lower(b);
    TokensAcross(Lower(a), LowerChar(c), Lower(b));
    TokensAreRuns(Lower(a));
    TokensAreRuns(Lower(b));
    JoinOfTwo(Tokens(Lower(a)), Tokens(Lower(b)));
  }

  /** What the loop has written after w. */
  function Streamed(w: string): string {
    if w == "" then ""
    else
      var front, c := w[..|w| - 1], w[|w| - 1];
      if IsAlnum(c) then Streamed(front) + [c]
      else if LastWasDash(front) then Streamed(front)
      else Streamed(front) + "-"
  }

  predicate LastWasDash(w: string) {
    w != "" && !IsAlnum(w[|w| - 1])
  }

  function Lead(w: string): string {
    if w != "" && !IsAlnum(w[0]) then "-" else ""
  }

  function Trail(w: string): string {
    if Tokens(w) != [] && LastWasDash(w) then "-" else ""
  }

  lemma Associates(a: string, b: string, c: string)
    ensures (a + b) + c == a + (b + c)
  {
  }

  lemma NothingAdded(a: string)
    ensures a + "" == a
  {
  }

  lemma {:induction false} StreamedIsJoin(w: string)
    ensures Streamed(w) == Lead(w) + Join(Tokens(w), "-") + Trail(w)
  {
    if w != "" {
      hide Join;
      var front, c := w[..|w| - 1], w[|w| - 1];
      var lead, body := Lead(front), Join(Tokens(front), "-");
      StreamedIsJoin(front);
      NothingAdded(lead + body);
      if EndsInRun(front) {
        JoinOfGrow(Tokens(front), c, "-");
        Associates(lead, body, [c]);
        NothingAdded(lead + (body + [c]));
      } else {
        JoinOfSnoc(Tokens(front), [c], "-");
        Associates(lead, body + "-", [c]);
        Associates(lead, body, "-");
        NothingAdded(lead + (body + "-" + [c]));
        NothingAdded(lead + [c]);
      }
      JoinOfNothing();
    }
  }

  lemma JoinOfNothing()
    ensures Join([], "-") == ""
  {
  }

  lemma {:induction false} JoinOfRunsIsTrimmed(runs: seq<string>)
    requires forall i :: 0 <= i < |runs| ==> IsRun(runs[i])
    ensures Trimmed(Join(runs, "-"), IsDash) && (runs != [] ==> Join(runs, "-") != "")
  {
    if |runs| > 1 {
      JoinOfRunsIsTrimmed(runs[1..]);
    }
  }

  lemma DashedEnds(lead: string, body: string, trail: string)
    requires Trimmed(body, IsDash) && (lead == "" || lead == "-") && (trail == "" || trail == "-")
    ensures Trim(lead + body + trail, IsDash) == body
  {
    TrimOfTrimmed(body, IsDash);
    TrimOfPadded(body, '-', IsDash);
    TrimOfPadded(body + "-", '-', IsDash);
    if lead == "" {
      assert lead + body + trail == body + trail && body + "" == body;
    } else {
      assert lead + body + trail == ['-'] + (body + trail) && body + "" == body;
    }
  }

  /** Trimming what the loop has written leaves the joined runs. */
  lemma TrimOfStreamed(w: string)
    ensures Trim(Streamed(w), IsDash) == Join(Tokens(w), "-")
  {
    hide Trim;
    StreamedIsJoin(w);
    TokensAreRuns(w);
    JoinOfRunsIsTrimmed(Tokens(w));
    DashedEnds(Lead(w), Join(Tokens(w), "-"), Trail(w));
  }

  /** sanitizeIndexNamePart. */
  method SanitizeIndexNamePart(value: string) returns (part: string)
    ensures part == Sanitize(value)
    ensures forall c | c in part :: 'a' <= c <= 'z' || '0' <= c <= '9' || c == '-'
    ensures part != "" ==> part[0] != '-' && part[|part| - 1] != '-'
    ensures value != "" && (forall c | c in value :: 'a' <= c <= 'z' || '0' <= c <= '9') ==> part == value
  {
    SanitizedCharacters(value);
    var lower := Lower(value);
    var b := "";
    var lastWasDash := false;
    for i := 0 to |lower|
      invariant b == Streamed(lower[..i])
      invariant lastWasDash == LastWasDash(lower[..i])
    {
      var r := lower[i];
      assert lower[..i + 1] == lower[..i] + [r];
      if 'a' <= r <= 'z' {
        b := b + [r];
        lastWasDash := false;
      } else if '0' <= r <= '9' {
        b := b + [r];
        lastWasDash := false;
      } else if !lastWasDash {
        b := b + "-";
        lastWasDash := true;
      }
    }
    assert lower[..|lower|] == lower;
    TrimOfStreamed(lower);
    return Trim(b, IsDash);
  }

  lemma SanitizedCharacters(value: string)
    ensures forall c | c in Sanitize(value) :: 'a' <= c <= 'z' || '0' <= c <= '9' || c == '-'
    ensures var part := Sanitize(value); part != "" ==> part[0] != '-' && part[|part| - 1] != '-'
    ensures value != "" && (forall c | c in value :: 'a' <= c <= 'z' || '0' <= c <= '9') ==> Sanitize(value) == value
  {
    SanitizeIsNormal(value);
    if value != "" && forall c | c in value :: 'a' <= c <= 'z' || '0' <= c <= '9' {
      assert forall i | 0 <= i < |value| :: value[i] in value;
      SanitizeLowersCase(value, value);
    }
  }

  /** Letters a to z, digits and single dashes. */
  predicate SingleDashed(s: string) {
    (forall i :: 0 <= i < |s| ==> IsAlnum(s[i]) || s[i] == '-') &&
    (forall i :: 0 < i < |s| ==> s[i - 1] != '-' || s[i] != '-')
  }

  /** The normal form: single dashes, none of them at an end. */
  predicate IsNormal(s: string) {
    SingleDashed(s) && Trimmed(s, IsDash)
  }

  lemma {:induction false} StreamedIsSingleDashed(w: string)
    ensures SingleDashed(Streamed(w))
    ensures Streamed(w) != "" && Streamed(w)[|Streamed(w)| - 1] == '-' ==> LastWasDash(w)
  {
    if w != "" {
      StreamedIsSingleDashed(w[..|w| - 1]);
    }
  }

  lemma SanitizeIsNormal(value: string)
    ensures IsNormal(Sanitize(value))
  {
    var b := Streamed(Lower(value));
    TrimOfStreamed(Lower(value));
    StreamedIsSingleDashed(Lower(value));
    PieceIsNormal(b);
  }

  lemma PieceIsNormal(b: string)
    requires SingleDashed(b)
    ensures IsNormal(Trim(b, IsDash))
  {
    TrimIsTrimmed(b, IsDash);
    var i, n :| 0 <= i <= n <= |b| && Trim(b, IsDash) == b[i..n];
    assert forall k :: 0 <= k < n - i ==> b[i..n][k] == b[i + k];
  }

  lemma {:induction false} StreamedKeeps(s: string)
    requires SingleDashed(s)
    ensures Streamed(s) == s
  {
    if s != "" {
      var front := s[..|s| - 1];
      StreamedKeeps(front);
      assert s == front + [s[|s| - 1]];
      if front != "" && s[|s| - 1] == '-' {
        assert s[|s| - 2] != '-';
      }
    }
  }

  /** The fixed points of the sanitizer are exactly the normal forms. */
  lemma FixedPoints(s: string)
    ensures Sanitize(s) == s <==> IsNormal(s)
  {
    SanitizeIsNormal(s);
    if IsNormal(s) {
      assert Lower(s) == s;
      StreamedKeeps(s);
      TrimOfStreamed(s);
      TrimOfTrimmed(s, IsDash);
    }
  }

  lemma SanitizeIsIdempotent(value: string)
    ensures Sanitize(Sanitize(value)) == Sanitize(value)
  {
    SanitizeIsNormal(value);
    FixedPoints(Sanitize(value));
  }

  /** normalizePrefix. */
  function NormalizePrefix(value: string): string {
    if Sanitize(value) != "" then Sanitize(value) else "pm"
  }

  lemma NormalizedPrefix(value: string)
    ensures NormalizePrefix(value) != "" && IsNormal(NormalizePrefix(value))
    ensures NormalizePrefix(NormalizePrefix(value)) == NormalizePrefix(value)
    ensures Sanitize(value) != "" ==> NormalizePrefix(value) == Sanitize(value)
    ensures Sanitize(value) == "" ==> NormalizePrefix(value) == "pm"
    ensures IsNormal(value) && value != "" ==> NormalizePrefix(value) == value
  {
    SanitizeIsNormal(value);
    FixedPoints(NormalizePrefix(value));
    FixedPoints(value);
  }

  const MAX_NAME := 255

  function Cut(s: string): string {
    if |s| > MAX_NAME then s[..MAX_NAME] else s
  }

  function NameParts(prefix: string, org: string, resource: string): seq<string> {
    Parts(prefix, Sanitize(org), Sanitize(resource))
  }

  /** The value of buildCanonicalIndexName. */
  function CanonicalName(prefix: string, org: string, resource: string): string {
    Trim(Cut(Join(NameParts(prefix, org, resource), "-")), IsDash)
  }

  /** Everything that the name is made of, sanitized as one text. */
  function Whole(prefix: string, org: string, resource: string): string {
    Sanitize(prefix + "-" + org + "-" + resource)
  }

  function Parts(prefix: string, o: string, r: string): seq<string> {
    [prefix] + (if o != "" then [o] else []) + (if r != "" then [r] else [])
  }

  lemma JoinOfParts(prefix: string, o: string, r: string)
    ensures Join(Parts(prefix, o, r), "-") ==
      if o == "" && r == "" then prefix
      else if o == "" then prefix + "-" + r
      else if r == "" then prefix + "-" + o
      else prefix + "-" + o + "-" + r
  {
    JoinOfSnoc([prefix], o, "-");
    JoinOfSnoc([prefix], r, "-");
    JoinOfSnoc([prefix] + [o], r, "-");
    assert [prefix] + [] == [prefix] && [prefix] + [o] + [] == [prefix] + [o];
  }

  lemma GlueOfParts(prefix: string, o: string, r: string)
    ensures var w := Glue(Glue(prefix, o), r);
      Join(Parts(prefix, o, r), "-") == if prefix == "" && w != "" then "-" + w else w
  {
    JoinOfParts(prefix, o, r);
    hide Join;
    assert "" + "-" == "-";
    if prefix == "" && o != "" && r != "" {
      assert "-" + o + "-" + r == "-" + (o + "-" + r);
    }
  }

  /** The joined parts are the sanitized whole, after a dash that an empty prefix leaves. */
  lemma PartsAreWhole(prefix: string, org: string, resource: string)
    requires IsNormal(prefix)
    ensures var w := Whole(prefix, org, resource);
      Join(NameParts(prefix, org, resource), "-") == if prefix == "" && w != "" then "-" + w else w
  {
    hide Sanitize, Join, IsNormal, Glue;
    FixedPoints(prefix);
    SanitizeAcross(prefix, '-', org);
    SanitizeAcross(prefix + "-" + org, '-', resource);
    GlueOfParts(prefix, Sanitize(org), Sanitize(resource));
  }

  lemma WholeIsNormal(prefix: string, org: string, resource: string)
    ensures IsNormal(Whole(prefix, org, resource))
  {
    SanitizeIsNormal(prefix + "-" + org + "-" + resource);
  }

  /** With a sanitized prefix every canonical name is in normal form and at most 255 characters long, so sanitizing it
      again changes nothing. */
  lemma CanonicalIsNormal(prefix: string, org: string, resource: string)
    requires IsNormal(prefix)
    ensures var name := CanonicalName(prefix, org, resource);
      IsNormal(name) && |name| <= MAX_NAME && Sanitize(name) == name
  {
    PartsAreWhole(prefix, org, resource);
    WholeIsNormal(prefix, org, resource);
    var joined := Join(NameParts(prefix, org, resource), "-");
    PieceIsNormal(Cut(joined));
    TrimIsTrimmed(Cut(joined), IsDash);
    FixedPoints(CanonicalName(prefix, org, resource));
  }

  /** With a sanitized prefix the canonical name is the trimmed first 255 characters of the sanitized whole, except when
      the prefix is empty: its dash then takes the place of the last character, which must not matter. */
  lemma CanonicalMeaning(prefix: string, org: string, resource: string)
    requires IsNormal(prefix)
    ensures var w := Whole(prefix, org, resource);
      CanonicalName(prefix, org, resource) == Trim(Cut(w), IsDash) <==>
        (prefix != "" || |w| < MAX_NAME || w[MAX_NAME - 1] == '-')
  {
    PartsAreWhole(prefix, org, resource);
    var w := Whole(prefix, org, resource);
    WholeIsNormal(prefix, org, resource);
    if prefix == "" && w != "" {
      DashInFront(w);
    }
  }

  lemma DashInFront(w: string)
    requires IsNormal(w) && w != ""
    ensures Trim(Cut("-" + w), IsDash) == Trim(Cut(w), IsDash) <==> (|w| < MAX_NAME || w[MAX_NAME - 1] == '-')
  {
    if |w| < MAX_NAME {
      TrimOfPadded(w, '-', IsDash);
    } else {
      var short, full := w[..MAX_NAME - 1], w[..MAX_NAME];
      assert ("-" + w)[..MAX_NAME] == "-" + short;
      assert full == short + [w[MAX_NAME - 1]];
      TrimOfPadded(short, '-', IsDash);
      if w[MAX_NAME - 1] != '-' {
        TrimOfTrimmed(full, IsDash);
        TrimIsTrimmed(short, IsDash);
      }
    }
  }

  lemma CanonicalOfNormalizedPrefix(value: string, org: string, resource: string)
    ensures CanonicalName(NormalizePrefix(value), org, resource) ==
      Trim(Cut(Whole(NormalizePrefix(value), org, resource)), IsDash)
  {
    NormalizedPrefix(value);
    CanonicalMeaning(NormalizePrefix(value), org, resource);
  }

  /** The sanitized organization and resource, joined. */
  function Owned(org: string, resource: string): string {
    Glue(Sanitize(org), Sanitize(resource))
  }

  /** What is joined, for any prefix. */
  lemma PartsAfterPrefix(prefix: string, org: string, resource: string)
    ensures var s := Owned(org, resource);
      IsNormal(s) && Join(NameParts(prefix, org, resource), "-") == if s == "" then prefix else prefix + "-" + s
  {
    hide Sanitize, Join, IsNormal;
    SanitizeAcross(org, '-', resource);
    SanitizeIsNormal(org + "-" + resource);
    JoinOfParts(prefix, Sanitize(org), Sanitize(resource));
    assert prefix + "-" + Sanitize(org) + "-" + Sanitize(resource) ==
      prefix + "-" + (Sanitize(org) + "-" + Sanitize(resource));
  }

  lemma {:induction false} TrimLeftOfTwo(a: string, b: string, drop: char -> bool)
    ensures TrimLeft(a + b, drop) == if TrimLeft(a, drop) == "" then TrimLeft(b, drop) else TrimLeft(a, drop) + b
  {
    if a == "" {
      assert a + b == b;
    } else {
      assert (a + b)[1..] == a[1..] + b;
      TrimLeftOfTwo(a[1..], b, drop);
    }
  }

  lemma {:induction false} TrimRightOfTwo(a: string, b: string, drop: char -> bool)
    requires TrimRight(b, drop) != ""
    ensures TrimRight(a + b, drop) == a + TrimRight(b, drop)
    decreases |b|
  {
    if drop(b[|b| - 1]) {
      assert (a + b)[..|a + b| - 1] == a + b[..|b| - 1];
      TrimRightOfTwo(a, b[..|b| - 1], drop);
    }
  }

  /** Trimming the end of a text that begins with a letter or a digit. */
  lemma TrimmedEnd(t: string)
    requires SingleDashed(t) && t != "" && t[0] != '-'
    ensures TrimRight(t, IsDash) != "" && IsNormal(TrimRight(t, IsDash))
  {
    TrimRightEnds(t, IsDash);
    StartStays(t);
    hide TrimRight;
    assert forall i :: 0 <= i < |TrimRight(t, IsDash)| ==> TrimRight(t, IsDash)[i] == t[i];
  }

  /** Trimming a prefix, a dash and such a text. */
  lemma TrimAfterPrefix(prefix: string, t: string)
    requires t != "" && t[0] != '-' && TrimRight(t, IsDash) != ""
    ensures Trim(prefix + "-" + t, IsDash) == Glue(TrimLeft(prefix, IsDash), TrimRight(t, IsDash))
  {
    hide TrimLeft, TrimRight;
    var q, tail := TrimLeft(prefix, IsDash), "-" + t;
    DashIsTrimmed(t);
    Associates(prefix, "-", t);
    TrimLeftOfTwo(prefix, tail, IsDash);
    Associates(q, "-", t);
    TrimRightOfTwo(q + "-", t, IsDash);
  }

  lemma DashIsTrimmed(t: string)
    requires t != "" && t[0] != '-'
    ensures TrimLeft("-" + t, IsDash) == t
  {
    assert ("-" + t)[1..] == t;
  }

  lemma {:induction false} StartStays(t: string)
    requires t != "" && t[0] != '-'
    ensures TrimRight(t, IsDash) != ""
  {
    if t[|t| - 1] == '-' {
      StartStays(t[..|t| - 1]);
    }
  }

  lemma NormalAfterPrefix(q: string, t: string)
    requires Trimmed(t, IsDash) && SingleDashed(t) && t != "" && (q != "" ==> q[0] != '-')
    ensures IsNormal(Glue(q, t)) <==> IsNormal(q)
  {
    if q != "" {
      var w := q + "-" + t;
      assert forall i :: 0 <= i < |q| ==> w[i] == q[i];
      assert w[|q|] == '-' && forall i :: 0 <= i < |t| ==> w[|q| + 1 + i] == t[i];
      assert w[|q| - 1] == q[|q| - 1];
    }
  }

  /** The part of a prefix that decides whether a name is in normal form: all of it but leading dashes, if anything of
      the organization or the resource follows it, else what is left of it after the cut. */
  function DecidingPart(prefix: string, org: string, resource: string): string {
    if Owned(org, resource) != "" &&
      |prefix| + 1 < MAX_NAME then TrimLeft(prefix, IsDash) else Trim(Cut(prefix), IsDash)
  }

  /** For every prefix: a canonical name is in normal form if and only if that part of the prefix is. */
  lemma CanonicalNormalForm(prefix: string, org: string, resource: string)
    ensures IsNormal(CanonicalName(prefix, org, resource)) <==> IsNormal(DecidingPart(prefix, org, resource))
  {
    hide Sanitize, Join, NameParts, IsNormal;
    PartsAfterPrefix(prefix, org, resource);
    var s := Owned(org, resource);
    if s != "" {
      NormalFacts(s);
      if |prefix| + 1 < MAX_NAME {
        var t := if |prefix| + 1 + |s| > MAX_NAME then s[..MAX_NAME - |prefix| - 1] else s;
        assert Cut(prefix + "-" + s) == prefix + "-" + t;
        TrimmedEnd(t);
        TrimAfterPrefix(prefix, t);
        TrimLeftEnds(prefix, IsDash);
        NormalFacts(TrimRight(t, IsDash));
        NormalAfterPrefix(TrimLeft(prefix, IsDash), TrimRight(t, IsDash));
      } else if |prefix| + 1 == MAX_NAME {
        assert Cut(prefix + "-" + s) == prefix + "-";
        TrimOfPadded(prefix, '-', IsDash);
      } else {
        assert Cut(prefix + "-" + s) == Cut(prefix);
      }
    }
  }

  lemma NormalFacts(s: string)
    requires IsNormal(s)
    ensures SingleDashed(s) && Trimmed(s, IsDash) && (s != "" ==> s[0] != '-')
    ensures forall k | 0 < k <= |s| :: SingleDashed(s[..k]) && s[..k][0] != '-'
  {
  }

  /** buildCanonicalIndexName. No name is longer than 255 characters or has a dash at an end; it is in normal form
      exactly if the deciding part of the prefix is; it is made of the prefix and the sanitized rest; and with a
      sanitized, non-empty prefix it is the trimmed beginning of the sanitized whole. */
  method BuildCanonicalIndexName(prefix: string, organizationClusterID: string, resource: string)
    returns (indexName: string)
    ensures indexName == CanonicalName(prefix, organizationClusterID, resource)
    ensures |indexName| <= 255 && Trimmed(indexName, IsDash)
    ensures IsNormal(indexName) <==> IsNormal(DecidingPart(prefix, organizationClusterID, resource))
    ensures Sanitize(organizationClusterID) != "" && Sanitize(resource) != "" ==>
      var whole := prefix + "-" + Sanitize(organizationClusterID) + "-" + Sanitize(resource);
      indexName == Trim(if |whole| > 255 then whole[..255] else whole, IsDash)
    ensures IsNormal(prefix) && prefix != "" ==>
      var whole := Sanitize(prefix + "-" + organizationClusterID + "-" + resource);
      indexName == Trim(if |whole| > 255 then whole[..255] else whole, IsDash) && Sanitize(indexName) == indexName
  {
    hide Sanitize, IsNormal, Trim;
    var parts := [prefix];
    var p := SanitizeIndexNamePart(organizationClusterID);
    if p != "" {
      parts := parts + [p];
    }
    p := SanitizeIndexNamePart(resource);
    if p != "" {
      parts := parts + [p];
    }
    assert parts == NameParts(prefix, organizationClusterID, resource);
    indexName := Join(parts, "-");
    if |indexName| > MAX_NAME {
      indexName := indexName[..MAX_NAME];
    }
    TrimIsTrimmed(indexName, IsDash);
    indexName := Trim(indexName, IsDash);
    CanonicalNormalForm(prefix, organizationClusterID, resource);
    JoinOfParts(prefix, Sanitize(organizationClusterID), Sanitize(resource));
    if IsNormal(prefix) {
      CanonicalMeaning(prefix, organizationClusterID, resource);
      CanonicalIsNormal(prefix, organizationClusterID, resource);
    }
  }

  /** So a prefix with a doubled dash spoils the name of every organization and resource. */
  lemma RawPrefixIsKept(org: string, resource: string)
    ensures !IsNormal(CanonicalName("a--b", org, resource))
  {
    CanonicalNormalForm("a--b", org, resource);
    TrimOfTrimmed("a--b", IsDash);
    assert TrimLeft("a--b", IsDash) == "a--b" && Trim(Cut("a--b"), IsDash) == "a--b";
    assert "a--b"[1] == '-' && "a--b"[2] == '-';
  }

  lemma {:induction false} FirstDash(a: string, b: string, a': string, b': string)
    requires '-' !in a && '-' !in a'
    ensures a + "-" + b == a' + "-" + b' <==> a == a' && b == b'
  {
    if a + "-" + b == a' + "-" + b' {
      OwnerIsPrefix(a, b, a', b');
    }
  }

  /** One owner's id, followed by a dash, begins the other's. */
  predicate MayCollide(owner: string, other: string) {
    owner + "-" <= other || other + "-" <= owner
  }

  lemma OwnerIsPrefix(a: string, b: string, a': string, b': string)
    requires a + "-" + b == a' + "-" + b'
    ensures !MayCollide(a, a') ==> a == a' && b == b'
    ensures MayCollide(a, a') ==> '-' in a || '-' in a'
  {
    var w := a + "-" + b;
    if |a| == |a'| {
      assert a == w[..|a|] == (a' + "-" + b')[..|a|] == a';
      assert b == w[|a| + 1..] == (a' + "-" + b')[|a| + 1..] == b';
    } else if |a| < |a'| {
      assert a + "-" == w[..|a| + 1] == (a' + "-" + b')[..|a| + 1] == a'[..|a| + 1];
    } else {
      assert a' + "-" == (a' + "-" + b')[..|a'| + 1] == w[..|a'| + 1] == a[..|a'| + 1];
    }
    if MayCollide(a, a') {
      assert a + "-" <= a' ==> a'[|a|] == '-';
      assert a' + "-" <= a ==> a[|a'|] == '-';
    }
  }

  /** A sanitized resource whose name with that prefix and organization is not cut. */
  predicate Fits(prefix: string, org: string, resource: string) {
    Sanitize(org) != "" && Sanitize(resource) != "" && |prefix| + |Sanitize(org)| + |Sanitize(resource)| + 2 <= MAX_NAME
  }

  lemma FittingName(prefix: string, org: string, resource: string)
    requires Fits(prefix, org, resource)
    ensures CanonicalName(prefix, org, resource) ==
      Glue(TrimLeft(prefix, IsDash), Sanitize(org) + "-" + Sanitize(resource))
    ensures Sanitize(org) + "-" + Sanitize(resource) != ""
  {
    hide Sanitize, Join, NameParts, IsNormal;
    PartsAfterPrefix(prefix, org, resource);
    var s := Owned(org, resource);
    NormalFacts(s);
    TrimRightOfTrimmed(s);
    TrimAfterPrefix(prefix, s);
  }

  lemma TrimRightOfTrimmed(s: string)
    requires Trimmed(s, IsDash)
    ensures TrimRight(s, IsDash) == s
  {
  }

  /** Under one prefix fitting names are equal exactly when what follows the prefix is. */
  lemma FittingNames(prefix: string, org: string, resource: string, org': string, resource': string)
    requires Fits(prefix, org, resource) && Fits(prefix, org', resource')
    ensures CanonicalName(prefix, org, resource) == CanonicalName(prefix, org', resource') <==>
      Sanitize(org) + "-" + Sanitize(resource) == Sanitize(org') + "-" + Sanitize(resource')
  {
    hide Sanitize, CanonicalName;
    FittingName(prefix, org, resource);
    FittingName(prefix, org', resource');
    var q, a, b :=
      TrimLeft(prefix, IsDash), Sanitize(org) + "-" + Sanitize(resource), Sanitize(org') + "-" + Sanitize(resource');
    assert (q + "-" + a)[|q| + 1..] == a && (q + "-" + b)[|q| + 1..] == b;
  }

  /** Canonical names separate their owners: under one prefix, and if not cut, two names are equal exactly when the
      organizations and the resources are, unless one sanitized organization id with a dash begins the other. */
  lemma CanonicalSeparates(prefix: string, org: string, resource: string, org': string, resource': string)
    requires Fits(prefix, org, resource) && Fits(prefix, org', resource')
    requires !MayCollide(Sanitize(org), Sanitize(org'))
    ensures CanonicalName(prefix, org, resource) == CanonicalName(prefix, org', resource') <==>
      Sanitize(org) == Sanitize(org') && Sanitize(resource) == Sanitize(resource')
  {
    hide Sanitize, CanonicalName, Fits;
    FittingNames(prefix, org, resource, org', resource');
    if Sanitize(org) + "-" + Sanitize(resource) == Sanitize(org') + "-" + Sanitize(resource') {
      OwnerIsPrefix(Sanitize(org), Sanitize(resource), Sanitize(org'), Sanitize(resource'));
    }
  }

  /** Ids without a dash never begin one another in this way. */
  lemma DashFreeOwnersSeparate(owner: string, other: string)
    requires '-' !in owner && '-' !in other
    ensures !MayCollide(owner, other)
  {
    assert (owner + "-")[|owner|] == '-' && (other + "-")[|other|] == '-';
    assert |owner| < |other| ==> other[|owner|] in other;
    assert |other| < |owner| ==> owner[|other|] in owner;
  }

  /** Two different owners that share a name. */
  ghost predicate Collide(prefix: string, org: string, org': string) {
    exists r, r' :: SharedName(prefix, org, r, org', r')
  }

  predicate SharedName(prefix: string, org: string, r: string, org': string, r': string) {
    Fits(prefix, org, r) && Fits(prefix, org', r') && IsNormal(r) && IsNormal(r') && (org != org' || r != r') &&
    CanonicalName(prefix, org, r) == CanonicalName(prefix, org', r')
  }

  /** The exact condition for two sanitized organization ids to have resources that share an uncut name: one id,
      followed by a dash, begins the other, and both leave room for a resource. */
  lemma OwnersCollide(prefix: string, org: string, org': string)
    requires IsNormal(org) && IsNormal(org') && org != "" && org' != ""
    ensures Collide(prefix, org, org') <==>
      MayCollide(org, org') && |prefix| + |org| + 3 <= MAX_NAME && |prefix| + |org'| + 3 <= MAX_NAME
  {
    hide Sanitize, CanonicalName, IsNormal;
    FixedPoints(org);
    FixedPoints(org');
    if r, r' :| SharedName(prefix, org, r, org', r') {
      FixedPoints(r);
      FixedPoints(r');
      FittingNames(prefix, org, r, org', r');
      OwnerIsPrefix(org, r, org', r');
    }
    if |prefix| + |org| + 3 <= MAX_NAME && |prefix| + |org'| + 3 <= MAX_NAME {
      if org + "-" <= org' {
        CollidingResources(prefix, org, org');
      } else if org' + "-" <= org {
        CollidingResources(prefix, org', org);
        var r, r' :| SharedName(prefix, org', r, org, r');
        assert SharedName(prefix, org, r', org', r);
      }
    }
  }

  lemma CollidingResources(prefix: string, org: string, org': string)
    requires IsNormal(org) && IsNormal(org') && org != "" && org + "-" <= org' && |prefix| + |org'| + 3 <= MAX_NAME
    ensures Collide(prefix, org, org')
  {
    hide Sanitize, CanonicalName;
    var t := org'[|org| + 1..];
    var r := t + "-" + "x";
    assert org' == org + "-" + t;
    RestIsNormal(org, t);
    FixedPoints(org);
    FixedPoints(org');
    FixedPoints(r);
    FixedPoints("x");
    assert org + "-" + r == org' + "-" + "x";
    FittingNames(prefix, org, r, org', "x");
    assert SharedName(prefix, org, r, org', "x");
  }

  lemma RestIsNormal(org: string, t: string)
    requires IsNormal(org + "-" + t) && org != ""
    ensures IsNormal(t + "-" + "x") && IsNormal("x") && t != ""
  {
    var w := org + "-" + t;
    assert w[|org|] == '-' && forall i :: 0 <= i < |t| ==> w[|org| + 1 + i] == t[i];
    assert t != "";
    assert w[|w| - 1] == t[|t| - 1];
    assert IsNormal(t);
    OneMoreRun(t);
  }

  lemma OneMoreRun(t: string)
    requires IsNormal(t) && t != ""
    ensures IsNormal(t + "-" + "x")
  {
    var w := t + "-" + "x";
    assert w[|t|] == '-' && w[|t| + 1] == 'x' && forall i :: 0 <= i < |t| ==> w[i] == t[i];
  }

  /** The value of buildIndexAliases. */
  function AliasesOf(staticPrefix: string, org: string, indexName: string): seq<string> {
    (if Sanitize(staticPrefix) != "" then [Sanitize(staticPrefix) + "-all"] else []) +
    (if Sanitize(indexName) != "" && Sanitize(indexName) != Sanitize(org) then [Sanitize(indexName)] else [])
  }

  lemma NormalHasNoSpace(s: string)
    requires IsNormal(s)
    ensures TrimSpace(s) == s
  {
    TrimOfTrimmed(s, IsSpace);
  }

  /** The aliases are in normal form, so trimming does not change them. */
  lemma AliasesAreNormal(staticPrefix: string, org: string, indexName: string)
    ensures forall a | a in AliasesOf(staticPrefix, org, indexName) :: a != "" && IsNormal(a) && TrimSpace(a) == a
  {
    SanitizeIsNormal(staticPrefix);
    SanitizeIsNormal(indexName);
    var s := Sanitize(staticPrefix);
    if s != "" {
      assert IsNormal(s + "-all");
      NormalHasNoSpace(s + "-all");
    }
    NormalHasNoSpace(Sanitize(indexName));
  }

  /** buildIndexAliases. Every alias is non-empty and in normal form, and the list depends on nothing but the sanitized
      forms of the arguments; a name in normal form is an alias unless it is the sanitized organization id. */
  method BuildIndexAliases(staticPrefix: string, organizationClusterID: string, canonicalIndexName: string)
    returns (aliases: seq<string>)
    ensures aliases == AliasesOf(staticPrefix, organizationClusterID, canonicalIndexName)
    ensures forall a | a in aliases :: a != "" && IsNormal(a)
    ensures aliases == AliasesOf(Sanitize(staticPrefix), Sanitize(organizationClusterID), Sanitize(canonicalIndexName))
    ensures var name := canonicalIndexName;
      IsNormal(name) && name != "" && name != Sanitize(organizationClusterID) ==> name in aliases
  {
    hide Sanitize, IsNormal;
    AliasesAreNormal(staticPrefix, organizationClusterID, canonicalIndexName);
    SanitizeIsIdempotent(staticPrefix);
    SanitizeIsIdempotent(organizationClusterID);
    SanitizeIsIdempotent(canonicalIndexName);
    FixedPoints(canonicalIndexName);
    var static_ := SanitizeIndexNamePart(staticPrefix);
    var orgID := SanitizeIndexNamePart(organizationClusterID);
    var canonical := SanitizeIndexNamePart(canonicalIndexName);
    aliases := [];
    if static_ != "" {
      aliases := aliases + [static_ + "-all"];
    }
    if canonical != "" && canonical != orgID {
      aliases := aliases + [canonical];
    }
  }

  /** The organization of a workspace path. */
  function OrgOf(path: string): Option<string> {
    var parts := Split(path, ':');
    if |parts| < 3 || parts[0] != "root" || parts[1] != "orgs" then None else Some(parts[2])
  }

  lemma {:induction false} JoinOfSplit(s: string, sep: char)
    ensures Join(Split(s, sep), [sep]) == s
  {
    if s != "" {
      hide Join, Push;
      JoinOfSplit(s[1..], sep);
      JoinOfPush(Split(s[1..], sep), s[0], sep);
      assert s == [s[0]] + s[1..];
    }
  }

  lemma JoinOfPush(parts: seq<string>, c: char, sep: char)
    requires parts != []
    ensures Join(Push(parts, c, sep), [sep]) == [c] + Join(parts, [sep])
  {
    var more := Push(parts, c, sep);
    if c == sep {
      assert more[0] == "" && more[1..] == parts;
      assert "" + [sep] + Join(parts, [sep]) == [c] + Join(parts, [sep]);
    } else {
      assert more[0] == [c] + parts[0] && more[1..] == parts[1..];
    }
  }

  predicate ColonFree(parts: seq<string>) {
    forall i :: 0 <= i < |parts| ==> ':' !in parts[i]
  }

  /** extractOrgFromPath finds org exactly in the paths root:orgs:org and root:orgs:org:..., whatever follows. */
  lemma OrgOfPath(path: string, org: string)
    ensures OrgOf(path) == Some(org) <==>
      exists rest: seq<string> :: ColonFree([org] + rest) && path == Join(["root", "orgs", org] + rest, ":")
  {
    var parts := Split(path, ':');
    SplitHasNoSeparator(path, ':');
    JoinOfSplit(path, ':');
    if OrgOf(path) == Some(org) {
      assert parts == ["root", "orgs", org] + parts[3..];
      assert ColonFree([org] + parts[3..]);
    }
    if rest: seq<string> :| ColonFree([org] + rest) && path == Join(["root", "orgs", org] + rest, ":") {
      var full := ["root", "orgs", org] + rest;
      assert forall i :: 2 <= i < |full| ==> full[i] == ([org] + rest)[i - 2];
      SplitOfJoin(full, ':');
    }
  }
}
