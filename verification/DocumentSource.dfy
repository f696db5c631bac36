/** buildDocumentSource on values: the resource document, the configured fields and any order of writing them. */
module DocumentSource {
  import opened Text
  import opened FieldPath
  import opened Json
  import opened DocumentFields

  /** lookupFieldPath: a path without segments finds nothing. */
  function LookupField(r: Fields, fieldPath: string): Option<Json> {
    if Segments(fieldPath) == [] then None else Lookup(Obj(r), Segments(fieldPath))
  }

  /** What extractConfiguredFields collects, keyed by the paths as they are spelled. */
  function Configured(r: Fields, fieldPaths: seq<string>): map<string, Json> {
    map p | p in fieldPaths && LookupField(r, p).Some? :: LookupField(r, p).value
  }

  /** The parsed paths of the collected fields; differently spaced spellings of one path fall together. */
  function FoundPaths(r: Fields, fieldPaths: seq<string>): set<Path> {
    set p | p in Configured(r, fieldPaths) :: Segments(p)
  }

  /** The loop of buildDocumentSource for one order of its range over the map. */
  function WriteAll(source: Fields, fields: map<string, Json>, order: seq<string>): Result<Fields, Conflict>
    requires forall p | p in order :: p in fields
    decreases |order|
  {
    if order == [] then Ok(source)
    else
      match Set(source, Segments(order[0]), fields[order[0]])
      case Ok(next) => WriteAll(next, fields, order[1..])
      case Err(e) => Err(e)
  }

  /** A range over a Go map visits every key once. */
  ghost predicate IsOrder(fields: map<string, Json>, order: seq<string>) {
    (forall p :: p in order <==> p in fields) &&
    (forall i, j :: 0 <= i < j < |order| ==> order[i] != order[j])
  }

  ghost predicate CanSucceed(source: Fields, fields: map<string, Json>) {
    exists order :: IsOrder(fields, order) && WriteAll(source, fields, order).Ok?
  }

  ghost predicate CanFail(source: Fields, fields: map<string, Json>) {
    exists order :: IsOrder(fields, order) && WriteAll(source, fields, order).Err?
  }

  lemma {:induction false} WriteAllOfSnoc(source: Fields, fields: map<string, Json>, order: seq<string>, last: string)
    requires (forall p | p in order :: p in fields) && last in fields
    ensures WriteAll(source, fields, order + [last]) ==
            match WriteAll(source, fields, order)
            case Ok(next) => Set(next, Segments(last), fields[last])
            case Err(e) => Err(e)
    decreases |order|
  {
    if order == [] {
      assert order + [last] == [last] && [last][1..] == [];
    } else {
      assert (order + [last])[1..] == order[1..] + [last];
      if Set(source, Segments(order[0]), fields[order[0]]).Ok? {
        WriteAllOfSnoc(Set(source, Segments(order[0]), fields[order[0]]).value, fields, order[1..], last);
      }
    }
  }

  /** The paths named by part of an order. */
  function Named(order: seq<string>): set<Path> {
    set p | p in order :: Segments(p)
  }

  /** The paths of S that run into no non-object of the document. */
  function ClearOnes(doc: Fields, S: set<Path>): set<Path> {
    set p | p in S && Clear(doc, p)
  }

  /** Every path that is not clear is written after a clear strict prefix of it. */
  ghost predicate Preceded(doc: Fields, order: seq<string>) {
    forall j | 0 <= j < |order| && !Clear(doc, Segments(order[j])) ::
      HasClearPrefix(doc, Named(order[..j]), Segments(order[j]))
  }

  ghost predicate HasClearPrefix(doc: Fields, S: set<Path>, path: Path) {
    exists q :: q in S && Clear(doc, q) && q < path
  }

  /** One more write on top of the overlay of clear paths: a clear path joins them, a path below one of them is there
      already, and any other is blocked as it is in the document. */
  lemma OneMoreWrite(doc: Fields, r: Fields, S: set<Path>, path: Path)
    requires Found(Obj(r), S + {path})
    ensures Found(Obj(r), ClearOnes(doc, S)) && Found(Obj(r), ClearOnes(doc, S) + {path})
    ensures var next := Set(Overlay(doc, Obj(r), ClearOnes(doc, S)), path, Lookup(Obj(r), path).value);
      (Clear(doc, path) ==> next == Ok(Overlay(doc, Obj(r), ClearOnes(doc, S) + {path}))) &&
      (!Clear(doc, path) && HasClearPrefix(doc, S, path) ==> next == Ok(Overlay(doc, Obj(r), ClearOnes(doc, S)))) &&
      (!Clear(doc, path) && !HasClearPrefix(doc, S, path) ==> next.Err?)
  {
    var C := ClearOnes(doc, S);
    assert path in C + {path};
    assert forall p | p in C :: p in C + {path};
    if Clear(doc, path) {
      SetOnOverlay(doc, Obj(r), C, path);
    } else if q :| q in S && Clear(doc, q) && q < path {
      OverlayReadsResource(doc, Obj(r), C, q, path);
      SetOfLookup(Overlay(doc, Obj(r), C), path);
    } else {
      forall p | p in C ensures !(p <= path) && !(path <= p) {
        if path <= p {
          ClearAbove(doc, path, p);
        }
      }
      ClearInOverlay(doc, Obj(r), C, path);
      SetSucceedsWhenClear(Overlay(doc, Obj(r), C), path, Lookup(Obj(r), path).value);
    }
  }

  lemma {:induction false} ClearAbove(f: Fields, path: Path, longer: Path)
    requires path <= longer && Clear(f, longer)
    ensures Clear(f, path)
    decreases |path|
  {
    if |path| > 1 && path[0] in f && f[path[0]].Obj? {
      ClearAbove(f[path[0]].fields, path[1..], longer[1..]);
    }
  }

  lemma NamedFacts(r: Fields, fieldPaths: seq<string>, order: seq<string>)
    requires forall p | p in order :: p in Configured(r, fieldPaths)
    ensures Found(Obj(r), Named(order))
  {
  }

  lemma PrecededOfSnoc(doc: Fields, front: seq<string>, last: string)
    ensures Preceded(doc, front + [last]) <==>
      Preceded(doc, front) && (Clear(doc, Segments(last)) || HasClearPrefix(doc, Named(front), Segments(last)))
  {
    hide Segments, Named, HasClearPrefix;
    var order := front + [last];
    assert forall j | 0 <= j < |front| :: order[j] == front[j] && order[..j] == front[..j];
    assert order[|front|] == last && order[..|front|] == front;
    if Preceded(doc, front + [last]) {
      forall j | 0 <= j < |front| && !Clear(doc, Segments(front[j]))
        ensures HasClearPrefix(doc, Named(front[..j]), Segments(front[j]))
      {
        assert order[j] == front[j];
      }
    }
  }

  lemma ClearOnesOfSnoc(doc: Fields, front: seq<string>, last: string)
    ensures Named(front + [last]) == Named(front) + {Segments(last)}
    ensures var C := ClearOnes(doc, Named(front));
      ClearOnes(doc, Named(front + [last])) == if Clear(doc, Segments(last)) then C + {Segments(last)} else C
  {
  }

  /** The exact outcome of every order, complete or not: it succeeds if and only if each path that is not clear comes
      after a clear strict prefix, and it then gives the document overlaid by the resource on the clear paths. */
  lemma {:induction false} OrderOutcome(doc: Fields, r: Fields, fieldPaths: seq<string>, order: seq<string>)
    requires forall p | p in order :: p in Configured(r, fieldPaths)
    ensures Found(Obj(r), ClearOnes(doc, Named(order)))
    ensures WriteAll(doc, Configured(r, fieldPaths), order).Ok? <==> Preceded(doc, order)
    ensures Preceded(doc, order) ==>
      WriteAll(doc, Configured(r, fieldPaths), order) == Ok(Overlay(doc, Obj(r), ClearOnes(doc, Named(order))))
    decreases |order|
  {
    NamedFacts(r, fieldPaths, order);
    if order == [] {
      assert ClearOnes(doc, Named(order)) == {};
      OverlayOfNone(doc, Obj(r));
    } else {
      var front, last := order[..|order| - 1], order[|order| - 1];
      assert order == front + [last];
      OrderOutcome(doc, r, fieldPaths, front);
      NextOutcome(doc, r, fieldPaths, front, last);
    }
  }

  lemma NextOutcome(doc: Fields, r: Fields, fieldPaths: seq<string>, front: seq<string>, last: string)
    requires (forall p | p in front :: p in Configured(r, fieldPaths)) && last in Configured(r, fieldPaths)
    requires Found(Obj(r), ClearOnes(doc, Named(front)))
    requires WriteAll(doc, Configured(r, fieldPaths), front).Ok? <==> Preceded(doc, front)
    requires Preceded(doc, front) ==>
      WriteAll(doc, Configured(r, fieldPaths), front) == Ok(Overlay(doc, Obj(r), ClearOnes(doc, Named(front))))
    ensures var order := front + [last];
      Found(Obj(r), ClearOnes(doc, Named(order))) &&
      (WriteAll(doc, Configured(r, fieldPaths), order).Ok? <==> Preceded(doc, order)) &&
      (Preceded(doc, order) ==>
        WriteAll(doc, Configured(r, fieldPaths), order) == Ok(Overlay(doc, Obj(r), ClearOnes(doc, Named(order)))))
  {
    hide *;
    var fields, path := Configured(r, fieldPaths), Segments(last);
    WriteAllOfSnoc(doc, fields, front, last);
    PrecededOfSnoc(doc, front, last);
    ClearOnesOfSnoc(doc, front, last);
    ConfiguredReads(r, fieldPaths, last);
    FoundOneMore(r, fieldPaths, front, last);
    OneMoreWrite(doc, r, Named(front), path);
  }

  lemma FoundOneMore(r: Fields, fieldPaths: seq<string>, front: seq<string>, last: string)
    requires (forall p | p in front :: p in Configured(r, fieldPaths)) && last in Configured(r, fieldPaths)
    ensures Found(Obj(r), Named(front) + {Segments(last)})
    ensures forall p | p in front + [last] :: p in Configured(r, fieldPaths)
  {
  }

  lemma ConfiguredReads(r: Fields, fieldPaths: seq<string>, p: string)
    requires p in Configured(r, fieldPaths)
    ensures Segments(p) != [] && Lookup(Obj(r), Segments(p)) == Some(Configured(r, fieldPaths)[p])
  {
  }

  lemma OrderNamesAll(r: Fields, fieldPaths: seq<string>, order: seq<string>)
    requires IsOrder(Configured(r, fieldPaths), order)
    ensures Named(order) == FoundPaths(r, fieldPaths)
  {
  }

  /** Whatever orders succeed, they give the same source. */
  lemma SuccessIsUnique(doc: Fields, r: Fields, fieldPaths: seq<string>, order: seq<string>, other: seq<string>)
    requires IsOrder(Configured(r, fieldPaths), order) && IsOrder(Configured(r, fieldPaths), other)
    requires WriteAll(doc, Configured(r, fieldPaths), order).Ok? && WriteAll(doc, Configured(r, fieldPaths), other).Ok?
    ensures WriteAll(doc, Configured(r, fieldPaths), order) == WriteAll(doc, Configured(r, fieldPaths), other)
  {
    OrderOutcome(doc, r, fieldPaths, order);
    OrderOutcome(doc, r, fieldPaths, other);
    OrderNamesAll(r, fieldPaths, order);
    OrderNamesAll(r, fieldPaths, other);
  }

  /** Document building is deterministic: when the found paths are clear in the document, every order of the range
      succeeds with the document overlaid by the resource on the found paths. */
  lemma EveryOrderBuildsTheOverlay(doc: Fields, r: Fields, fieldPaths: seq<string>, order: seq<string>)
    requires IsOrder(Configured(r, fieldPaths), order)
    requires AllClear(doc, FoundPaths(r, fieldPaths))
    ensures Found(Obj(r), FoundPaths(r, fieldPaths))
    ensures WriteAll(doc, Configured(r, fieldPaths), order) == Ok(Overlay(doc, Obj(r), FoundPaths(r, fieldPaths)))
  {
    OrderNamesAll(r, fieldPaths, order);
    AllClearIsPreceded(doc, order, FoundPaths(r, fieldPaths));
    OrderOutcome(doc, r, fieldPaths, order);
  }

  lemma AllClearIsPreceded(doc: Fields, order: seq<string>, S: set<Path>)
    requires Named(order) <= S && AllClear(doc, S)
    ensures Preceded(doc, order) && ClearOnes(doc, Named(order)) == Named(order)
  {
    assert forall j | 0 <= j < |order| :: Segments(order[j]) in Named(order);
  }

  lemma PartOfAnOrderSucceeds(doc: Fields, r: Fields, fieldPaths: seq<string>, order: seq<string>)
    requires forall p | p in order :: p in Configured(r, fieldPaths)
    requires AllClear(doc, FoundPaths(r, fieldPaths))
    ensures WriteAll(doc, Configured(r, fieldPaths), order).Ok?
  {
    AllClearIsPreceded(doc, order, FoundPaths(r, fieldPaths));
    OrderOutcome(doc, r, fieldPaths, order);
  }

  /** The elements of a set, each once. */
  lemma Enumeration(keys: set<string>) returns (order: seq<string>)
    ensures forall p :: p in order <==> p in keys
    ensures forall i, j :: 0 <= i < j < |order| ==> order[i] != order[j]
  {
    order := [];
    var rest := keys;
    while rest != {}
      invariant rest <= keys && forall p :: p in order <==> p in keys - rest
      invariant forall i, j :: 0 <= i < j < |order| ==> order[i] != order[j]
    {
      var p :| p in rest;
      assert p !in order;
      order := order + [p];
      rest := rest - {p};
    }
  }

  /** An order that visits the keys of first before all others. */
  lemma OrderStartingWith(fields: map<string, Json>, first: set<string>) returns (order: seq<string>)
    requires first <= fields.Keys
    ensures IsOrder(fields, order)
    ensures forall i, j :: 0 <= i < |order| && 0 <= j < |order| && order[i] in first && order[j] !in first ==> i < j
  {
    var a := Enumeration(first);
    var b := Enumeration(fields.Keys - first);
    order := a + b;
    assert forall i :: 0 <= i < |a| ==> order[i] in a;
    assert forall i :: |a| <= i < |order| ==> order[i] in b;
  }

  /** The exact condition: every order succeeds if and only if no found path runs into a non-object of the document. */
  lemma EveryOrderSucceedsWhenClear(doc: Fields, r: Fields, fieldPaths: seq<string>)
    ensures !CanFail(doc, Configured(r, fieldPaths)) <==> AllClear(doc, FoundPaths(r, fieldPaths))
  {
    var fields := Configured(r, fieldPaths);
    if AllClear(doc, FoundPaths(r, fieldPaths)) {
      forall order | IsOrder(fields, order) ensures WriteAll(doc, fields, order).Ok? {
        EveryOrderBuildsTheOverlay(doc, r, fieldPaths, order);
      }
    } else {
      var order := BlockedOrder(doc, r, fieldPaths);
    }
  }

  /** An order that starts with a path that is not clear. */
  lemma BlockedOrder(doc: Fields, r: Fields, fieldPaths: seq<string>) returns (order: seq<string>)
    requires !AllClear(doc, FoundPaths(r, fieldPaths))
    ensures IsOrder(Configured(r, fieldPaths), order) && WriteAll(doc, Configured(r, fieldPaths), order).Err?
  {
    var fields := Configured(r, fieldPaths);
    var path :| path in FoundPaths(r, fieldPaths) && !Clear(doc, path);
    var p :| p in fields && Segments(p) == path;
    order := OrderStartingWith(fields, {p});
    assert p in order;
    assert order[0] == p;
    SetSucceedsWhenClear(doc, path, fields[p]);
  }

  /** Every path of S that is not clear has a clear strict prefix in S. */
  ghost predicate Covered(doc: Fields, S: set<Path>) {
    forall p | p in S && !Clear(doc, p) :: HasClearPrefix(doc, S, p)
  }

  /** Some order succeeds if and only if every found path that is not clear has a clear found strict prefix. */
  lemma SomeOrderSucceedsWhenCovered(doc: Fields, r: Fields, fieldPaths: seq<string>)
    ensures CanSucceed(doc, Configured(r, fieldPaths)) <==> Covered(doc, FoundPaths(r, fieldPaths))
  {
    var fields, S := Configured(r, fieldPaths), FoundPaths(r, fieldPaths);
    if order: seq<string> :| IsOrder(fields, order) && WriteAll(doc, fields, order).Ok? {
      OrderOutcome(doc, r, fieldPaths, order);
      PrecededIsCovered(doc, r, fieldPaths, order);
    }
    if Covered(doc, S) {
      var order := ClearFirst(doc, r, fieldPaths);
      OrderOutcome(doc, r, fieldPaths, order);
    }
  }

  lemma PrecededIsCovered(doc: Fields, r: Fields, fieldPaths: seq<string>, order: seq<string>)
    requires IsOrder(Configured(r, fieldPaths), order) && Preceded(doc, order)
    ensures Covered(doc, FoundPaths(r, fieldPaths))
  {
    OrderNamesAll(r, fieldPaths, order);
    forall p | p in FoundPaths(r, fieldPaths) && !Clear(doc, p)
      ensures HasClearPrefix(doc, FoundPaths(r, fieldPaths), p) {
      var j :| 0 <= j < |order| && Segments(order[j]) == p;
      var q :| q in Named(order[..j]) && Clear(doc, q) && q < p;
      assert q in Named(order);
    }
  }

  /** The clear paths first, then the others. */
  lemma ClearFirst(doc: Fields, r: Fields, fieldPaths: seq<string>) returns (order: seq<string>)
    requires Covered(doc, FoundPaths(r, fieldPaths))
    ensures IsOrder(Configured(r, fieldPaths), order) && Preceded(doc, order)
  {
    var fields := Configured(r, fieldPaths);
    var first := set p | p in fields && Clear(doc, Segments(p));
    order := OrderStartingWith(fields, first);
    forall j | 0 <= j < |order| && !Clear(doc, Segments(order[j]))
      ensures HasClearPrefix(doc, Named(order[..j]), Segments(order[j]))
    {
      assert order[j] in order && Segments(order[j]) in FoundPaths(r, fieldPaths);
      var q :| q in FoundPaths(r, fieldPaths) && Clear(doc, q) && q < Segments(order[j]);
      var k :| k in fields && Segments(k) == q;
      assert k in order;
      var i :| 0 <= i < |order| && order[i] == k;
      assert order[..j][i] == k;
      assert k in order[..j];
    }
  }

  /** The exact condition for the order to decide the outcome: some found path is not clear, and each such path has a
      clear found strict prefix. */
  lemma OrderMatters(doc: Fields, r: Fields, fieldPaths: seq<string>)
    ensures CanSucceed(doc, Configured(r, fieldPaths)) && CanFail(doc, Configured(r, fieldPaths)) <==>
      !AllClear(doc, FoundPaths(r, fieldPaths)) && Covered(doc, FoundPaths(r, fieldPaths))
  {
    SomeOrderSucceedsWhenCovered(doc, r, fieldPaths);
    EveryOrderSucceedsWhenClear(doc, r, fieldPaths);
  }
}
