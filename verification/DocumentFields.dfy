/** setFieldPath and lookupFieldPath on values: what one write into the document means, and what many mean together. */
module DocumentFields {
  import opened Text
  import opened FieldPath
  import opened Json

  /** The segment at which a path runs into a value that is neither an object nor null. */
  datatype Conflict = Conflict(segment: string)

  /** Writing value at path: missing and null steps become objects, any other non-object step is a conflict. */
  function Set(f: Fields, path: Path, value: Json): Result<Fields, Conflict>
    decreases |path|
  {
    if path == [] then Ok(f)
    else if |path| == 1 then Ok(f[path[0] := value])
    else if path[0] in f && !f[path[0]].Null? && !f[path[0]].Obj? then Err(Conflict(path[0]))
    else
      match Set(Under(f, path[0]), path[1..], value)
      case Ok(g) => Ok(f[path[0] := Obj(g)])
      case Err(e) => Err(e)
  }

  /** No strict prefix of path holds a value that is neither an object nor null. */
  predicate Clear(f: Fields, path: Path)
    decreases |path|
  {
    |path| > 1 && path[0] in f ==>
      f[path[0]].Null? || (f[path[0]].Obj? && Clear(f[path[0]].fields, path[1..]))
  }

  lemma {:induction false} ClearOfEmpty(path: Path)
    ensures Clear(map[], path)
  {
  }

  /** A write succeeds exactly on a clear path. */
  lemma {:induction false} SetSucceedsWhenClear(f: Fields, path: Path, value: Json)
    ensures Set(f, path, value).Ok? <==> Clear(f, path)
    decreases |path|
  {
    if |path| > 1 {
      SetSucceedsWhenClear(Under(f, path[0]), path[1..], value);
      ClearOfEmpty(path[1..]);
    }
  }

  /** A conflict names the segment of the first step that holds neither an object nor null. */
  lemma {:induction false} ConflictNamesStep(f: Fields, path: Path, value: Json) returns (i: nat)
    requires Set(f, path, value).Err?
    ensures i + 1 < |path| && Set(f, path, value) == Err(Conflict(path[i])) && Clear(f, path[..i + 1])
    ensures match Lookup(Obj(f), path[..i + 1])
            case Some(step) => !step.Obj? && !step.Null?
            case None => false
    decreases |path|
  {
    var rest := path[1..];
    if path[0] in f && !f[path[0]].Null? && !f[path[0]].Obj? {
      i := 0;
      var upTo := path[..1];
      assert upTo[0] == path[0] && upTo[1..] == [];
      assert Lookup(f[path[0]], upTo[1..]) == Some(f[path[0]]);
    } else {
      ClearOfEmpty(rest);
      SetSucceedsWhenClear(Under(f, path[0]), rest, value);
      assert path[0] in f && f[path[0]].Obj?;
      var j := ConflictNamesStep(f[path[0]].fields, rest, value);
      i := j + 1;
      var upTo := path[..i + 1];
      assert upTo[0] == path[0] && upTo[1..] == rest[..j + 1];
      assert rest[j] == path[i];
    }
  }

  /** Reading back what was written. */
  lemma {:induction false} LookupAfterSet(f: Fields, path: Path, value: Json)
    requires path != [] && Clear(f, path)
    ensures Set(f, path, value).Ok?
    ensures Lookup(Obj(Set(f, path, value).value), path) == Some(value)
    decreases |path|
  {
    SetSucceedsWhenClear(f, path, value);
    if |path| > 1 {
      ClearOfEmpty(path[1..]);
      LookupAfterSet(Under(f, path[0]), path[1..], value);
    } else {
      assert path[1..] == [];
    }
  }

  /** A write is not seen at any path that is neither a prefix nor an extension of the written one. */
  lemma {:induction false} LookupElsewhere(f: Fields, path: Path, value: Json, other: Path)
    requires Set(f, path, value).Ok?
    requires !(path <= other) && !(other <= path)
    ensures Lookup(Obj(Set(f, path, value).value), other) == Lookup(Obj(f), other)
    decreases |path|
  {
    if |path| > 1 && path[0] == other[0] {
      assert path == [path[0]] + path[1..] && other == [path[0]] + other[1..];
      LookupElsewhere(Under(f, path[0]), path[1..], value, other[1..]);
      assert Lookup(Obj(map[]), other[1..]).None?;
    }
  }

  /** Writing back what is there changes nothing. */
  lemma {:induction false} SetOfLookup(f: Fields, path: Path)
    requires path != [] && Lookup(Obj(f), path).Some?
    ensures Set(f, path, Lookup(Obj(f), path).value) == Ok(f)
    decreases |path|
  {
    if |path| > 1 {
      SetOfLookup(f[path[0]].fields, path[1..]);
      assert f[path[0] := f[path[0]]] == f;
    } else {
      assert path[1..] == [];
      assert f[path[0] := f[path[0]]] == f;
    }
  }

  /** A second write at the same path replaces the first. */
  lemma {:induction false} SetOverSet(f: Fields, path: Path, first: Json, second: Json)
    requires Set(f, path, first).Ok?
    ensures Set(Set(f, path, first).value, path, second) == Set(f, path, second)
    decreases |path|
  {
    if |path| > 1 {
      SetOverSet(Under(f, path[0]), path[1..], first, second);
    }
    if path != [] && Set(f, path, second).Ok? {
      var g, h := Set(f, path, first).value, Set(f, path, second).value;
      assert g[path[0] := h[path[0]]] == h;
    }
  }

  /** Every path of S is present in the resource. */
  ghost predicate Found(r: Json, S: set<Path>) {
    forall p | p in S :: p != [] && Lookup(r, p).Some?
  }

  lemma FoundHead(r: Json, S: set<Path>, key: string)
    requires Found(r, S) && key in Heads(S)
    ensures r.Obj? && key in r.fields
    ensures [key] !in S ==> r.fields[key].Obj? && Found(r.fields[key], Tails(S, key))
  {
    var p :| p in S && p != [] && p[0] == key;
    if [key] !in S {
      assert p[1..] != [] by { assert p != [key]; }
      assert Lookup(r.fields[key], p[1..]).Some?;
      forall t | t in Tails(S, key) ensures t != [] && Lookup(r.fields[key], t).Some? {
        TailsMember(S, key, t);
        assert t == [] ==> [key] + t == [key];
        assert ([key] + t)[1..] == t;
      }
    }
  }

  /** f overlaid with the projection of the resource r onto the paths of S. It does not speak of any order. */
  ghost function Overlay(f: Fields, r: Json, S: set<Path>): Fields
    requires Found(r, S)
    decreases r
  {
    map key | key in f.Keys + Heads(S) ::
      if key !in Heads(S) then f[key]
      else
        FoundHead(r, S, key);
        if [key] in S then r.fields[key]
        else Obj(Overlay(Under(f, key), r.fields[key], Tails(S, key)))
  }

  lemma {:induction false} OverlayOfNone(f: Fields, r: Json)
    ensures Overlay(f, r, {}) == f
  {
  }

  /** Every path of S is clear in f. */
  ghost predicate AllClear(f: Fields, S: set<Path>) {
    forall p | p in S :: Clear(f, p)
  }

  lemma ClearUnder(f: Fields, S: set<Path>, key: string)
    requires AllClear(f, S)
    ensures [key] !in S ==> AllClear(Under(f, key), Tails(S, key))
  {
    if [key] !in S {
      forall t | t in Tails(S, key) ensures Clear(Under(f, key), t) {
        TailsMember(S, key, t);
        assert Clear(f, [key] + t);
        assert ([key] + t)[1..] == t;
        ClearOfEmpty(t);
      }
    }
  }

  /** Adding a path changes the overlay at the path's first segment only. */
  lemma OverlayElsewhere(f: Fields, r: Json, S: set<Path>, path: Path, x: Json)
    requires Found(r, S + {path})
    requires path in S + {path} && path[0] in Overlay(f, r, S + {path})
    requires x == Overlay(f, r, S + {path})[path[0]]
    ensures Found(r, S)
    ensures Overlay(f, r, S)[path[0] := x] == Overlay(f, r, S + {path})
  {
    hide Lookup, Overlay;
    var before, after := Overlay(f, r, S), Overlay(f, r, S + {path});
    HeadsOfAdded(S, path);
    OverlayKeys(f, r, S);
    OverlayKeys(f, r, S + {path});
    assert before.Keys + {path[0]} == after.Keys;
    forall k | k in after && k != path[0] ensures before[k] == after[k] {
      OverlayUnder(f, r, S, path, k);
    }
  }

  lemma OverlayKeys(f: Fields, r: Json, S: set<Path>)
    requires Found(r, S)
    ensures Overlay(f, r, S).Keys == f.Keys + Heads(S)
  {
  }

  lemma OverlayUnder(f: Fields, r: Json, S: set<Path>, path: Path, k: string)
    requires Found(r, S + {path}) && Found(r, S) && path in S + {path} && k != path[0]
    requires k in f || k in Heads(S)
    ensures k in Overlay(f, r, S) && k in Overlay(f, r, S + {path}) &&
      Overlay(f, r, S)[k] == Overlay(f, r, S + {path})[k]
  {
    hide Lookup;
    HeadsOfAdded(S, path);
    TailsOfAdded(S, path, k);
    assert [k] in S <==> [k] in S + {path};
  }

  lemma OverlayAt(f: Fields, r: Json, S: set<Path>, key: string)
    requires Found(r, S) && key in Heads(S)
    ensures r.Obj? && key in r.fields && key in Overlay(f, r, S)
    ensures [key] in S ==> Overlay(f, r, S)[key] == r.fields[key]
    ensures [key] !in S ==>
      r.fields[key].Obj? && Found(r.fields[key], Tails(S, key)) &&
      Overlay(f, r, S)[key] == Obj(Overlay(Under(f, key), r.fields[key], Tails(S, key)))
  {
    FoundHead(r, S, key);
  }

  /** One more write of a found value moves the document from the overlay of S to the overlay of S and its path. */
  lemma {:induction false} SetOnOverlay(f: Fields, r: Json, S: set<Path>, path: Path)
    requires Found(r, S + {path}) && AllClear(f, S + {path})
    ensures Found(r, S)
    ensures Set(Overlay(f, r, S), path, Lookup(r, path).value) == Ok(Overlay(f, r, S + {path}))
    decreases |path|
  {
    var all := S + {path};
    assert path in all;
    var key := path[0];
    HeadsOfAdded(S, path);
    OverlayAt(f, r, all, key);
    OverlayElsewhere(f, r, S, path, Overlay(f, r, all)[key]);
    assert Lookup(r, path) == Lookup(r.fields[key], path[1..]);
    if |path| == 1 {
      assert path == [key];
    } else if [key] in S {
      OverlayAt(f, r, S, key);
      SetOfLookup(r.fields[key].fields, path[1..]);
    } else {
      SetUnderOverlay(f, r, S, path);
      assert path != [key];
    }
  }

  /** The step of SetOnOverlay below the first segment, when that segment is not itself written. */
  lemma {:induction false} SetUnderOverlay(f: Fields, r: Json, S: set<Path>, path: Path)
    requires Found(r, S + {path}) && AllClear(f, S + {path})
    requires |path| > 1 && [path[0]] !in S
    ensures r.Obj? && path[0] in r.fields && Found(r.fields[path[0]], Tails(S + {path}, path[0]))
    ensures var before := Overlay(f, r, S);
            (path[0] in before ==> before[path[0]].Null? || before[path[0]].Obj?) &&
            Set(Under(before, path[0]), path[1..], Lookup(r, path).value) ==
            Ok(Overlay(Under(f, path[0]), r.fields[path[0]], Tails(S + {path}, path[0])))
    decreases |path|, 0
  {
    var key, all := path[0], S + {path};
    assert path in all;
    assert path != [key];
    HeadsOfAdded(S, path);
    FoundHead(r, all, key);
    ClearUnder(f, all, key);
    TailsOfAdded(S, path, key);
    if key in Heads(S) {
      OverlayAt(f, r, S, key);
    }
    assert Lookup(r, path) == Lookup(r.fields[key], path[1..]);
    SetOnOverlay(Under(f, key), r.fields[key], Tails(S, key), path[1..]);
    TailsEmpty(S, key);
    OverlayOfNone(Under(f, key), r.fields[key]);
  }

  /** Below a path of S the overlay reads like the resource. */
  lemma {:induction false} OverlayReadsResource(f: Fields, r: Json, S: set<Path>, path: Path, at: Path)
    requires Found(r, S) && path in S && path <= at
    ensures Lookup(Obj(Overlay(f, r, S)), at) == Lookup(r, at)
    decreases |at|
  {
    var key := path[0];
    assert key == at[0];
    OverlayAt(f, r, S, key);
    if [key] !in S {
      assert path == [key] + path[1..];
      TailsMember(S, key, path[1..]);
      OverlayReadsResource(Under(f, key), r.fields[key], Tails(S, key), path[1..], at[1..]);
    }
  }

  /** Away from every path of S the overlay reads like the document. */
  lemma {:induction false} OverlayReadsDocument(f: Fields, r: Json, S: set<Path>, at: Path)
    requires Found(r, S)
    requires forall p | p in S :: !(p <= at) && !(at <= p)
    ensures Lookup(Obj(Overlay(f, r, S)), at) == Lookup(Obj(f), at)
    decreases |at|
  {
    if at == [] {
      assert forall p | p in S :: at <= p;
      assert S == {};
      OverlayOfNone(f, r);
    } else if at[0] in Heads(S) {
      var key, rest := at[0], at[1..];
      assert at == [key] + rest;
      assert [key] <= at;
      assert [key] !in S;
      OverlayAt(f, r, S, key);
      forall t | t in Tails(S, key) ensures !(t <= rest) && !(rest <= t) {
        TailsMember(S, key, t);
        assert t <= rest ==> [key] + t <= at;
        assert rest <= t ==> at <= [key] + t;
      }
      var p :| p in S && p != [] && p[0] == key;
      assert rest == [] ==> at <= p;
      OverlayReadsDocument(Under(f, key), r.fields[key], Tails(S, key), rest);
      assert Lookup(Obj(map[]), rest).None?;
    }
  }

  /** Writes at unrelated paths do not change whether a path is clear. */
  lemma {:induction false} ClearInOverlay(f: Fields, r: Json, S: set<Path>, path: Path)
    requires Found(r, S) && AllClear(f, S)
    requires forall p | p in S :: !(p <= path) && !(path <= p)
    ensures Clear(Overlay(f, r, S), path) <==> Clear(f, path)
    decreases |path|
  {
    if path == [] {
      assert forall p | p in S :: path <= p;
    } else if path[0] in Heads(S) {
      var key, rest := path[0], path[1..];
      assert path == [key] + rest && [key] <= path;
      OverlayAt(f, r, S, key);
      ClearUnder(f, S, key);
      UnrelatedBelow(S, path);
      var p :| p in S && p[0] == key;
      assert Clear(f, p) && |p| > 1 && |path| > 1 by {
        assert |p| == 1 ==> p <= path;
        assert |path| == 1 ==> path <= p;
      }
      ClearOfEmpty(rest);
      ClearInOverlay(Under(f, key), r.fields[key], Tails(S, key), rest);
    }
  }

  lemma UnrelatedBelow(S: set<Path>, path: Path)
    requires path != [] && forall p | p in S :: !(p <= path) && !(path <= p)
    ensures forall t | t in Tails(S, path[0]) :: !(t <= path[1..]) && !(path[1..] <= t)
  {
    var key, rest := path[0], path[1..];
    assert path == [key] + rest;
    forall t | t in Tails(S, key) ensures !(t <= rest) && !(rest <= t) {
      TailsMember(S, key, t);
      assert t <= rest ==> [key] + t <= path;
      assert rest <= t ==> path <= [key] + t;
    }
  }
}
