/** What the in-place writes mean: on a document that shares maps with the resource, a write is Set on the document's
    value and leaves the resource as it is. */
module DocumentBuild {
  import opened Text
  import opened FieldPath
  import opened Json
  import opened GoHeap
  import opened DocumentFields
  import opened DocumentSource
  import opened DocumentWriter

  /** Objects nested along a path, with value at the end. */
  function Nest(path: Path, value: Json): Json {
    if path == [] then value else Obj(map[path[0] := Nest(path[1..], value)])
  }

  lemma {:induction false} SetInEmpty(path: Path, value: Json)
    requires path != []
    ensures Set(map[], path, value) == Ok(map[path[0] := Nest(path[1..], value)])
    decreases |path|
  {
    if |path| > 1 {
      SetInEmpty(path[1..], value);
    }
  }

  lemma {:induction false} ChainDenotes(h: Heap, made: seq<GoMap>, keys: Path, value: GoValue, j: Json)
    requires Chain(h, made, keys, value) && Denotes(h, value, j)
    ensures Denotes(h, Link(made, 0, value), Nest(keys, j))
    decreases |made|
  {
    if made != [] {
      forall i | 0 <= i < |made| - 1 ensures h[made[1..][i]] == map[keys[1..][i] := Link(made[1..], i + 1, value)] {
        assert Link(made, i + 2, value) == Link(made[1..], i + 1, value);
      }
      ChainDenotes(h, made[1..], keys[1..], value, j);
      assert Link(made, 1, value) == Link(made[1..], 0, value);
    }
  }

  /** A walk outside the tree stays outside. */
  lemma {:induction false} StopsOutside(h: Heap, places: Places, root: GoMap, n: GoMap, path: Path)
    requires IsTree(h, places, root) && n in h && n !in places && path != []
    ensures StopAt(h, n, path).Writes? ==> StopAt(h, n, path).node !in places
    decreases |path|
  {
    if |path| > 1 && path[0] in h[n] && h[n][path[0]].Ref? {
      StopsOutside(h, places, root, h[n][path[0]].node, path[1..]);
    }
  }

  /** The place of the map that a walk inside the tree assigns to. */
  lemma {:induction false} StopPlace(h: Heap, places: Places, root: GoMap, n: GoMap, path: Path)
    requires IsTree(h, places, root) && n in places && path != []
    requires StopAt(h, n, path).Writes? && StopAt(h, n, path).node in places
    ensures StopAt(h, n, path).rest != [] && |StopAt(h, n, path).rest| <= |path|
    ensures places[StopAt(h, n, path).node] + StopAt(h, n, path).rest == places[n] + path
    decreases |path|
  {
    var stop := StopAt(h, n, path);
    if stop != Writes(n, path) {
      var m := h[n][path[0]].node;
      if m in places {
        StopPlace(h, places, root, m, path[1..]);
        assert path[0] in h[n] && places[m] == places[n] + [path[0]];
        assert path == [path[0]] + path[1..];
      } else {
        StopsOutside(h, places, root, m, path[1..]);
      }
    }
  }

  lemma FirstStepLeadsToStop(a: Path, path: Path, b: Path, rest: Path)
    requires path != [] && rest != [] && |rest| <= |path| && b + rest == a + path
    ensures a + [path[0]] <= b + [rest[0]]
    ensures |rest| < |path| ==> |a| < |b|
  {
    var whole := a + path;
    assert a + [path[0]] == whole[..|a| + 1];
    assert b + [rest[0]] == whole[..|b| + 1];
  }

  lemma {:induction false} StopIsConflict(h: Heap, n: GoMap, f: Fields, path: Path, value: Json)
    requires Closed(h) && n in h && path != [] && Denotes(h, Ref(n), Obj(f))
    ensures StopAt(h, n, path).Blocked? <==> Set(f, path, value).Err?
    ensures StopAt(h, n, path).Blocked? ==> Set(f, path, value) == Err(Conflict(StopAt(h, n, path).segment))
    decreases |path|
  {
    if |path| > 1 {
      SetInEmpty(path[1..], value);
      if path[0] in f && f[path[0]].Obj? {
        StopIsConflict(h, h[n][path[0]].node, f[path[0]].fields, path[1..], value);
      }
    }
  }

  lemma SetAtStop(f: Fields, path: Path, value: Json)
    requires path != [] && (|path| == 1 || path[0] !in f || f[path[0]].Null?)
    ensures Set(f, path, value) == Ok(f[path[0] := Nest(path[1..], value)])
  {
    if |path| > 1 {
      SetInEmpty(path[1..], value);
    }
  }

  /** A write inside the tree is Set on the tree's value. */
  lemma {:induction false} TreeWrite(h: Heap, h': Heap, places: Places, root: GoMap, n: GoMap, f: Fields, path: Path,
                                     stop: Stop, x: GoValue, value: Json)
    requires IsTree(h, places, root) && n in places && path != [] && Denotes(h, Ref(n), Obj(f))
    requires stop == StopAt(h, n, path) && stop.Writes? && stop.node in places && stop.rest != []
    requires OneWrite(h, h', stop.node, stop.rest[0], x)
    requires Denotes(h', x, Nest(stop.rest[1..], value))
    ensures Set(f, path, value).Ok? && Denotes(h', Ref(n), Obj(Set(f, path, value).value))
    decreases |path|
  {
    var key := path[0];
    StopPlace(h, places, root, n, path);
    FirstStepLeadsToStop(places[n], path, places[stop.node], stop.rest);
    FrameSiblings(h, h', places, root, stop.node, stop.rest[0], x, n, f, key);
    if |path| == 1 || key !in h[n] || h[n][key] == Imm(Null) {
      SetAtStop(f, path, value);
      Rebuilt(h', n, f, key, Nest(path[1..], value));
    } else {
      var m := h[n][key].node;
      assert Denotes(h, h[n][key], f[key]);
      WalkEntersTree(h, places, root, n, path);
      TreeWrite(h, h', places, root, m, f[key].fields, path[1..], stop, x, value);
      Rebuilt(h', n, f, key, Obj(Set(f[key].fields, path[1..], value).value));
    }
  }

  lemma WalkEntersTree(h: Heap, places: Places, root: GoMap, n: GoMap, path: Path)
    requires IsTree(h, places, root) && n in places && |path| > 1
    requires path[0] in h[n] && h[n][path[0]].Ref?
    requires StopAt(h, n, path).Writes? && StopAt(h, n, path).node in places
    ensures h[n][path[0]].node in places && StopAt(h, n, path).node != n
  {
    var m := h[n][path[0]].node;
    if m !in places {
      StopsOutside(h, places, root, m, path[1..]);
    }
    assert path[0] in h[n] && places[m] == places[n] + [path[0]];
    StopPlace(h, places, root, m, path[1..]);
  }

  /** The document's own maps form a tree, and wherever it points outside that tree it points to what the resource has
      at the same path. */
  ghost predicate Shares(h: Heap, places: Places, source: GoMap, resource: GoMap) {
    IsTree(h, places, source) && resource in h && resource !in places && Aligned(h, places, resource)
  }

  ghost predicate Aligned(h: Heap, places: Places, resource: GoMap)
    requires places.Keys <= h.Keys
  {
    forall n, k | n in places && k in h[n] && h[n][k].Ref? && h[n][k].node !in places ::
      Find(h, Ref(resource), places[n] + [k]) == Some(h[n][k])
  }

  /** The maps outside the tree are untouched. */
  ghost predicate SameOutside(h: Heap, h': Heap, places: Places) {
    h.Keys <= h'.Keys && forall n | n in h && n !in places :: h'[n] == h[n]
  }

  lemma {:induction false} FindOutside(h: Heap, h': Heap, places: Places, root: GoMap, v: GoValue, path: Path)
    requires IsTree(h, places, root) && SameOutside(h, h', places)
    requires v.Ref? ==> v.node in h && v.node !in places
    ensures Find(h', v, path) == Find(h, v, path)
    decreases |path|
  {
    if path != [] && v.Ref? && path[0] in h[v.node] {
      FindOutside(h, h', places, root, h[v.node][path[0]], path[1..]);
    }
  }

  lemma {:induction false} DenotesOutside(h: Heap, h': Heap, places: Places, root: GoMap, v: GoValue, j: Json)
    requires IsTree(h, places, root) && SameOutside(h, h', places)
    requires v.Ref? ==> v.node in h && v.node !in places
    requires Denotes(h, v, j)
    ensures Denotes(h', v, j)
    decreases j
  {
    if j.Obj? {
      forall k | k in j.fields ensures Denotes(h', h'[v.node][k], j.fields[k]) {
        assert k in h[v.node];
        DenotesOutside(h, h', places, root, h[v.node][k], j.fields[k]);
      }
    }
  }

  /** A write of a found value whose walk is outside the tree assigns the value that is there. */
  lemma {:induction false} WalkOfFound(h: Heap, n: GoMap, path: Path, value: GoValue)
    requires Closed(h) && n in h && path != [] && Find(h, Ref(n), path) == Some(value)
    ensures var stop := StopAt(h, n, path);
      stop.Writes? && stop.node in h && |stop.rest| == 1 && stop.rest[0] in h[stop.node] &&
      h[stop.node][stop.rest[0]] == value
    decreases |path|
  {
    if |path| == 1 {
      assert path[1..] == [];
    } else {
      assert h[n][path[0]].Ref? by {
        assert path[1..] != [];
      }
      WalkOfFound(h, h[n][path[0]].node, path[1..], value);
    }
  }

  /** The same, when the walk starts inside the tree and leaves it. */
  lemma {:induction false} WalkLeavesTree(h: Heap, places: Places, source: GoMap, resource: GoMap, n: GoMap,
                                          path: Path, value: GoValue)
    requires Shares(h, places, source, resource) && n in places && path != []
    requires Find(h, Ref(resource), places[n] + path) == Some(value)
    requires StopAt(h, n, path).Writes? && StopAt(h, n, path).node !in places
    ensures Find(h, Ref(n), path) == Some(value)
    decreases |path|
  {
    var m := h[n][path[0]].node;
    assert path[0] in h[n];
    assert path == [path[0]] + path[1..];
    assert places[n] + path == (places[n] + [path[0]]) + path[1..];
    if m in places {
      assert places[m] == places[n] + [path[0]];
      WalkLeavesTree(h, places, source, resource, m, path[1..], value);
    } else {
      FindInTwo(h, Ref(resource), places[n] + [path[0]], path[1..]);
    }
  }

  /** The places of a chain of new maps that hangs below base along path. */
  ghost function ChainPlaces(made: seq<GoMap>, base: Path, path: Path): (p: Places)
    requires |made| <= |path|
    requires forall a, b | 0 <= a < b < |made| :: made[a] != made[b]
    ensures p.Keys == Maps(made)
    ensures forall i | 0 <= i < |made| :: p[made[i]] == base + path[..i + 1]
  {
    if made == [] then map[]
    else
      var n := |made| - 1;
      ChainPlaces(made[..n], base, path)[made[n] := base + path[..n + 1]]
  }

  /** The heap after a write into map c of the tree: one entry of c leads to a chain of new maps that ends at value. */
  ghost predicate Grown(h: Heap, h': Heap, c: GoMap, rest: Path, made: seq<GoMap>, value: GoValue) {
    rest != [] && OneWrite(h, h', c, rest[0], Link(made, 0, value)) &&
    Chain(h', made, rest[1..], value) && Maps(made) !! h.Keys && h'.Keys == h.Keys + Maps(made)
  }

  ghost function GrownPlaces(places: Places, c: GoMap, rest: Path, made: seq<GoMap>): Places
    requires c in places && |made| <= |rest|
    requires forall a, b | 0 <= a < b < |made| :: made[a] != made[b]
  {
    places + ChainPlaces(made, places[c], rest)
  }

  /** Entry k of map n, which holds the reference x: a map of the tree is at its place, anything else is either old or
      the written value at the written path. */
  ghost predicate Placed(h: Heap, places: Places, places': Places, n: GoMap, k: string, x: GoValue, value: GoValue,
                         path: Path)
    requires x.Ref? && n in places'
  {
    if x.node in places' then places'[x.node] == places'[n] + [k]
    else (n in h && n in places && k in h[n] && h[n][k] == x) || (x == value && places'[n] + [k] == path)
  }

  lemma NextPlace(places: Places, c: GoMap, rest: Path, made: seq<GoMap>, i: nat)
    requires c in places && |rest| == |made| + 1 && i < |made|
    requires forall a, b | 0 <= a < b < |made| :: made[a] != made[b]
    ensures var places' := GrownPlaces(places, c, rest, made);
      made[i] in places' &&
      if i + 1 < |made| then made[i + 1] in places' && places'[made[i + 1]] == places'[made[i]] + [rest[i + 1]]
      else places'[made[i]] + [rest[i + 1]] == places[c] + rest
  {
    hide ChainPlaces;
    assert rest[..i + 1] + [rest[i + 1]] == rest[..i + 2];
    assert rest[..|rest|] == rest;
    assert (places[c] + rest[..i + 1]) + [rest[i + 1]] == places[c] + rest[..i + 2];
    assert made[i] in Maps(made);
    assert i + 1 < |made| ==> made[i + 1] in Maps(made);
  }

  lemma ChainEntryPlaced(h: Heap, h': Heap, places: Places, c: GoMap, rest: Path, made: seq<GoMap>, value: GoValue,
                         i: nat, k: string)
    requires c in places && places.Keys <= h.Keys && Grown(h, h', c, rest, made, value)
    requires value.Ref? ==> value.node in h && value.node !in places
    requires i < |made| && k in h'[made[i]] && h'[made[i]][k].Ref?
    ensures h'[made[i]][k].node in h'
    ensures Placed(h, places, GrownPlaces(places, c, rest, made), made[i], k, h'[made[i]][k], value, places[c] + rest)
  {
    assert k == rest[1..][i] == rest[i + 1] && h'[made[i]][k] == Link(made, i + 1, value);
    NextPlace(places, c, rest, made, i);
    hide GrownPlaces;
    hide ChainPlaces;
    if i + 1 == |made| && value.Ref? {
      assert value.node !in Maps(made);
    }
  }

  lemma FirstEntryPlaced(h: Heap, h': Heap, places: Places, c: GoMap, rest: Path, made: seq<GoMap>, value: GoValue)
    requires c in places && places.Keys <= h.Keys && Grown(h, h', c, rest, made, value)
    requires value.Ref? ==> value.node in h && value.node !in places
    requires Link(made, 0, value).Ref?
    ensures Link(made, 0, value).node in h'
    ensures Placed(h, places, GrownPlaces(places, c, rest, made), c, rest[0], Link(made, 0, value), value,
      places[c] + rest)
  {
    assert rest[..1] == [rest[0]];
    if made == [] {
      assert rest == [rest[0]];
    }
  }

  lemma GrownEntry(h: Heap, h': Heap, places: Places, root: GoMap, c: GoMap, rest: Path, made: seq<GoMap>,
                   value: GoValue, n: GoMap, k: string)
    requires IsTree(h, places, root) && c in places && Grown(h, h', c, rest, made, value)
    requires value.Ref? ==> value.node in h && value.node !in places
    requires n in GrownPlaces(places, c, rest, made) && k in h'[n] && h'[n][k].Ref?
    ensures h'[n][k].node in h'
    ensures Placed(h, places, GrownPlaces(places, c, rest, made), n, k, h'[n][k], value, places[c] + rest)
  {
    if n in Maps(made) {
      var i :| 0 <= i < |made| && made[i] == n;
      ChainEntryPlaced(h, h', places, c, rest, made, value, i, k);
    } else if n == c && k == rest[0] {
      FirstEntryPlaced(h, h', places, c, rest, made, value);
    } else {
      assert k in h[n] && h'[n][k] == h[n][k];
    }
  }

  lemma GrownIsTree(h: Heap, h': Heap, places: Places, root: GoMap, c: GoMap, rest: Path, made: seq<GoMap>,
                    value: GoValue)
    requires IsTree(h, places, root) && c in places && Grown(h, h', c, rest, made, value)
    requires value.Ref? ==> value.node in h && value.node !in places
    ensures IsTree(h', GrownPlaces(places, c, rest, made), root) && SameOutside(h, h', places)
  {
    var places' := GrownPlaces(places, c, rest, made);
    assert places'.Keys == places.Keys + Maps(made);
    forall n, k | n in places' && k in h'[n] && h'[n][k].Ref?
      ensures h'[n][k].node in h' && (h'[n][k].node in places' ==> places'[h'[n][k].node] == places'[n] + [k])
    {
      GrownEntry(h, h', places, root, c, rest, made, value, n, k);
    }
    forall n, k | n in h' && n !in places' && k in h'[n] && h'[n][k].Ref?
      ensures h'[n][k].node in h' && h'[n][k].node !in places'
    {
      assert n in h && k in h[n] && h[n][k] == h'[n][k];
    }
  }

  lemma GrownIsAligned(h: Heap, h': Heap, places: Places, source: GoMap, resource: GoMap, c: GoMap, rest: Path,
                       made: seq<GoMap>, value: GoValue)
    requires Shares(h, places, source, resource) && c in places && Grown(h, h', c, rest, made, value)
    requires Find(h, Ref(resource), places[c] + rest) == Some(value)
    requires value.Ref? ==> value.node in h && value.node !in places
    ensures Shares(h', GrownPlaces(places, c, rest, made), source, resource)
  {
    var places' := GrownPlaces(places, c, rest, made);
    GrownIsTree(h, h', places, source, c, rest, made, value);
    assert resource !in places';
    forall n, k | n in places' && k in h'[n] && h'[n][k].Ref? && h'[n][k].node !in places'
      ensures Find(h', Ref(resource), places'[n] + [k]) == Some(h'[n][k])
    {
      GrownEntry(h, h', places, source, c, rest, made, value, n, k);
      FindOutside(h, h', places, source, Ref(resource), places'[n] + [k]);
      if !(h'[n][k] == value && places'[n] + [k] == places[c] + rest) {
        assert places'[n] == places[n];
      }
    }
  }

  lemma {:induction false} FindIsOutside(h: Heap, places: Places, root: GoMap, v: GoValue, path: Path)
    requires IsTree(h, places, root) && (v.Ref? ==> v.node in h && v.node !in places)
    ensures var found := Find(h, v, path); found.Some? && found.value.Ref? ==>
      found.value.node in h && found.value.node !in places
    decreases |path|
  {
    if path != [] && v.Ref? && path[0] in h[v.node] {
      FindIsOutside(h, places, root, h[v.node][path[0]], path[1..]);
    }
  }

  /** Writing a value of the resource at its own path: the document's value changes by Set, the resource's maps do not
      change at all, and the two still share only what agrees. */
  lemma WriteOnShared(h: Heap, places: Places, source: GoMap, resource: GoMap, f: Fields, path: Path, value: GoValue,
                      j: Json, now: Heap, news: Heap, made: seq<GoMap>, conflict: Option<Conflict>)
    returns (places': Places)
    requires Shares(h, places, source, resource) && Denotes(h, Ref(source), Obj(f))
    requires path != [] && Find(h, Ref(resource), path) == Some(value) && Denotes(h, value, j)
    requires Written(h, StopAt(h, source, path), value, now, news, made, conflict) && news.Keys !! h.Keys
    ensures Set(f, path, j).Err? <==> conflict.Some?
    ensures conflict.Some? ==> Set(f, path, j) == Err(conflict.value)
    ensures Shares(now + news, places', source, resource) && SameOutside(h, now + news, places)
    ensures places.Keys <= places'.Keys && places'.Keys !! (h.Keys - places.Keys)
    ensures Denotes(now + news, Ref(source), Obj(if conflict.None? then Set(f, path, j).value else f))
  {
    var stop, h' := StopAt(h, source, path), now + news;
    StopIsConflict(h, source, f, path, j);
    places' := places;
    if conflict.Some? {
      assert h' == h;
    } else if stop.node in places {
      places' := WriteInside(h, places, source, resource, f, path, value, j, now, news, made);
    } else {
      WriteOutside(h, places, source, resource, f, path, value, j, now, news, made);
    }
  }

  lemma WriteOutside(h: Heap, places: Places, source: GoMap, resource: GoMap, f: Fields, path: Path, value: GoValue,
                     j: Json, now: Heap, news: Heap, made: seq<GoMap>)
    requires Shares(h, places, source, resource) && Denotes(h, Ref(source), Obj(f))
    requires path != [] && Find(h, Ref(resource), path) == Some(value) && Denotes(h, value, j)
    requires Written(h, StopAt(h, source, path), value, now, news, made, None)
    requires StopAt(h, source, path).node !in places
    ensures now + news == h && Set(f, path, j) == Ok(f)
  {
    assert places[source] + path == path;
    WalkLeavesTree(h, places, source, resource, source, path, value);
    WalkOfFound(h, source, path, value);
    assert made == [] && news == map[];
    var stop := StopAt(h, source, path);
    assert h[stop.node][stop.rest[0] := value] == h[stop.node];
    FindDenotes(h, Ref(source), Obj(f), path);
    DenotesOne(h, value, j, Lookup(Obj(f), path).value);
    SetOfLookup(f, path);
  }

  lemma WrittenIsGrown(h: Heap, stop: Stop, value: GoValue, now: Heap, news: Heap, made: seq<GoMap>)
    requires stop.Writes? && Written(h, stop, value, now, news, made, None) && news.Keys !! h.Keys
    ensures Grown(h, now + news, stop.node, stop.rest, made, value)
  {
    hide Chain;
    var h' := now + news;
    assert h'.Keys == h.Keys + Maps(made);
    ChainInMore(news, h', made, stop.rest[1..], value);
  }

  lemma ChainInMore(h: Heap, h': Heap, made: seq<GoMap>, keys: Path, value: GoValue)
    requires Chain(h, made, keys, value)
    requires forall m | m in Maps(made) :: m in h' && m in h && h'[m] == h[m]
    ensures Chain(h', made, keys, value)
  {
    assert forall i | 0 <= i < |made| :: made[i] in Maps(made);
  }

  lemma WriteInside(h: Heap, places: Places, source: GoMap, resource: GoMap, f: Fields, path: Path, value: GoValue,
                    j: Json, now: Heap, news: Heap, made: seq<GoMap>) returns (places': Places)
    requires Shares(h, places, source, resource) && Denotes(h, Ref(source), Obj(f))
    requires path != [] && Find(h, Ref(resource), path) == Some(value) && Denotes(h, value, j)
    requires Written(h, StopAt(h, source, path), value, now, news, made, None) && news.Keys !! h.Keys
    requires StopAt(h, source, path).node in places
    ensures Set(f, path, j).Ok? && Denotes(now + news, Ref(source), Obj(Set(f, path, j).value))
    ensures Shares(now + news, places', source, resource) && SameOutside(h, now + news, places)
    ensures places.Keys <= places'.Keys && places'.Keys !! (h.Keys - places.Keys)
  {
    var stop, h' := StopAt(h, source, path), now + news;
    FindIsOutside(h, places, source, Ref(resource), path);
    StopPlace(h, places, source, source, path);
    assert places[source] + path == path;
    WrittenIsGrown(h, stop, value, now, news, made);
    hide Written, StopAt, IsTree, Aligned, Denotes, GrownPlaces, ChainPlaces, Find, Set, Nest;
    places' := GrownPlaces(places, stop.node, stop.rest, made);
    GrownIsAligned(h, h', places, source, resource, stop.node, stop.rest, made, value);
    GrownIsTree(h, h', places, source, stop.node, stop.rest, made, value);
    DenotesOutside(h, h', places, source, value, j);
    ChainDenotes(h', made, stop.rest[1..], value, j);
    TreeWrite(h, h', places, source, source, f, path, stop, Link(made, 0, value), j);
  }

  ghost function FieldOf(h: Heap, obj: GoMap, fieldPath: string): Option<GoValue> {
    if Segments(fieldPath) == [] then None else Find(h, Ref(obj), Segments(fieldPath))
  }

  /** out holds the fields of obj at the listed paths, by reference. */
  ghost predicate Collected(h: Heap, obj: GoMap, fieldPaths: seq<string>, out: map<string, GoValue>) {
    (forall p | p in out :: p in fieldPaths && FieldOf(h, obj, p) == Some(out[p])) &&
    (forall p | p in fieldPaths && FieldOf(h, obj, p).Some? :: p in out)
  }

  /** extractConfiguredFields. */
  method ExtractConfiguredFields(obj: GoMap, fieldPaths: seq<string>, ghost nodes: set<GoMap>)
    returns (out: map<string, GoValue>)
    requires obj in nodes && Closed(Snap(nodes))
    ensures Collected(Snap(nodes), obj, fieldPaths, out)
  {
    hide Snap, Find, Segments, Closed;
    out := map[];
    for i := 0 to |fieldPaths|
      invariant Collected(Snap(nodes), obj, fieldPaths[..i], out)
    {
      assert fieldPaths[..i + 1] == fieldPaths[..i] + [fieldPaths[i]];
      var value, ok := LookupFieldPath(obj, fieldPaths[i], nodes);
      if ok {
        out := out[fieldPaths[i] := value];
      }
    }
    assert fieldPaths[..|fieldPaths|] == fieldPaths;
  }

  /** What is collected by reference stands for what the resource's value has. */
  lemma CollectedDenotes(h: Heap, obj: GoMap, fieldPaths: seq<string>, out: map<string, GoValue>, r: Fields)
    requires Collected(h, obj, fieldPaths, out) && Denotes(h, Ref(obj), Obj(r))
    ensures out.Keys == Configured(r, fieldPaths).Keys
    ensures forall p | p in out :: Segments(p) != [] && Denotes(h, out[p], Configured(r, fieldPaths)[p])
  {
    forall p | p in fieldPaths
      ensures FieldOf(h, obj, p).Some? <==> LookupField(r, p).Some?
      ensures FieldOf(h, obj, p).Some? ==> Denotes(h, FieldOf(h, obj, p).value, LookupField(r, p).value)
    {
      FindDenotes(h, Ref(obj), Obj(r), Segments(p));
    }
  }

  /** One run of buildDocumentSource: the heap at its start, the document's own maps, the two roots, their values, and
      the collected fields. */
  datatype Job = Job(h: Heap, places: Places, source: GoMap, resource: GoMap, doc: Fields, r: Fields,
                     fieldPaths: seq<string>, configured: map<string, GoValue>)
  {
    ghost predicate Valid() {
      Shares(h, places, source, resource) && Denotes(h, Ref(source), Obj(doc)) && Denotes(h, Ref(resource), Obj(r)) &&
      Collected(h, resource, fieldPaths, configured)
    }

    ghost function Fields(): map<string, Json> {
      Configured(r, fieldPaths)
    }

    /** The state of the loop after writing the fields in done: the document's value is g. */
    ghost predicate Building(now: Heap, own: Places, done: seq<string>, g: Fields) {
      SameOutside(h, now, places) && Shares(now, own, source, resource) &&
      places.Keys <= own.Keys && own.Keys !! (h.Keys - places.Keys) &&
      Denotes(now, Ref(source), Obj(g)) && Denotes(now, Ref(resource), Obj(r)) &&
        Collected(now, resource, fieldPaths, configured) &&
      (forall p | p in done :: p in Fields()) && WriteAll(doc, Fields(), done) == Ok(g)
    }
  }

  lemma StillCollected(h: Heap, h': Heap, places: Places, source: GoMap, resource: GoMap, fieldPaths: seq<string>,
                       configured: map<string, GoValue>)
    requires IsTree(h, places, source) && resource in h && resource !in places && SameOutside(h, h', places)
    requires Collected(h, resource, fieldPaths, configured)
    ensures Collected(h', resource, fieldPaths, configured)
  {
    forall p ensures FieldOf(h', resource, p) == FieldOf(h, resource, p) {
      FindOutside(h, h', places, source, Ref(resource), Segments(p));
    }
  }

  lemma BuildingFacts(job: Job, now: Heap, own: Places, done: seq<string>, g: Fields)
    requires job.Building(now, own, done, g)
    ensures Closed(now) && job.source in now && SameOutside(job.h, now, job.places)
    ensures job.configured.Keys == job.Fields().Keys
    ensures forall p | p in job.configured :: Segments(p) != []
    ensures WriteAll(job.doc, job.Fields(), done) == Ok(g) && Denotes(now, Ref(job.source), Obj(g))
  {
    CollectedDenotes(now, job.resource, job.fieldPaths, job.configured, job.r);
  }

  /** One turn of the loop, on contents. */
  lemma BuildsOneMore(job: Job, h: Heap, own: Places, done: seq<string>, g: Fields,
                      p: string, now: Heap, news: Heap, made: seq<GoMap>, conflict: Option<Conflict>)
    returns (own': Places, g': Fields)
    requires job.Building(h, own, done, g) && p in job.configured
    requires Written(h, StopAt(h, job.source, Segments(p)), job.configured[p], now, news, made, conflict) &&
      news.Keys !! h.Keys
    ensures p in job.Fields()
    ensures conflict.Some? ==>
      WriteAll(job.doc, job.Fields(), done + [p]) == Err(conflict.value) && SameOutside(job.h, now + news, job.places)
    ensures conflict.None? ==> job.Building(now + news, own', done + [p], g')
  {
    var fields := job.Fields();
    CollectedDenotes(h, job.resource, job.fieldPaths, job.configured, job.r);
    WriteAllOfSnoc(job.doc, fields, done, p);
    own' := WriteOnShared(h, own, job.source, job.resource, g, Segments(p), job.configured[p], fields[p], now, news,
      made, conflict);
    g' := if conflict.None? then Set(g, Segments(p), fields[p]).value else g;
    DenotesOutside(h, now + news, own, job.source, Ref(job.resource), Obj(job.r));
    StillCollected(h, now + news, own, job.source, job.resource, job.fieldPaths, job.configured);
  }

  /** A range over a map that has visited order and still has left to visit. */
  ghost predicate Visiting(keys: set<string>, left: set<string>, order: seq<string>) {
    left <= keys && (forall p | p in order :: p in keys && p !in left) &&
    (forall p | p in keys && p !in left :: p in order) &&
    (forall a, b | 0 <= a < b < |order| :: order[a] != order[b])
  }

  lemma BuildingStarts(job: Job)
    requires job.Valid()
    ensures job.Building(job.h, job.places, [], job.doc)
    ensures Visiting(job.configured.Keys, job.configured.Keys, [])
  {
  }

  lemma VisitsOneMore(keys: set<string>, left: set<string>, order: seq<string>, p: string)
    requires Visiting(keys, left, order) && p in left
    ensures Visiting(keys, left - {p}, order + [p])
  {
    assert p !in order;
  }

  /** A run that ended: after a conflict at the last visited field, or after visiting all of them. */
  ghost predicate Ended(job: Job, now: Heap, order: seq<string>, conflict: Option<Conflict>, g: Fields) {
    SameOutside(job.h, now, job.places) &&
    (forall p | p in order :: p in job.Fields()) && (forall a, b | 0 <= a < b < |order| :: order[a] != order[b]) &&
    WriteAll(job.doc, job.Fields(), order) == (if conflict.Some? then Err(conflict.value) else Ok(g)) &&
    (conflict.None? ==> IsOrder(job.Fields(), order) && Denotes(now, Ref(job.source), Obj(g)))
  }

  lemma EndsAfterAll(job: Job, now: Heap, own: Places, order: seq<string>, g: Fields)
    requires job.Building(now, own, order, g) && Visiting(job.configured.Keys, {}, order)
    ensures Ended(job, now, order, None, g)
  {
    BuildingFacts(job, now, own, order, g);
  }

  lemma EndsAtConflict(job: Job, now: Heap, done: seq<string>, p: string, left: set<string>,
                       conflict: Option<Conflict>, g: Fields)
    requires conflict.Some? && Visiting(job.configured.Keys, left, done + [p]) &&
      job.configured.Keys == job.Fields().Keys
    requires p in job.Fields() && (forall q | q in done :: q in job.Fields())
    requires WriteAll(job.doc, job.Fields(), done + [p]) == Err(conflict.value) && SameOutside(job.h, now, job.places)
    ensures Ended(job, now, done + [p], conflict, g)
  {
  }

  /** One turn of the loop. */
  method WriteField(source: GoMap, fieldPath: string, value: GoValue, ghost all: set<GoMap>, ghost job: Job,
                    ghost own: Places, ghost done: seq<string>, ghost g: Fields, ghost left: set<string>)
    returns (conflict: Option<Conflict>, ghost all': set<GoMap>, ghost own': Places, ghost g': Fields)
    requires job.Building(Snap(all), own, done, g) && source == job.source
    requires fieldPath in job.configured && value == job.configured[fieldPath]
    requires Visiting(job.configured.Keys, left, done + [fieldPath])
    modifies all
    ensures all <= all' && fresh(all' - all)
    ensures conflict.Some? ==> Ended(job, Snap(all'), done + [fieldPath], conflict, g')
    ensures conflict.None? ==> job.Building(Snap(all'), own', done + [fieldPath], g')
  {
    ghost var before := Snap(all);
    BuildingFacts(job, before, own, done, g);
    ghost var made, news;
    hide *;
    conflict, made, news := SetFieldPath(source, fieldPath, value, all);
    own', g' := BuildsOneMore(job, before, own, done, g, fieldPath, Snap(all), Snap(news), made, conflict);
    SnapOfTwo(all, news);
    all' := all + news;
    if conflict.Some? {
      EndsAtConflict(job, Snap(all'), done, fieldPath, left, conflict, g');
    }
  }

  /** The loop of buildDocumentSource, over the decoded document, in whatever order the range takes the map. It stops
      at the first conflict. Whatever the order, nothing outside the document's own maps changes. */
  method WriteConfigured(source: GoMap, configured: map<string, GoValue>, ghost nodes: set<GoMap>, ghost job: Job)
    returns (conflict: Option<Conflict>, ghost order: seq<string>, ghost all: set<GoMap>, ghost g: Fields)
    requires job.Valid() && job.h == Snap(nodes) && job.source == source && job.configured == configured
    modifies nodes
    ensures nodes <= all && fresh(all - nodes)
    ensures Ended(job, Snap(all), order, conflict, g)
  {
    hide *;
    ghost var own := job.places;
    order, all, g := [], nodes, job.doc;
    BuildingStarts(job);
    var left := configured.Keys;
    while left != {}
      invariant nodes <= all && fresh(all - nodes)
      invariant left <= configured.Keys && Visiting(configured.Keys, left, order)
      invariant job.Building(Snap(all), own, order, g)
      decreases left
    {
      var fieldPath :| fieldPath in left;
      VisitsOneMore(configured.Keys, left, order, fieldPath);
      ghost var before := order;
      left, order := left - {fieldPath}, order + [fieldPath];
      conflict, all, own, g := WriteField(source, fieldPath, configured[fieldPath], all, job, own, before, g, left);
      if conflict.Some? {
        return conflict, order, all, g;
      }
    }
    EndsAfterAll(job, Snap(all), own, order, g);
    return None, order, all, g;
  }

  /** A newly decoded document beside a resource. */
  lemma NewDocumentShares(h: Heap, below: Heap, places: Places, source: GoMap, resource: GoMap)
    requires Closed(h) && resource in h && h.Keys !! below.Keys
    requires StandsAlone(below, places, Ref(source), [])
    ensures Shares(h + below, places, source, resource)
  {
  }

  lemma JobStarts(h: Heap, below: Heap, job: Job)
    requires Closed(h) && job.resource in h && h.Keys !! below.Keys && job.h == h + below
    requires StandsAlone(below, job.places, Ref(job.source), []) && Denotes(below, Ref(job.source), Obj(job.doc))
    requires Denotes(h, Ref(job.resource), Obj(job.r)) && Collected(h, job.resource, job.fieldPaths, job.configured)
    ensures job.Valid()
  {
    NewDocumentShares(h, below, job.places, job.source, job.resource);
    DenotesInMore(below, job.h, Ref(job.source), Obj(job.doc));
    DenotesInMore(h, job.h, Ref(job.resource), Obj(job.r));
    forall p ensures FieldOf(job.h, job.resource, p) == FieldOf(h, job.resource, p) {
      FindInMore(h, job.h, Ref(job.resource), Segments(p));
    }
  }

  lemma {:induction false} FindInMore(h: Heap, h': Heap, v: GoValue, path: Path)
    requires Closed(h) && (v.Ref? ==> v.node in h)
    requires forall n | n in h :: n in h' && h'[n] == h[n]
    ensures Find(h', v, path) == Find(h, v, path)
    decreases |path|
  {
    if path != [] && v.Ref? && path[0] in h[v.node] {
      FindInMore(h, h', h[v.node][path[0]], path[1..]);
    }
  }

  /** What buildDocumentSource leaves behind, for the order it took: the resource's maps as they were, and the document
      that WriteAll gives for that order, or its conflict. With clear paths that is the overlay. */
  ghost predicate Built(h: Heap, now: Heap, source: GoMap, resource: GoMap, doc: Fields, r: Fields,
                        fieldPaths: seq<string>, order: seq<string>, conflict: Option<Conflict>, g: Fields) {
    h.Keys <= now.Keys && (forall n | n in h :: now[n] == h[n]) && Denotes(now, Ref(resource), Obj(r)) &&
    (forall p | p in order :: p in Configured(r, fieldPaths)) &&
    (forall a, b | 0 <= a < b < |order| :: order[a] != order[b]) &&
    WriteAll(doc, Configured(r, fieldPaths), order) == (if conflict.Some? then Err(conflict.value) else Ok(g)) &&
    (conflict.None? ==> IsOrder(Configured(r, fieldPaths), order) && Denotes(now, Ref(source), Obj(g))) &&
    (AllClear(doc, FoundPaths(r, fieldPaths)) ==>
      conflict.None? && Found(Obj(r), FoundPaths(r, fieldPaths)) &&
      g == Overlay(doc, Obj(r), FoundPaths(r, fieldPaths)))
  }

  lemma JobEnds(h: Heap, job: Job, now: Heap, order: seq<string>, conflict: Option<Conflict>, g: Fields)
    requires job.Valid() && Ended(job, now, order, conflict, g)
    requires h.Keys <= job.h.Keys && h.Keys !! job.places.Keys && forall n | n in h :: job.h[n] == h[n]
    requires Denotes(h, Ref(job.resource), Obj(job.r))
    ensures Built(h, now, job.source, job.resource, job.doc, job.r, job.fieldPaths, order, conflict, g)
  {
    DenotesInMore(h, now, Ref(job.resource), Obj(job.r));
    if AllClear(job.doc, FoundPaths(job.r, job.fieldPaths)) {
      PartOfAnOrderSucceeds(job.doc, job.r, job.fieldPaths, order);
      EveryOrderBuildsTheOverlay(job.doc, job.r, job.fieldPaths, order);
    }
  }

  /** extractConfiguredFields and buildDocumentSource together: decode the marshalled document into new maps and write
      the resource's fields into it. No map that was there before changes, although the document keeps references to
      maps of the resource. */
  method BuildDocument(resource: GoMap, doc: Fields, fieldPaths: seq<string>, ghost nodes: set<GoMap>, ghost r: Fields)
    returns (source: GoMap, conflict: Option<Conflict>, ghost order: seq<string>, ghost all: set<GoMap>,
      ghost g: Fields)
    requires resource in nodes && Closed(Snap(nodes)) && Denotes(Snap(nodes), Ref(resource), Obj(r))
    modifies nodes
    ensures nodes <= all && fresh(all - nodes)
    ensures Built(old(Snap(nodes)), Snap(all), source, resource, doc, r, fieldPaths, order, conflict, g)
  {
    hide *;
    ghost var h := Snap(nodes);
    var configured := ExtractConfiguredFields(resource, fieldPaths, nodes);
    var root;
    ghost var places;
    root, places := Alloc(Obj(doc), []);
    DenotesAMap(Snap(places.Keys), root, doc);
    source := root.node;
    SnapOfTwo(nodes, places.Keys);
    ghost var job := Job(Snap(nodes + places.Keys), places, source, resource, doc, r, fieldPaths, configured);
    JobStarts(h, Snap(places.Keys), job);
    conflict, order, all, g := WriteConfigured(source, configured, nodes + places.Keys, job);
    JobEnds(h, job, Snap(all), order, conflict, g);
  }

  lemma DenotesAMap(h: Heap, v: GoValue, f: Fields)
    requires Denotes(h, v, Obj(f))
    ensures v.Ref?
  {
  }
}
