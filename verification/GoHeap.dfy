/** Go maps on the heap. A map[string]any is a reference; a nested map can be shared between two trees, and both
    in-place writers work by moving a reference down and assigning to single entries. */
module GoHeap {
  import opened Text
  import opened FieldPath
  import opened Json

  /** A map[string]any. */
  class GoMap {
    var entries: map<string, GoValue>

    constructor ()
      ensures entries == map[]
    {
      entries := map[];
    }

    /** m[key] = value. Any two sets of maps see the one assignment. */
    method Assign(key: string, value: GoValue, ghost some: set<GoMap>, ghost others: set<GoMap>)
      modifies this
      ensures entries == old(entries)[key := value]
      ensures Snap(some) == Put(old(Snap(some)), this, entries)
      ensures Snap(others) == Put(old(Snap(others)), this, entries)
    {
      hide Snap;
      entries := entries[key := value];
    }

    /** m[key] = map[string]any{}, as some existing maps and the maps that count as new see it. */
    method AssignEmpty(key: string, ghost some: set<GoMap>, ghost news: set<GoMap>) returns (next: GoMap)
      modifies this
      ensures fresh(next) && next !in some && next !in news
      ensures Snap(some) == Put(old(Snap(some)), this, old(entries)[key := Ref(next)])
      ensures Snap(news + {next}) == Put(old(Snap(news)), this, old(entries)[key := Ref(next)])[next := map[]]
    {
      hide Snap;
      next := new GoMap();
      Assign(key, Ref(next), some, news);
      SnapOfMore(news, next);
    }
  }

  /** A value of type any: a reference to a map, or anything else, which the path code never enters. */
  datatype GoValue = Imm(value: Json) | Ref(node: GoMap)

  type Heap = map<GoMap, map<string, GoValue>>

  /** The contents of some maps at one moment. */
  ghost function Snap(nodes: set<GoMap>): (h: Heap)
    reads nodes
    ensures h.Keys == nodes && forall n | n in nodes :: h[n] == n.entries
  {
    if nodes == {} then map[]
    else
      var n :| n in nodes;
      Snap(nodes - {n})[n := n.entries]
  }

  lemma SnapOfMore(nodes: set<GoMap>, n: GoMap)
    ensures Snap(nodes + {n}) == Snap(nodes)[n := n.entries]
  {
    hide Snap;
  }

  lemma SnapOfTwo(a: set<GoMap>, b: set<GoMap>)
    ensures Snap(a + b) == Snap(a) + Snap(b)
  {
    hide Snap;
  }

  /** The contents h after an assignment to map c, whose entries are now e. */
  ghost function Put(h: Heap, c: GoMap, e: map<string, GoValue>): Heap {
    if c in h then h[c := e] else h
  }

  ghost predicate Closed(h: Heap) {
    forall n, k | n in h && k in h[n] && h[n][k].Ref? :: h[n][k].node in h
  }

  /** In h, v stands for the JSON value j. */
  ghost predicate Denotes(h: Heap, v: GoValue, j: Json)
    decreases j
  {
    match j
    case Obj(f) => v.Ref? && v.node in h && h[v.node].Keys == f.Keys && forall k | k in f ::
      Denotes(h, h[v.node][k], f[k])
    case _ => v == Imm(j)
  }

  /** The reference found by walking down maps. */
  ghost function Find(h: Heap, v: GoValue, path: Path): Option<GoValue>
    decreases |path|
  {
    if path == [] then Some(v)
    else if v.Ref? && v.node in h && path[0] in h[v.node] then Find(h, h[v.node][path[0]], path[1..])
    else None
  }

  lemma {:induction false} DenotesOne(h: Heap, v: GoValue, a: Json, b: Json)
    requires Denotes(h, v, a) && Denotes(h, v, b)
    ensures a == b
    decreases a
  {
    if a.Obj? {
      forall k | k in a.fields ensures a.fields[k] == b.fields[k] {
        DenotesOne(h, h[v.node][k], a.fields[k], b.fields[k]);
      }
    }
  }

  /** Walking references agrees with looking up values. */
  lemma {:induction false} FindDenotes(h: Heap, v: GoValue, j: Json, path: Path)
    requires Denotes(h, v, j)
    ensures Find(h, v, path).Some? <==> Lookup(j, path).Some?
    ensures Find(h, v, path).Some? ==> Denotes(h, Find(h, v, path).value, Lookup(j, path).value)
    decreases |path|
  {
    if path != [] && j.Obj? && path[0] in j.fields {
      FindDenotes(h, h[v.node][path[0]], j.fields[path[0]], path[1..]);
    }
  }

  lemma {:induction false} FindInTwo(h: Heap, v: GoValue, path: Path, more: Path)
    requires Find(h, v, path).Some?
    ensures Find(h, v, path + more) == Find(h, Find(h, v, path).value, more)
    decreases |path|
  {
    if path == [] {
      assert path + more == more;
    } else {
      assert (path + more)[1..] == path[1..] + more;
      FindInTwo(h, h[v.node][path[0]], path[1..], more);
    }
  }

  /** The place of each map of a tree: the path from its root. A map that has no place is outside the tree. */
  type Places = map<GoMap, Path>

  /** Every placed map is reached through its own place only, and the maps outside never point inside. */
  ghost predicate IsTree(h: Heap, places: Places, root: GoMap) {
    Closed(h) &&
    places.Keys <= h.Keys &&
    root in places && places[root] == [] &&
    (forall n, k | n in places && k in h[n] && h[n][k].Ref? && h[n][k].node in places ::
      places[h[n][k].node] == places[n] + [k]) &&
    (forall n, k | n in h && n !in places && k in h[n] && h[n][k].Ref? :: h[n][k].node !in places)
  }

  /** h' differs from h at one entry of one map and by maps that h does not have. */
  ghost predicate OneWrite(h: Heap, h': Heap, c: GoMap, key: string, x: GoValue) {
    c in h && h.Keys <= h'.Keys &&
    (forall n | n in h && n != c :: h'[n] == h[n]) &&
    h'[c] == h[c][key := x]
  }

  /** A write is not seen from a value that cannot reach the written map. */
  lemma {:induction false} Frame(h: Heap, h': Heap, places: Places, root: GoMap, c: GoMap, key: string, x: GoValue,
                                 v: GoValue, j: Json)
    requires IsTree(h, places, root) && OneWrite(h, h', c, key, x) && c in places
    requires v.Ref? && v.node in places ==> !(places[v.node] <= places[c])
    requires Denotes(h, v, j)
    ensures Denotes(h', v, j)
    decreases j
  {
    if j.Obj? {
      assert v.node != c;
      forall k | k in j.fields ensures Denotes(h', h'[v.node][k], j.fields[k]) {
        var child := h[v.node][k];
        if v.node in places && child.Ref? && child.node in places {
          assert k in h[v.node] && places[child.node] == places[v.node] + [k];
        }
        Frame(h, h', places, root, c, key, x, child, j.fields[k]);
      }
    }
  }

  /** A map whose entry at key is j and whose other entries are those of f. */
  lemma Rebuilt(h: Heap, n: GoMap, f: Fields, key: string, j: Json)
    requires n in h && h[n].Keys == f.Keys + {key}
    requires forall k | k in f && k != key :: k in h[n] && Denotes(h, h[n][k], f[k])
    requires Denotes(h, h[n][key], j)
    ensures Denotes(h, Ref(n), Obj(f[key := j]))
  {
  }

  /** The entry under one key, and the maps it can reach, change together with the write; the rest of the map does
      not. */
  lemma FrameSiblings(h: Heap, h': Heap, places: Places, root: GoMap, c: GoMap, key: string, x: GoValue, n: GoMap,
                      f: Fields, at: string)
    requires IsTree(h, places, root) && OneWrite(h, h', c, key, x) && c in places
    requires n in places && places[n] + [at] <= places[c] + [key]
    requires Denotes(h, Ref(n), Obj(f))
    ensures forall k | k in f && k != at :: k in h'[n] && Denotes(h', h'[n][k], f[k])
  {
    forall k | k in f && k != at ensures k in h'[n] && Denotes(h', h'[n][k], f[k]) {
      var child := h[n][k];
      if n == c {
        assert at == key by {
          assert (places[n] + [at])[|places[n]|] == (places[c] + [key])[|places[c]|];
        }
      }
      if child.Ref? && child.node in places {
        assert k in h[n] && places[child.node] == places[n] + [k];
        assert !(places[child.node] <= places[c]) by {
          assert (places[n] + [at])[|places[n]|] == at && (places[n] + [k])[|places[n]|] == k;
        }
      }
      Frame(h, h', places, root, c, key, x, child, f[k]);
    }
  }

  lemma {:induction false} DenotesInMore(h: Heap, h': Heap, v: GoValue, j: Json)
    requires forall n | n in h :: n in h' && h'[n] == h[n]
    requires Denotes(h, v, j)
    ensures Denotes(h', v, j)
    decreases j
  {
    if j.Obj? {
      forall k | k in j.fields ensures Denotes(h', h'[v.node][k], j.fields[k]) {
        DenotesInMore(h, h', h[v.node][k], j.fields[k]);
      }
    }
  }

  /** A value whose maps are exactly the placed ones, standing at the path at. */
  ghost predicate StandsAlone(h: Heap, places: Places, v: GoValue, at: Path) {
    h.Keys == places.Keys && EachInPlace(h, places) && (v.Ref? ==> v.node in places && places[v.node] == at)
  }

  ghost predicate EachInPlace(h: Heap, places: Places) {
    forall n, k | n in h && n in places && k in h[n] && h[n][k].Ref? ::
      h[n][k].node in places && places[h[n][k].node] == places[n] + [k]
  }

  /** Entries that are filled one key at a time, each with a value that stands alone at its own path. */
  ghost predicate Filled(h: Heap, places: Places, e: map<string, GoValue>, f: Fields, at: Path) {
    h.Keys == places.Keys && EachInPlace(h, places) && e.Keys <= f.Keys &&
    forall k | k in e :: Denotes(h, e[k], f[k]) && (e[k].Ref? ==> e[k].node in places && places[e[k].node] == at + [k])
  }

  lemma FillOneMore(h: Heap, places: Places, e: map<string, GoValue>, f: Fields, at: Path, k: string, h1: Heap,
                    places1: Places, v: GoValue)
    requires Filled(h, places, e, f, at) && k in f
    requires StandsAlone(h1, places1, v, at + [k]) && Denotes(h1, v, f[k]) && h.Keys !! h1.Keys
    ensures Filled(h + h1, places + places1, e[k := v], f, at)
  {
    forall x | x in e ensures Denotes(h + h1, e[x], f[x]) {
      DenotesInMore(h, h + h1, e[x], f[x]);
    }
    DenotesInMore(h1, h + h1, v, f[k]);
  }

  lemma FillAll(h: Heap, places: Places, e: map<string, GoValue>, f: Fields, at: Path, node: GoMap)
    requires Filled(h, places, e, f, at) && e.Keys == f.Keys && node !in h
    ensures StandsAlone(h[node := e], places[node := at], Ref(node), at) && Denotes(h[node := e], Ref(node), Obj(f))
  {
    forall k | k in e ensures Denotes(h[node := e], e[k], f[k]) {
      DenotesInMore(h, h[node := e], e[k], f[k]);
    }
  }

  lemma FillNothing(f: Fields, at: Path)
    ensures Filled(map[], map[], map[], f, at)
  {
  }

  lemma ScalarStands(j: Json, at: Path)
    requires !j.Obj?
    ensures StandsAlone(map[], map[], Imm(j), at) && Denotes(map[], Imm(j), j)
  {
  }

  /** One more entry of a map that is being filled. */
  method FillEntry(node: GoMap, k: string, child: GoValue, f: Fields, ghost at: Path, ghost places: Places,
                   ghost below: Places)
    returns (ghost places': Places)
    requires node !in places && node !in below && k in f && places.Keys !! below.Keys
    requires Filled(Snap(places.Keys), places, node.entries, f, at)
    requires StandsAlone(Snap(below.Keys), below, child, at + [k]) && Denotes(Snap(below.Keys), child, f[k])
    modifies node
    ensures node.entries == old(node.entries)[k := child] && places' == places + below
    ensures Filled(Snap(places'.Keys), places', node.entries, f, at)
  {
    hide *;
    FillOneMore(Snap(places.Keys), places, node.entries, f, at, k, Snap(below.Keys), below, child);
    SnapOfTwo(places.Keys, below.Keys);
    PutElsewhere(Snap(places.Keys + below.Keys), node, node.entries[k := child]);
    node.Assign(k, child, places.Keys + below.Keys, {});
    places' := places + below;
    assert places'.Keys == places.Keys + below.Keys;
  }

  lemma PutElsewhere(h: Heap, c: GoMap, e: map<string, GoValue>)
    requires c !in h
    ensures Put(h, c, e) == h
  {
  }

  /** The allocation of a map literal or of decoded JSON: new maps, each reached through one path. */
  method Alloc(j: Json, ghost at: Path) returns (v: GoValue, ghost places: Places)
    ensures fresh(places.Keys) && StandsAlone(Snap(places.Keys), places, v, at) && Denotes(Snap(places.Keys), v, j)
    decreases j
  {
    hide *;
    if !j.Obj? {
      ScalarStands(j, at);
      return Imm(j), map[];
    }
    FillNothing(j.fields, at);
    var node := new GoMap();
    places := map[];
    var left := j.fields.Keys;
    while left != {}
      invariant fresh(places.Keys) && fresh(node) && node !in places
      invariant left <= j.fields.Keys && node.entries.Keys == j.fields.Keys - left
      invariant Filled(Snap(places.Keys), places, node.entries, j.fields, at)
      decreases left
    {
      var k :| k in left;
      left := left - {k};
      var child;
      ghost var below;
      child, below := Alloc(j.fields[k], at + [k]);
      places := FillEntry(node, k, child, j.fields, at, places, below);
    }
    FillAll(Snap(places.Keys), places, node.entries, j.fields, at, node);
    SnapOfMore(places.Keys, node);
    places := places[node := at];
    v := Ref(node);
  }
}
