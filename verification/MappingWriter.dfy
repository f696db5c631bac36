/** addSemanticFieldMapping and DefaultIndexMapping as they run: the mapping tree is built in place, one entry at a
    time. */
module MappingWriter {
  import opened Text
  import opened FieldPath
  import opened Json
  import opened GoHeap
  import opened Mapping

  /** g with the object at path replaced. */
  function Splice(g: Fields, path: Path, below: Fields): Fields
    decreases |path|
  {
    if path == [] then below
    else if path[0] in g && g[path[0]].Obj? then g[path[0] := Obj(Splice(g[path[0]].fields, path[1..], below))]
    else g
  }

  /** The object of g at path is at. */
  ghost predicate HasObject(g: Fields, path: Path, at: Fields)
    decreases |path|
  {
    if path == [] then g == at
    else path[0] in g && g[path[0]].Obj? && HasObject(g[path[0]].fields, path[1..], at)
  }

  lemma {:induction false} SpliceLands(g: Fields, path: Path, at: Fields, below: Fields)
    requires HasObject(g, path, at)
    ensures HasObject(Splice(g, path, below), path, below)
    decreases |path|
  {
    if path != [] {
      SpliceLands(g[path[0]].fields, path[1..], at, below);
    }
  }

  lemma {:induction false} SpliceSame(g: Fields, path: Path, at: Fields)
    requires HasObject(g, path, at)
    ensures Splice(g, path, at) == g
    decreases |path|
  {
    if path != [] {
      SpliceSame(g[path[0]].fields, path[1..], at);
      assert g[path[0] := g[path[0]]] == g;
    }
  }

  lemma {:induction false} SpliceTwice(g: Fields, path: Path, at: Fields, first: Fields, second: Fields)
    requires HasObject(g, path, at)
    ensures Splice(Splice(g, path, first), path, second) == Splice(g, path, second)
    decreases |path|
  {
    if path != [] {
      SpliceTwice(g[path[0]].fields, path[1..], at, first, second);
      var a, b := Obj(Splice(g[path[0]].fields, path[1..], first)), Obj(Splice(g[path[0]].fields, path[1..], second));
      assert g[path[0] := a][path[0] := b] == g[path[0] := b];
    }
  }

  /** Splicing one level deeper. */
  lemma {:induction false} SpliceDeeper(g: Fields, path: Path, at: Fields, key: string, inner: Fields, below: Fields)
    requires HasObject(g, path, at) && key in at && at[key] == Obj(inner)
    ensures HasObject(g, path + [key], inner)
    ensures Splice(g, path + [key], below) == Splice(g, path, at[key := Obj(below)])
    decreases |path|
  {
    if path == [] {
      assert path + [key] == [key] && [key][1..] == [];
    } else {
      assert (path + [key])[1..] == path[1..] + [key];
      SpliceDeeper(g[path[0]].fields, path[1..], at, key, inner, below);
    }
  }

  /** The map assigned to. */
  lemma AttachHere(h: Heap, h': Heap, places: Places, root: GoMap, current: GoMap, at: Fields, key: string,
                   x: GoValue, j: Json)
    requires IsTree(h, places, root) && h.Keys == places.Keys && current in places && Denotes(h, Ref(current), Obj(at))
    requires OneWrite(h, h', current, key, x) && Denotes(h', x, j)
    ensures Denotes(h', Ref(current), Obj(at[key := j]))
  {
    FrameSiblings(h, h', places, root, current, key, x, current, at, key);
    Rebuilt(h', current, at, key, j);
  }

  /** A map above the map assigned to, when the map below it on the way is known. */
  lemma AttachAbove(h: Heap, h': Heap, places: Places, root: GoMap, n: GoMap, g: Fields, path: Path, c: GoMap,
                    key: string, x: GoValue, below: Json)
    requires IsTree(h, places, root) && h.Keys == places.Keys && n in places && c in places &&
      places[c] == places[n] + path && path != []
    requires Denotes(h, Ref(n), Obj(g)) && path[0] in g && OneWrite(h, h', c, key, x) &&
      Denotes(h', h[n][path[0]], below)
    ensures Denotes(h', Ref(n), Obj(g[path[0] := below]))
  {
    assert places[n] + [path[0]] <= places[c] + [key] by {
      assert places[c] + [key] == places[n] + (path + [key]);
    }
    FrameSiblings(h, h', places, root, c, key, x, n, g, path[0]);
    assert n != c by {
      assert |places[c]| > |places[n]|;
    }
    Rebuilt(h', n, g, path[0], below);
  }

  lemma PlaceBelow(h: Heap, places: Places, root: GoMap, n: GoMap, g: Fields, path: Path, at: Fields) returns (m: GoMap)
    requires IsTree(h, places, root) && h.Keys == places.Keys && n in places && path != []
    requires Denotes(h, Ref(n), Obj(g)) && HasObject(g, path, at)
    ensures path[0] in g && g[path[0]].Obj? && HasObject(g[path[0]].fields, path[1..], at)
    ensures path[0] in h[n] && h[n][path[0]] == Ref(m) && m in places && places[m] == places[n] + [path[0]] &&
      Denotes(h, Ref(m), g[path[0]])
    ensures places[n] + path == places[m] + path[1..]
  {
    assert Denotes(h, h[n][path[0]], g[path[0]]);
    m := h[n][path[0]].node;
    assert path[0] in h[n] && places[m] == places[n] + [path[0]];
    assert path == [path[0]] + path[1..];
  }

  /** Assigning a value to one entry of a map of the tree splices it into the tree's value. */
  lemma {:induction false} AttachDenotes(h: Heap, h': Heap, places: Places, root: GoMap, n: GoMap, g: Fields,
                                         path: Path, c: GoMap, at: Fields, key: string, x: GoValue, j: Json)
    requires IsTree(h, places, root) && h.Keys == places.Keys && n in places && c in places &&
      places[c] == places[n] + path
    requires Denotes(h, Ref(n), Obj(g)) && HasObject(g, path, at) && Find(h, Ref(n), path) == Some(Ref(c))
    requires OneWrite(h, h', c, key, x) && Denotes(h', x, j)
    ensures Denotes(h', Ref(n), Obj(Splice(g, path, at[key := j])))
    decreases |path|
  {
    hide IsTree, Denotes, OneWrite;
    if path == [] {
      AttachHere(h, h', places, root, c, at, key, x, j);
    } else {
      var m := PlaceBelow(h, places, root, n, g, path, at);
      AttachDenotes(h, h', places, root, m, g[path[0]].fields, path[1..], c, at, key, x, j);
      AttachAbove(h, h', places, root, n, g, path, c, key, x, Obj(Splice(g[path[0]].fields, path[1..], at[key := j])));
    }
  }

  /** A position in the mapping tree: the places of its maps, its root and value, the path down to the current map and
      the value there. */
  datatype Cursor = Cursor(places: Places, root: GoMap, g: Fields, path: Path, at: Fields)

  ghost predicate Points(h: Heap, cur: Cursor, current: GoMap) {
    IsTree(h, cur.places, cur.root) && h.Keys == cur.places.Keys && Denotes(h, Ref(cur.root), Obj(cur.g)) &&
    current in cur.places && cur.places[current] == cur.path &&
    Find(h, Ref(cur.root), cur.path) == Some(Ref(current)) && HasObject(cur.g, cur.path, cur.at) &&
      Denotes(h, Ref(current), Obj(cur.at))
  }

  function AttachedAt(cur: Cursor, below: Places, key: string, j: Json): Cursor {
    Cursor(cur.places + below, cur.root, Splice(cur.g, cur.path, cur.at[key := j]), cur.path, cur.at[key := j])
  }

  lemma AttachIsTree(h: Heap, h': Heap, places: Places, root: GoMap, current: GoMap, key: string, below: Heap,
                     spots: Places, x: GoValue)
    requires IsTree(h, places, root) && h.Keys == places.Keys && current in places
    requires StandsAlone(below, spots, x, places[current] + [key]) && h.Keys !! below.Keys
    requires h' == h[current := h[current][key := x]] + below
    ensures IsTree(h', places + spots, root) && h'.Keys == (places + spots).Keys
  {
    var places' := places + spots;
    forall n, k | n in places' && k in h'[n] && h'[n][k].Ref?
      ensures h'[n][k].node in places' && places'[h'[n][k].node] == places'[n] + [k]
    {
      if n in places && !(n == current && k == key) {
        assert k in h[n] && h[n][k] == h'[n][k];
      }
    }
  }

  lemma {:induction false} AttachFinds(h: Heap, h': Heap, places: Places, root: GoMap, n: GoMap, path: Path,
                                       current: GoMap, key: string, x: GoValue)
    requires IsTree(h, places, root) && h.Keys == places.Keys && n in places && current in places &&
      places[current] == places[n] + path
    requires Find(h, Ref(n), path) == Some(Ref(current)) && OneWrite(h, h', current, key, x)
    ensures Find(h', Ref(n), path) == Some(Ref(current))
    decreases |path|
  {
    if path != [] {
      var m := h[n][path[0]];
      assert path[0] in h[n] && m.Ref? && places[m.node] == places[n] + [path[0]];
      assert path == [path[0]] + path[1..];
      AttachFinds(h, h', places, root, m.node, path[1..], current, key, x);
      assert n != current by {
        assert |places[current]| > |places[n]|;
      }
    }
  }

  lemma AttachWrites(h: Heap, cur: Cursor, current: GoMap, key: string, below: Heap, x: GoValue)
    requires Points(h, cur, current) && h.Keys !! below.Keys
    ensures current in h
    ensures var h' := h[current := h[current][key := x]] + below;
      OneWrite(h, h', current, key, x) && forall n | n in below :: n in h' && h'[n] == below[n]
  {
  }

  lemma PlacesKept(h: Heap, cur: Cursor, current: GoMap, below: Heap, spots: Places, x: GoValue, path: Path)
    requires Points(h, cur, current) && h.Keys !! below.Keys && StandsAlone(below, spots, x, path)
    ensures cur.root in cur.places && cur.path == cur.places[cur.root] + cur.path
    ensures current in cur.places + spots && (cur.places + spots)[current] == cur.path
  {
  }

  lemma AttachPoints(h: Heap, cur: Cursor, current: GoMap, key: string, below: Heap, spots: Places, x: GoValue, j: Json)
    requires Points(h, cur, current) && h.Keys !! below.Keys
    requires StandsAlone(below, spots, x, cur.path + [key]) && Denotes(below, x, j)
    ensures Points(h[current := h[current][key := x]] + below, AttachedAt(cur, spots, key, j), current)
  {
    hide StandsAlone, Denotes, Find, HasObject, Splice, IsTree, OneWrite;
    AttachWrites(h, cur, current, key, below, x);
    var h' := h[current := h[current][key := x]] + below;
    AttachIsTree(h, h', cur.places, cur.root, current, key, below, spots, x);
    DenotesInMore(below, h', x, j);
    PlacesKept(h, cur, current, below, spots, x, cur.path + [key]);
    AttachDenotes(h, h', cur.places, cur.root, cur.root, cur.g, cur.path, current, cur.at, key, x, j);
    AttachHere(h, h', cur.places, cur.root, current, cur.at, key, x, j);
    AttachFinds(h, h', cur.places, cur.root, cur.root, cur.path, current, key, x);
    SpliceLands(cur.g, cur.path, cur.at, cur.at[key := j]);
  }

  /** current[key] = a newly allocated value. */
  method Attach(current: GoMap, key: string, j: Json, ghost all: set<GoMap>, ghost cur: Cursor)
    returns (ghost all': set<GoMap>, ghost cur': Cursor)
    requires Points(Snap(all), cur, current)
    modifies current
    ensures all <= all' && fresh(all' - all) && Points(Snap(all'), cur', current)
    ensures exists below :: cur' == AttachedAt(cur, below, key, j)
  {
    hide *;
    ghost var h := Snap(all);
    var x;
    ghost var spots;
    x, spots := Alloc(j, cur.path + [key]);
    AttachPoints(h, cur, current, key, Snap(spots.Keys), spots, x, j);
    PointsIn(h, cur, current);
    current.Assign(key, x, all, spots.Keys);
    PutOf(h, current, current.entries);
    PutOf(Snap(spots.Keys), current, current.entries);
    SnapOfTwo(all, spots.Keys);
    all', cur' := all + spots.Keys, AttachedAt(cur, spots, key, j);
  }

  lemma PutOf(h: Heap, c: GoMap, e: map<string, GoValue>)
    ensures Put(h, c, e) == if c in h then h[c := e] else h
  {
  }

  lemma PointsIn(h: Heap, cur: Cursor, current: GoMap)
    requires Points(h, cur, current)
    ensures current in h && h[current].Keys == cur.at.Keys
  {
  }

  /** Moving down through a key that holds an object. */
  lemma Enter(h: Heap, cur: Cursor, current: GoMap, key: string) returns (cur': Cursor)
    requires Points(h, cur, current) && key in cur.at && cur.at[key].Obj?
    ensures current in h && key in h[current] && h[current][key].Ref?
    ensures cur' == cur.(path := cur.path + [key], at := cur.at[key].fields) && Points(h, cur', h[current][key].node)
  {
    cur' := cur.(path := cur.path + [key], at := cur.at[key].fields);
    assert Denotes(h, h[current][key], cur.at[key]);
    var m := h[current][key].node;
    assert key in h[current] && cur.places[m] == cur.places[current] + [key];
    FindInTwo(h, Ref(cur.root), cur.path, [key]);
    assert [key][1..] == [];
    SpliceDeeper(cur.g, cur.path, cur.at, key, cur'.at, map[]);
  }

  /** What is left of an insertion at a position: the result below, spliced in there, is the result of the whole. */
  ghost predicate Continues(f0: Fields, whole: Path, model: string, g: Fields, path: Path, at: Fields, left: Path) {
    AddSemantic(f0, whole, model) ==
    match AddSemantic(at, left, model)
    case Ok(below) => Ok(Splice(g, path, below))
    case Err(e) => Err(e)
  }

  lemma SpliceThroughNode(g: Fields, path: Path, at: Fields, key: string, node: Fields, props: Fields, below: Fields)
    requires HasObject(g, path, at) && key in at && at[key] == Obj(node) && "properties" in node &&
      node["properties"] == Obj(props)
    ensures Splice(g, path + [key] + ["properties"], below) ==
      Splice(g, path, at[key := Obj(node["properties" := Obj(below)])])
  {
    SpliceDeeper(g, path, at, key, node, node["properties" := Obj(below)]);
    SpliceDeeper(g, path + [key], node, "properties", props, below);
  }

  /** The step through an existing object node with properties. */
  lemma ContinuesInside(f0: Fields, whole: Path, model: string, g: Fields, path: Path, at: Fields, left: Path,
                        node: Fields, props: Fields)
    requires Continues(f0, whole, model, g, path, at, left) && |left| > 1 && HasObject(g, path, at)
    requires left[0] in at && at[left[0]] == Obj(node) && TypeOf(node) in {"", "object"}
    requires "properties" in node && node["properties"] == Obj(props)
    ensures Continues(f0, whole, model, g, path + [left[0]] + ["properties"], props, left[1..])
  {
    if AddSemantic(props, left[1..], model).Ok? {
      SpliceThroughNode(g, path, at, left[0], node, props, AddSemantic(props, left[1..], model).value);
    }
  }

  /** The step that makes a new object node. */
  lemma ContinuesInNew(f0: Fields, whole: Path, model: string, g: Fields, path: Path, at: Fields, left: Path)
    requires Continues(f0, whole, model, g, path, at, left) && |left| > 1 && HasObject(g, path, at) && left[0] !in at
    ensures var g' := Splice(g, path, at[left[0] := ObjectNode(map[])]);
      Continues(f0, whole, model, g', path + [left[0]] + ["properties"], map[], left[1..])
  {
    var key := left[0];
    var node: Fields := map["type" := Str("object"), "properties" := Obj(map[])];
    var at' := at[key := Obj(node)];
    var g' := Splice(g, path, at');
    if AddSemantic(map[], left[1..], model).Ok? {
      var below := AddSemantic(map[], left[1..], model).value;
      SpliceLands(g, path, at, at');
      SpliceThroughNode(g', path, at', key, node, map[], below);
      assert node["properties" := Obj(below)] == ObjectNode(below).fields;
      assert at'[key := ObjectNode(below)] == at[key := ObjectNode(below)];
      SpliceTwice(g, path, at, at', at[key := ObjectNode(below)]);
    }
  }

  /** AddSemantic at an existing node that lacks properties. */
  lemma AddsProperties(at: Fields, left: Path, node: Fields, model: string)
    requires |left| > 1 && left[0] in at && at[left[0]] == Obj(node) && TypeOf(node) in {"", "object"}
    requires !("properties" in node && node["properties"].Obj?)
    ensures AddSemantic(at, left, model) ==
      match AddSemantic(map[], left[1..], model)
      case Ok(below) => Ok(at[left[0] := Obj(node["properties" := Obj(below)])])
      case Err(e) => Err(e)
  {
    assert Under(node, "properties") == map[];
  }

  /** The step that gives an existing node the properties it lacks. */
  lemma ContinuesInFallback(f0: Fields, whole: Path, model: string, g: Fields, path: Path, at: Fields, left: Path,
                            node: Fields)
    requires Continues(f0, whole, model, g, path, at, left) && |left| > 1 && HasObject(g, path, at)
    requires left[0] in at && at[left[0]] == Obj(node) && TypeOf(node) in {"", "object"}
    requires !("properties" in node && node["properties"].Obj?)
    ensures var key := left[0];
      var g' := Splice(g, path + [key], node["properties" := Obj(map[])]);
      Continues(f0, whole, model, g', path + [key] + ["properties"], map[], left[1..])
  {
    hide Splice, HasObject, TypeOf;
    var key := left[0];
    var node' := node["properties" := Obj(map[])];
    var g' := Splice(g, path + [key], node');
    AddsProperties(at, left, node, model);
    if AddSemantic(map[], left[1..], model).Ok? {
      var below := AddSemantic(map[], left[1..], model).value;
      var full := node["properties" := Obj(below)];
      SpliceDeeper(g, path, at, key, node, full);
      SpliceLands(g, path + [key], node, node');
      SpliceDeeper(g', path + [key], node', "properties", map[], below);
      assert node'["properties" := Obj(below)] == full;
      SpliceTwice(g, path + [key], node, node', full);
    }
  }

  /** The walk of an insertion before each segment. It has changed nothing so far, or it stands at a new, empty map. */
  ghost predicate Going(h0: Heap, f0: Fields, whole: Path, model: string, h: Heap, cur: Cursor, current: GoMap,
                        left: Path) {
    Points(h, cur, current) && left != [] && Continues(f0, whole, model, cur.g, cur.path, cur.at, left) &&
    (cur.at == map[] || (h == h0 && cur.g == f0))
  }

  /** The end of an insertion: a tree for the result of AddSemantic, or an error and everything as it was. */
  ghost predicate Inserted(h0: Heap, f0: Fields, whole: Path, model: string, h: Heap, places: Places, root: GoMap,
                           f: Fields, err: Option<MappingError>) {
    IsTree(h, places, root) && h.Keys == places.Keys && Denotes(h, Ref(root), Obj(f)) &&
    match err
    case None => AddSemantic(f0, whole, model) == Ok(f)
    case Some(e) => AddSemantic(f0, whole, model) == Err(e) && h == h0 && f == f0
  }

  /** The type entry of a mapping node, as the type assertion to string reads it. */
  function TypeIn(entries: map<string, GoValue>): string {
    if "type" in entries && entries["type"].Imm? && entries["type"].value.Str? then entries["type"].value.text else ""
  }

  /** What the writer reads at an existing key. */
  lemma ReadsNode(h: Heap, cur: Cursor, current: GoMap, key: string)
    requires Points(h, cur, current) && key in cur.at
    ensures current in h && key in h[current] && (h[current][key].Ref? <==> cur.at[key].Obj?)
    ensures cur.at[key].Obj? ==>
      h[current][key].node in h && TypeIn(h[h[current][key].node]) == TypeOf(cur.at[key].fields)
    ensures cur.at[key].Obj? ==>
      ("properties" in h[h[current][key].node] && h[h[current][key].node]["properties"].Ref?
       <==> "properties" in cur.at[key].fields && cur.at[key].fields["properties"].Obj?)
  {
    assert Denotes(h, h[current][key], cur.at[key]);
    if cur.at[key].Obj? {
      var m, f := h[current][key].node, cur.at[key].fields;
      if "type" in f {
        assert Denotes(h, h[m]["type"], f["type"]);
      }
      if "properties" in f {
        assert Denotes(h, h[m]["properties"], f["properties"]);
      }
    }
  }

  lemma GoingFacts(h0: Heap, f0: Fields, whole: Path, model: string, h: Heap, cur: Cursor, current: GoMap, left: Path)
    requires Going(h0, f0, whole, model, h, cur, current, left)
    ensures Points(h, cur, current) && current in h && h[current].Keys == cur.at.Keys
    ensures h.Keys == cur.places.Keys && HasObject(cur.g, cur.path, cur.at)
    ensures left != [] && Continues(f0, whole, model, cur.g, cur.path, cur.at, left)
  {
  }

  /** A missing segment becomes a new object node; the walk goes on in its properties. */
  method CreateNode(current: GoMap, segment: string, ghost all: set<GoMap>, ghost cur: Cursor, ghost left: Path,
                    ghost h0: Heap, ghost f0: Fields, ghost whole: Path, ghost model: string)
    returns (next: GoMap, ghost all': set<GoMap>, ghost cur': Cursor)
    requires Going(h0, f0, whole, model, Snap(all), cur, current, left) && |left| > 1 && segment == left[0]
    requires segment !in current.entries
    modifies current
    ensures all <= all' && fresh(all' - all) && cur'.root == cur.root
    ensures Going(h0, f0, whole, model, Snap(all'), cur', next, left[1..])
  {
    hide *;
    GoingFacts(h0, f0, whole, model, Snap(all), cur, current, left);
    ghost var cur1;
    all', cur1 := Attach(current, segment, ObjectNode(map[]), all, cur);
    ghost var cur2 := EnterNew(Snap(all'), cur, cur1, current, segment);
    var node := current.entries[segment].node;
    next := node.entries["properties"].node;
    cur' := cur2;
    GoesOnInNew(h0, f0, whole, model, cur, left, Snap(all'), cur', next);
  }

  lemma EnterNew(h: Heap, cur: Cursor, cur1: Cursor, current: GoMap, key: string) returns (cur2: Cursor)
    requires Points(h, cur1, current) && exists below :: cur1 == AttachedAt(cur, below, key, ObjectNode(map[]))
    ensures current in h && key in h[current] && h[current][key].Ref? && h[current][key].node in h
    ensures "properties" in h[h[current][key].node] && h[h[current][key].node]["properties"].Ref?
    ensures Points(h, cur2, h[h[current][key].node]["properties"].node) && cur2.at == map[] && cur2.root == cur.root
    ensures cur2.path == cur.path + [key] + ["properties"] &&
      cur2.g == Splice(cur.g, cur.path, cur.at[key := ObjectNode(map[])])
  {
    var c := Enter(h, cur1, current, key);
    cur2 := Enter(h, c, h[current][key].node, "properties");
  }

  lemma GoesOnInNew(h0: Heap, f0: Fields, whole: Path, model: string, cur: Cursor, left: Path, h: Heap, cur': Cursor,
                    next: GoMap)
    requires HasObject(cur.g, cur.path, cur.at) && Continues(f0, whole, model, cur.g, cur.path, cur.at, left)
    requires |left| > 1 && left[0] !in cur.at && Points(h, cur', next) && cur'.at == map[]
    requires cur'.path == cur.path + [left[0]] + ["properties"] &&
      cur'.g == Splice(cur.g, cur.path, cur.at[left[0] := ObjectNode(map[])])
    ensures Going(h0, f0, whole, model, h, cur', next, left[1..])
  {
    ContinuesInNew(f0, whole, model, cur.g, cur.path, cur.at, left);
  }

  /** The existing node at the next segment, as the writer reads it. */
  lemma StepFacts(h0: Heap, f0: Fields, whole: Path, model: string, h: Heap, cur: Cursor, current: GoMap, left: Path)
    requires Going(h0, f0, whole, model, h, cur, current, left) && |left| > 1
    requires current in h && left[0] in h[current]
    ensures var here := h[current][left[0]];
      left[0] in cur.at && (here.Ref? <==> cur.at[left[0]].Obj?) &&
      (here.Imm? ==> Inserted(h0, f0, whole, model, h, cur.places, cur.root, cur.g, Some(NotAnObject(left[0])))) &&
      (here.Ref? ==>
        here.node in h && TypeIn(h[here.node]) == TypeOf(cur.at[left[0]].fields) &&
        (TypeIn(h[here.node]) !in {"", "object"} ==>
          Inserted(h0, f0, whole, model, h, cur.places, cur.root, cur.g,
            Some(StepConflict(TypeIn(h[here.node]), left[0])))))
  {
    GoingFacts(h0, f0, whole, model, h, cur, current, left);
    ReadsNode(h, cur, current, left[0]);
  }

  /** The walk goes on in the properties of an existing object node. */
  lemma GoesOnInside(h0: Heap, f0: Fields, whole: Path, model: string, h: Heap, cur: Cursor, current: GoMap,
                     left: Path) returns (cur': Cursor)
    requires Going(h0, f0, whole, model, h, cur, current, left) && |left| > 1
    requires left[0] in cur.at && cur.at[left[0]].Obj? && TypeOf(cur.at[left[0]].fields) in {"", "object"}
    requires current in h && left[0] in h[current] && h[current][left[0]].Ref? && h[current][left[0]].node in h
    requires var node := h[h[current][left[0]].node]; "properties" in node && node["properties"].Ref?
    ensures Going(h0, f0, whole, model, h, cur', h[h[current][left[0]].node]["properties"].node, left[1..]) &&
      cur'.root == cur.root
  {
    ReadsNode(h, cur, current, left[0]);
    var node := cur.at[left[0]].fields;
    var c := Enter(h, cur, current, left[0]);
    cur' := Enter(h, c, h[current][left[0]].node, "properties");
    ContinuesInside(f0, whole, model, cur.g, cur.path, cur.at, left, node, node["properties"].fields);
  }

  /** The position of an existing node without properties. */
  lemma LacksProperties(h: Heap, cur: Cursor, current: GoMap, key: string) returns (c: Cursor)
    requires Points(h, cur, current) && key in cur.at && cur.at[key].Obj?
    requires current in h && key in h[current] && h[current][key].Ref? && h[current][key].node in h
    requires var node := h[h[current][key].node]; !("properties" in node && node["properties"].Ref?)
    ensures c == cur.(path := cur.path + [key], at := cur.at[key].fields) && Points(h, c, h[current][key].node)
    ensures !("properties" in c.at && c.at["properties"].Obj?)
  {
    ReadsNode(h, cur, current, key);
    c := Enter(h, cur, current, key);
  }

  /** The walk goes on in the properties just added to a node that lacked them. */
  lemma GoesOnInFallback(h0: Heap, f0: Fields, whole: Path, model: string, cur: Cursor, left: Path, h: Heap,
                         c1: Cursor, node: GoMap) returns (cur': Cursor)
    requires HasObject(cur.g, cur.path, cur.at) && Continues(f0, whole, model, cur.g, cur.path, cur.at, left)
    requires |left| > 1 && left[0] in cur.at && cur.at[left[0]].Obj? && TypeOf(cur.at[left[0]].fields) in {"", "object"}
    requires !("properties" in cur.at[left[0]].fields && cur.at[left[0]].fields["properties"].Obj?)
    requires Points(h, c1, node)
    requires var c := cur.(path := cur.path + [left[0]], at := cur.at[left[0]].fields);
      exists below :: c1 == AttachedAt(c, below, "properties", Obj(map[]))
    ensures node in h && "properties" in h[node] && h[node]["properties"].Ref?
    ensures Going(h0, f0, whole, model, h, cur', h[node]["properties"].node, left[1..]) && cur'.root == cur.root
  {
    cur' := Enter(h, c1, node, "properties");
    ContinuesInFallback(f0, whole, model, cur.g, cur.path, cur.at, left, cur.at[left[0]].fields);
  }

  /** nextProps of an existing node: its properties, or an empty map that it is given. */
  method NextProperties(current: GoMap, existingMap: GoMap, ghost all: set<GoMap>, ghost cur: Cursor, ghost left: Path,
                        ghost h0: Heap, ghost f0: Fields, ghost whole: Path, ghost model: string)
    returns (next: GoMap, ghost all': set<GoMap>, ghost cur': Cursor)
    requires Going(h0, f0, whole, model, Snap(all), cur, current, left) && |left| > 1
    requires current in all && left[0] in current.entries && current.entries[left[0]] == Ref(existingMap) &&
      existingMap in all
    requires left[0] in cur.at && cur.at[left[0]].Obj? && TypeOf(cur.at[left[0]].fields) in {"", "object"}
    modifies existingMap
    ensures all <= all' && fresh(all' - all) && cur'.root == cur.root
    ensures Going(h0, f0, whole, model, Snap(all'), cur', next, left[1..])
  {
    hide *;
    GoingFacts(h0, f0, whole, model, Snap(all), cur, current, left);
    if "properties" in existingMap.entries && existingMap.entries["properties"].Ref? {
      ghost var deeper := GoesOnInside(h0, f0, whole, model, Snap(all), cur, current, left);
      return existingMap.entries["properties"].node, all, deeper;
    }
    ghost var c := LacksProperties(Snap(all), cur, current, left[0]);
    ghost var c1;
    all', c1 := Attach(existingMap, "properties", Obj(map[]), all, c);
    ghost var deeper := GoesOnInFallback(h0, f0, whole, model, cur, left, Snap(all'), c1, existingMap);
    next, cur' := existingMap.entries["properties"].node, deeper;
  }

  /** One step before the leaf. */
  method StepDown(current: GoMap, segment: string, ghost all: set<GoMap>, ghost cur: Cursor, ghost left: Path,
                  ghost h0: Heap, ghost f0: Fields, ghost whole: Path, ghost model: string)
    returns (next: Result<GoMap, MappingError>, ghost all': set<GoMap>, ghost cur': Cursor)
    requires Going(h0, f0, whole, model, Snap(all), cur, current, left) && |left| > 1 && segment == left[0]
    modifies all
    ensures all <= all' && fresh(all' - all) && cur'.root == cur.root
    ensures next.Err? ==> Inserted(h0, f0, whole, model, Snap(all'), cur'.places, cur'.root, cur'.g, Some(next.error))
    ensures next.Ok? ==> Going(h0, f0, whole, model, Snap(all'), cur', next.value, left[1..])
  {
    hide *;
    GoingFacts(h0, f0, whole, model, Snap(all), cur, current, left);
    var props: GoMap;
    if segment !in current.entries {
      props, all', cur' := CreateNode(current, segment, all, cur, left, h0, f0, whole, model);
      return Ok(props), all', cur';
    }
    StepFacts(h0, f0, whole, model, Snap(all), cur, current, left);
    if current.entries[segment].Imm? {
      return Err(NotAnObject(segment)), all, cur;
    }
    var existingMap := current.entries[segment].node;
    var existingType := ReadType(existingMap);
    if existingType != "" && existingType != "object" {
      return Err(StepConflict(existingType, segment)), all, cur;
    }
    props, all', cur' := NextProperties(current, existingMap, all, cur, left, h0, f0, whole, model);
    return Ok(props), all', cur';
  }

  /** existingMap["type"].(string), the empty string when there is none. */
  method ReadType(existingMap: GoMap) returns (existingType: string)
    ensures existingType == TypeIn(existingMap.entries)
  {
    var typed := existingMap.entries;
    var isText := "type" in typed && typed["type"].Imm? && typed["type"].value.Str?;
    existingType := if isText then typed["type"].value.text else "";
  }

  /** An existing entry at the leaf: a conflict, or a node that a semantic leaf may replace. */
  lemma LeafFacts(h0: Heap, f0: Fields, whole: Path, model: string, h: Heap, cur: Cursor, current: GoMap, left: Path)
    requires Going(h0, f0, whole, model, h, cur, current, left) && |left| == 1
    requires current in h && left[0] in h[current]
    ensures var here := h[current][left[0]];
      left[0] in cur.at && (here.Ref? <==> cur.at[left[0]].Obj?) &&
      (here.Imm? ==> Inserted(h0, f0, whole, model, h, cur.places, cur.root, cur.g, Some(NotAnObject(left[0])))) &&
      (here.Ref? ==>
        here.node in h && TypeIn(h[here.node]) == TypeOf(cur.at[left[0]].fields) &&
        (TypeIn(h[here.node]) !in {"", "semantic"} ==>
          Inserted(h0, f0, whole, model, h, cur.places, cur.root, cur.g, Some(LeafConflict(TypeIn(h[here.node]))))))
  {
    GoingFacts(h0, f0, whole, model, h, cur, current, left);
    ReadsNode(h, cur, current, left[0]);
  }

  lemma LeafEnds(h0: Heap, f0: Fields, whole: Path, model: string, cur: Cursor, left: Path, h: Heap, cur': Cursor,
                 current: GoMap)
    requires Continues(f0, whole, model, cur.g, cur.path, cur.at, left) && |left| == 1
    requires left[0] in cur.at ==> cur.at[left[0]].Obj? && TypeOf(cur.at[left[0]].fields) in {"", "semantic"}
    requires Points(h, cur', current) && exists below :: cur' == AttachedAt(cur, below, left[0], SemanticLeaf(model))
    ensures Inserted(h0, f0, whole, model, h, cur'.places, cur'.root, cur'.g, None) && cur'.root == cur.root
  {
  }

  /** The step at the leaf. */
  method PutLeaf(current: GoMap, segment: string, semanticModelID: string, ghost all: set<GoMap>, ghost cur: Cursor,
                 ghost left: Path, ghost h0: Heap, ghost f0: Fields, ghost whole: Path)
    returns (err: Option<MappingError>, ghost all': set<GoMap>, ghost cur': Cursor)
    requires Going(h0, f0, whole, semanticModelID, Snap(all), cur, current, left) && |left| == 1 && segment == left[0]
    modifies current
    ensures all <= all' && fresh(all' - all) && cur'.root == cur.root
    ensures Inserted(h0, f0, whole, semanticModelID, Snap(all'), cur'.places, cur'.root, cur'.g, err)
  {
    hide *;
    GoingFacts(h0, f0, whole, semanticModelID, Snap(all), cur, current, left);
    if segment in current.entries {
      LeafFacts(h0, f0, whole, semanticModelID, Snap(all), cur, current, left);
      if current.entries[segment].Imm? {
        return Some(NotAnObject(segment)), all, cur;
      }
      var existingType := ReadType(current.entries[segment].node);
      if existingType != "" && existingType != "semantic" {
        return Some(LeafConflict(existingType)), all, cur;
      }
    }
    all', cur' := Attach(current, segment, SemanticLeaf(semanticModelID), all, cur);
    LeafEnds(h0, f0, whole, semanticModelID, cur, left, Snap(all'), cur', current);
    err := None;
  }

  /** A properties tree that stands for f0. */
  ghost predicate Properties(h: Heap, places: Places, root: GoMap, f0: Fields) {
    IsTree(h, places, root) && h.Keys == places.Keys && Denotes(h, Ref(root), Obj(f0))
  }

  lemma GoingStarts(h: Heap, places: Places, root: GoMap, f0: Fields, whole: Path, model: string) returns (cur: Cursor)
    requires Properties(h, places, root, f0) && whole != []
    ensures Going(h, f0, whole, model, h, cur, root, whole) && cur.root == root
  {
    cur := Cursor(places, root, f0, [], f0);
    SpliceSame(f0, [], f0);
  }

  lemma InsertsNothing(h: Heap, f0: Fields, model: string, places: Places, root: GoMap)
    requires Properties(h, places, root, f0)
    ensures Inserted(h, f0, [], model, h, places, root, f0, None)
  {
  }

  /** addSemanticFieldMapping, in place: the tree afterwards stands for what AddSemantic makes of the tree before, and
      after an error every map is as it was. */
  method AddSemanticFieldMapping(properties: GoMap, fieldPath: string, semanticModelID: string,
                                 ghost nodes: set<GoMap>, ghost places: Places, ghost f0: Fields)
    returns (err: Option<MappingError>, ghost nodes': set<GoMap>, ghost places': Places, ghost f': Fields)
    requires Properties(Snap(nodes), places, properties, f0)
    modifies nodes
    ensures nodes <= nodes' && fresh(nodes' - nodes)
    ensures Inserted(old(Snap(nodes)), f0, Segments(fieldPath), semanticModelID, Snap(nodes'), places', properties,
      f', err)
  {
    hide *;
    var segments := SplitFieldPath(fieldPath);
    if segments == [] {
      InsertsNothing(Snap(nodes), f0, semanticModelID, places, properties);
      return None, nodes, places, f0;
    }
    ghost var h0, left := Snap(nodes), segments;
    ghost var cur := GoingStarts(h0, places, properties, f0, segments, semanticModelID);
    nodes' := nodes;
    var current := properties;
    for i := 0 to |segments|
      invariant i < |segments| && |left| == |segments| - i && left == segments[i..]
      invariant nodes <= nodes' && fresh(nodes' - nodes) && cur.root == properties
      invariant Going(h0, f0, segments, semanticModelID, Snap(nodes'), cur, current, left)
    {
      var segment := segments[i];
      GoingFacts(h0, f0, segments, semanticModelID, Snap(nodes'), cur, current, left);
      if i == |segments| - 1 {
        err, nodes', cur := PutLeaf(current, segment, semanticModelID, nodes', cur, left, h0, f0, segments);
        return err, nodes', cur.places, cur.g;
      }
      var next;
      next, nodes', cur := StepDown(current, segment, nodes', cur, left, h0, f0, segments, semanticModelID);
      if next.Err? {
        return Some(next.error), nodes', cur.places, cur.g;
      }
      current, left := next.value, left[1..];
    }
    return None, nodes', cur.places, cur.g;
  }

  lemma InsertedIsTree(h0: Heap, f0: Fields, whole: Path, model: string, h: Heap, places: Places, root: GoMap,
                       f: Fields, err: Option<MappingError>)
    requires Inserted(h0, f0, whole, model, h, places, root, f, err)
    ensures Properties(h, places, root, f)
    ensures err.None? ==> AddSemantic(f0, whole, model) == Ok(f)
    ensures err.Some? ==> AddSemantic(f0, whole, model) == Err(err.value)
  {
  }

  /** AddAll from the last field back: one more insertion, or the first error for good. */
  lemma {:induction false} AddAllGoesOn(props: Fields, semanticFields: seq<string>, model: string, i: nat)
    requires i < |semanticFields|
    ensures AddAll(props, semanticFields[..i], model).Ok? ==>
      AddAll(props, semanticFields[..i + 1], model) ==
        AddSemantic(AddAll(props, semanticFields[..i], model).value, Segments(semanticFields[i]), model)
    ensures AddAll(props, semanticFields[..i + 1], model).Err? ==>
      AddAll(props, semanticFields, model) == AddAll(props, semanticFields[..i + 1], model)
    decreases |semanticFields|
  {
    assert semanticFields[..i + 1][..i] == semanticFields[..i];
    if i + 1 == |semanticFields| {
      assert semanticFields[..i + 1] == semanticFields;
    } else {
      var front := semanticFields[..|semanticFields| - 1];
      assert front[..i] == semanticFields[..i] && front[..i + 1] == semanticFields[..i + 1];
      AddAllGoesOn(props, front, model, i);
    }
  }

  lemma BuiltinStands(h: Heap, places: Places, v: GoValue)
    requires StandsAlone(h, places, v, []) && Denotes(h, v, Obj(Builtin()))
    ensures v.Ref? && Properties(h, places, v.node, Builtin())
  {
    hide Builtin;
    assert Closed(h) by {
      assert EachInPlace(h, places);
    }
  }

  lemma TopLevel(h: Heap, places: Places, properties: GoMap, f: Fields, mapping: GoMap, e: map<string, GoValue>)
    requires Properties(h, places, properties, f) && mapping !in h &&
      e == map["dynamic" := Imm(Bool(false)), "properties" := Ref(properties)]
    ensures Denotes(h[mapping := e], Ref(mapping), Obj(map["dynamic" := Bool(false), "properties" := Obj(f)]))
  {
    var h' := h[mapping := e];
    DenotesInMore(h, h', Ref(properties), Obj(f));
    assert Denotes(h', Imm(Bool(false)), Bool(false));
    Rebuilt(h'[mapping := map["dynamic" := Imm(Bool(false))]], mapping, map[], "dynamic", Bool(false));
    Rebuilt(h', mapping, map["dynamic" := Bool(false)], "properties", Obj(f));
    assert map["dynamic" := Bool(false)]["properties" := Obj(f)] ==
      map["dynamic" := Bool(false), "properties" := Obj(f)];
  }

  /** The loop of DefaultIndexMapping. */
  method AddSemanticFields(properties: GoMap, semanticFields: seq<string>, semanticModelID: string,
                           ghost nodes: set<GoMap>, ghost places: Places)
    returns (err: Option<MappingError>, ghost nodes': set<GoMap>, ghost places': Places, ghost f': Fields)
    requires Properties(Snap(nodes), places, properties, Builtin())
    modifies nodes
    ensures nodes <= nodes' && fresh(nodes' - nodes)
    ensures Properties(Snap(nodes'), places', properties, f')
    ensures AddAll(Builtin(), semanticFields, semanticModelID) == match err case None => Ok(f') case Some(e) => Err(e)
  {
    hide Builtin, Properties, Inserted, AddSemantic, Segments, Snap;
    nodes', places', f', err := nodes, places, Builtin(), None;
    for i := 0 to |semanticFields|
      invariant nodes <= nodes' && fresh(nodes' - nodes)
      invariant Properties(Snap(nodes'), places', properties, f')
      invariant err.None? && AddAll(Builtin(), semanticFields[..i], semanticModelID) == Ok(f')
    {
      ghost var h, f := Snap(nodes'), f';
      err, nodes', places', f' :=
        AddSemanticFieldMapping(properties, semanticFields[i], semanticModelID, nodes', places', f');
      InsertedIsTree(h, f, Segments(semanticFields[i]), semanticModelID, Snap(nodes'), places', properties, f', err);
      AddAllGoesOn(Builtin(), semanticFields, semanticModelID, i);
      if err.Some? {
        return;
      }
    }
    assert semanticFields[..|semanticFields|] == semanticFields;
  }

  /** The mapping around its properties. */
  method WrapProperties(properties: GoMap, ghost nodes: set<GoMap>, ghost places: Places, ghost f: Fields)
    returns (mapping: GoMap, ghost nodes': set<GoMap>)
    requires Properties(Snap(nodes), places, properties, f)
    ensures fresh(nodes' - nodes)
    ensures Denotes(Snap(nodes'), Ref(mapping), Obj(map["dynamic" := Bool(false), "properties" := Obj(f)]))
  {
    hide *;
    mapping := new GoMap();
    mapping.Assign("dynamic", Imm(Bool(false)), nodes, {});
    mapping.Assign("properties", Ref(properties), nodes, {});
    PutOf(Snap(nodes), mapping, mapping.entries);
    TopLevel(Snap(nodes), places, properties, f, mapping, mapping.entries);
    SnapOfMore(nodes, mapping);
    nodes' := nodes + {mapping};
  }

  /** DefaultIndexMapping, in place, up to the encoding of the mapping as text. */
  method DefaultIndexMapping(semanticFields: seq<string>, semanticModelID: string)
    returns (mapping: Result<GoMap, MappingError>, ghost nodes: set<GoMap>)
    ensures fresh(nodes)
    ensures match IndexMapping(semanticFields, semanticModelID)
            case Ok(j) => mapping.Ok? && Denotes(Snap(nodes), Ref(mapping.value), j)
            case Err(e) => mapping == Err(e)
  {
    hide Builtin, Denotes, Properties, StandsAlone, Snap, AddAll, TrimSpace;
    var v;
    ghost var places;
    v, places := Alloc(Obj(Builtin()), []);
    BuiltinStands(Snap(places.Keys), places, v);
    var properties := v.node;
    ghost var f := Builtin();
    nodes := places.Keys;
    assert AddAll(Builtin(), [], TrimSpace(semanticModelID)) == Ok(Builtin()) by {
      AddAllOfNothing(TrimSpace(semanticModelID));
    }
    if |semanticFields| > 0 {
      var modelID := TrimSpace(semanticModelID);
      if modelID == "" {
        return Err(NoModel), {};
      }
      var err;
      err, nodes, places, f := AddSemanticFields(properties, semanticFields, modelID, nodes, places);
      if err.Some? {
        return Err(err.value), nodes;
      }
    }
    var top;
    top, nodes := WrapProperties(properties, nodes, places, f);
    return Ok(top), nodes;
  }

  lemma AddAllOfNothing(model: string)
    ensures AddAll(Builtin(), [], model) == Ok(Builtin())
  {
  }
}
