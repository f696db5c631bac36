/** DefaultIndexMapping and addSemanticFieldMapping on values: the built-in properties, one semantic insertion, and
    what a whole list of semantic fields adds up to. */
module Mapping {
  import opened Text
  import opened FieldPath
  import opened Json

  datatype MappingError =
    | NoModel
    | NotAnObject(segment: string)
    | LeafConflict(existingType: string)
    | StepConflict(existingType: string, segment: string)

  function Typed(name: string): Json {
    Obj(map["type" := Str(name)])
  }

  /** The mapping of the document's own fields. */
  function Builtin(): Fields {
    map[
      "id" := Typed("keyword"),
      "name" := Obj(map[
        "type" := Str("text"),
        "fields" := Obj(map["keyword" := Obj(map["type" := Str("keyword"), "ignore_above" := Number(256.0)])])
      ]),
      "type" := Typed("keyword"),
      "kind" := Typed("keyword"),
      "namespace" := Typed("keyword"),
      "api_group" := Typed("keyword"),
      "api_version" := Typed("keyword"),
      "cluster_name" := Typed("keyword"),
      "path" := Typed("keyword"),
      "workspace_path" := Typed("keyword"),
      "organization_id" := Typed("keyword"),
      "organization_name" := Typed("keyword"),
      "account_id" := Typed("keyword"),
      "account_name" := Typed("keyword"),
      "fga_object" := Typed("keyword"),
      "labels" := Typed("flat_object"),
      "annotations" := Typed("flat_object"),
      "permissions" := Obj(map[
        "type" := Str("nested"),
        "properties" :=
          Obj(map["user" := Typed("keyword"), "relation" := Typed("keyword"), "object" := Typed("keyword")])
      ]),
      "created_at" := Typed("date"),
      "updated_at" := Typed("date"),
      "payload_raw_json" := Obj(map["type" := Str("keyword"), "index" := Bool(false), "doc_values" := Bool(false)]),
      "payload_text" := Typed("text")
    ]
  }

  /** A mapping node's type; a missing or non-string type reads as the empty string. */
  function TypeOf(node: Fields): string {
    if "type" in node && node["type"].Str? then node["type"].text else ""
  }

  function SemanticLeaf(model: string): Json {
    Obj(map["type" := Str("semantic"), "model_id" := Str(model)])
  }

  function ObjectNode(props: Fields): Json {
    Obj(map["type" := Str("object"), "properties" := Obj(props)])
  }

  /** addSemanticFieldMapping below the given properties. */
  function AddSemantic(props: Fields, path: Path, model: string): Result<Fields, MappingError>
    decreases |path|
  {
    if path == [] then Ok(props)
    else
      var key := path[0];
      if key in props && !props[key].Obj? then Err(NotAnObject(key))
      else if |path| == 1 then
        if key in props && TypeOf(props[key].fields) !in {"", "semantic"}
        then Err(LeafConflict(TypeOf(props[key].fields)))
        else Ok(props[key := SemanticLeaf(model)])
      else if key !in props then
        match AddSemantic(map[], path[1..], model)
        case Ok(below) => Ok(props[key := ObjectNode(below)])
        case Err(e) => Err(e)
      else if TypeOf(props[key].fields) !in {"", "object"} then Err(StepConflict(TypeOf(props[key].fields), key))
      else
        match AddSemantic(Under(props[key].fields, "properties"), path[1..], model)
        case Ok(below) => Ok(props[key := Obj(props[key].fields["properties" := Obj(below)])])
        case Err(e) => Err(e)
  }

  /** The loop of DefaultIndexMapping over its semantic fields. */
  function AddAll(props: Fields, semanticFields: seq<string>, model: string): Result<Fields, MappingError> {
    if semanticFields == [] then Ok(props)
    else
      match AddAll(props, semanticFields[..|semanticFields| - 1], model)
      case Ok(next) => AddSemantic(next, Segments(semanticFields[|semanticFields| - 1]), model)
      case Err(e) => Err(e)
  }

  /** DefaultIndexMapping, up to the encoding of its result as text. */
  function IndexMapping(semanticFields: seq<string>, modelID: string): Result<Json, MappingError> {
    if semanticFields != [] && TrimSpace(modelID) == "" then Err(NoModel)
    else
      match AddAll(Builtin(), semanticFields, TrimSpace(modelID))
      case Ok(props) => Ok(Obj(map["dynamic" := Bool(false), "properties" := Obj(props)]))
      case Err(e) => Err(e)
  }

  /** The paths of a field list that have a segment. */
  function Paths(semanticFields: seq<string>): set<Path> {
    set f | f in semanticFields && Segments(f) != [] :: Segments(f)
  }

  ghost predicate PrefixFree(S: set<Path>) {
    forall p, q | p in S && q in S && p <= q :: p == q
  }

  /** A type that neither a semantic leaf nor a step through an object tolerates. */
  ghost predicate Reserved(base: Fields) {
    forall key | key in base :: base[key].Obj? && TypeOf(base[key].fields) !in {"", "semantic", "object"}
  }

  lemma BuiltinIsReserved()
    ensures Reserved(Builtin())
  {
  }

  /** props is base with, for the paths of S and nothing else, object nodes at the strict prefixes and semantic leaves
      at the ends. Only prefix-free sets have such a tree. */
  ghost predicate SemanticTree(props: Fields, base: Fields, S: set<Path>, model: string)
    decreases Obj(props)
  {
    props.Keys == base.Keys + Heads(S) &&
    base.Keys !! Heads(S) &&
    [] !in S &&
    (forall key | key in base :: props[key] == base[key]) &&
    (forall key | key in Heads(S) :: key in props && SemanticNode(props[key], Tails(S, key), model))
  }

  ghost predicate SemanticNode(node: Json, tails: set<Path>, model: string)
    decreases node
  {
    if [] in tails then tails == {[]} && node == SemanticLeaf(model)
    else
      node.Obj? && "properties" in node.fields && node.fields["properties"].Obj? &&
      node == ObjectNode(node.fields["properties"].fields) &&
      SemanticTree(node.fields["properties"].fields, map[], tails, model)
  }

  /** A path that a tree for S takes: it avoids the base and no path of S is a strict prefix of it or extends it. */
  ghost predicate Accepts(base: Fields, S: set<Path>, path: Path) {
    path != [] && path[0] !in base && forall p | p in S && (p <= path || path <= p) :: p == path
  }

  /** Below a first segment that is not itself a path, accepting is accepting the tail. */
  lemma AcceptsBelow(base: Fields, S: set<Path>, path: Path)
    requires |path| > 1 && path[0] !in base && [path[0]] !in S && [] !in S
    ensures Accepts(base, S, path) <==> Accepts(map[], Tails(S, path[0]), path[1..])
  {
    var key, rest := path[0], path[1..];
    assert path == [key] + rest;
    if Accepts(base, S, path) {
      forall t | t in Tails(S, key) && (t <= rest || rest <= t) ensures t == rest {
        TailsMember(S, key, t);
        assert t <= rest ==> [key] + t <= path;
        assert rest <= t ==> path <= [key] + t;
        assert ([key] + t)[1..] == t;
      }
    }
    if Accepts(map[], Tails(S, key), rest) {
      forall p | p in S && (p <= path || path <= p) ensures p == path {
        assert p == [key] + p[1..];
        assert p[1..] in Tails(S, key);
        assert p <= path ==> p[1..] <= rest;
        assert path <= p ==> rest <= p[1..];
      }
    }
  }

  /** One insertion into a semantic tree succeeds exactly when the tree accepts the path, and gives the tree with the
      path. */
  lemma {:induction false} AddToTree(props: Fields, base: Fields, S: set<Path>, path: Path, model: string)
    requires Reserved(base) && SemanticTree(props, base, S, model) && path != []
    ensures AddSemantic(props, path, model).Ok? <==> Accepts(base, S, path)
    ensures Accepts(base, S, path) ==> SemanticTree(AddSemantic(props, path, model).value, base, S + {path}, model)
    decreases |path|
  {
    var key := path[0];
    if key in base {
      assert props[key] == base[key];
    } else if |path| == 1 {
      AddLeaf(props, base, S, path, model);
    } else {
      AddStep(props, base, S, path, model);
    }
  }

  lemma TreeWith(props: Fields, base: Fields, S: set<Path>, path: Path, node: Json, model: string)
    requires SemanticTree(props, base, S, model) && path != [] && path[0] !in base
    requires SemanticNode(node, Tails(S + {path}, path[0]), model)
    ensures SemanticTree(props[path[0] := node], base, S + {path}, model)
  {
    HeadsOfAdded(S, path);
    forall k | k in Heads(S) && k != path[0] ensures Tails(S + {path}, k) == Tails(S, k) {
      TailsOfAdded(S, path, k);
    }
  }

  /** A leaf at a strict prefix of a path. */
  lemma LeafRefused(props: Fields, base: Fields, S: set<Path>, path: Path, model: string)
    requires SemanticTree(props, base, S, model) && |path| == 1 && path[0] !in base
    requires path[0] in Heads(S) && path !in S
    ensures AddSemantic(props, path, model).Err? && !Accepts(base, S, path)
  {
    var key := path[0];
    assert path == [key] == [key] + [];
    TailsMember(S, key, []);
    TailsEmpty(S, key);
    var t :| t in Tails(S, key);
    TailsMember(S, key, t);
    assert path <= [key] + t;
  }

  /** A leaf that is new, or there already. */
  lemma LeafTaken(props: Fields, base: Fields, S: set<Path>, path: Path, model: string)
    requires SemanticTree(props, base, S, model) && |path| == 1 && path[0] !in base
    requires path[0] in Heads(S) ==> path in S
    ensures AddSemantic(props, path, model) == Ok(props[path[0] := SemanticLeaf(model)]) && Accepts(base, S, path)
    ensures Tails(S + {path}, path[0]) == {[]}
  {
    var key := path[0];
    assert path == [key] == [key] + [] && path[1..] == [];
    TailsEmpty(S, key);
    TailsOfAdded(S, path, key);
    TailsMember(S, key, []);
    forall p | p in S && (p <= path || path <= p) ensures p == path {
      assert p == [key] + p[1..];
      assert p[1..] in Tails(S, key);
    }
  }

  lemma AddLeaf(props: Fields, base: Fields, S: set<Path>, path: Path, model: string)
    requires SemanticTree(props, base, S, model) && |path| == 1 && path[0] !in base
    ensures AddSemantic(props, path, model).Ok? <==> Accepts(base, S, path)
    ensures Accepts(base, S, path) ==> SemanticTree(AddSemantic(props, path, model).value, base, S + {path}, model)
  {
    if path[0] in Heads(S) && path !in S {
      LeafRefused(props, base, S, path, model);
    } else {
      LeafTaken(props, base, S, path, model);
      TreeWith(props, base, S, path, SemanticLeaf(model), model);
    }
  }

  /** A step through a segment of the tree that is not itself a path. */
  lemma StepThroughNode(props: Fields, key: string, tails: set<Path>, rest: Path, model: string) returns (sub: Fields)
    requires key in props && SemanticNode(props[key], tails, model) && [] !in tails && rest != []
    ensures SemanticTree(sub, map[], tails, model)
    ensures AddSemantic(props, [key] + rest, model) ==
      match AddSemantic(sub, rest, model)
      case Ok(below) => Ok(props[key := ObjectNode(below)])
      case Err(e) => Err(e)
  {
    assert ([key] + rest)[1..] == rest;
    sub := props[key].fields["properties"].fields;
    assert Under(props[key].fields, "properties") == sub;
    forall below: Fields ensures props[key].fields["properties" := Obj(below)] == ObjectNode(below).fields {
    }
  }

  lemma StepToNothing(props: Fields, base: Fields, S: set<Path>, path: Path, model: string)
    requires SemanticTree(props, base, S, model) && |path| > 1 && path[0] !in base && path[0] !in Heads(S)
    ensures SemanticTree(map[], map[], Tails(S, path[0]), model)
    ensures AddSemantic(props, path, model) ==
      match AddSemantic(map[], path[1..], model)
      case Ok(below) => Ok(props[path[0] := ObjectNode(below)])
      case Err(e) => Err(e)
  {
    TailsEmpty(S, path[0]);
  }

  lemma StepAtLeaf(props: Fields, base: Fields, S: set<Path>, path: Path, model: string)
    requires SemanticTree(props, base, S, model) && |path| > 1 && path[0] !in base && [path[0]] in S
    ensures AddSemantic(props, path, model).Err?
  {
    TailsMember(S, path[0], []);
    assert [path[0]] + [] == [path[0]];
    assert SemanticNode(props[path[0]], Tails(S, path[0]), model);
  }

  /** What AddSemantic does at a step in a tree. */
  lemma StepInTree(props: Fields, base: Fields, S: set<Path>, path: Path, model: string) returns (sub: Fields)
    requires SemanticTree(props, base, S, model) && |path| > 1 && path[0] !in base
    ensures [path[0]] in S ==> AddSemantic(props, path, model).Err?
    ensures [path[0]] !in S ==> SemanticTree(sub, map[], Tails(S, path[0]), model)
    ensures [path[0]] !in S ==> (
      AddSemantic(props, path, model) ==
      match AddSemantic(sub, path[1..], model)
      case Ok(below) => Ok(props[path[0] := ObjectNode(below)])
      case Err(e) => Err(e))
  {
    var key := path[0];
    sub := map[];
    if [key] in S {
      StepAtLeaf(props, base, S, path, model);
    } else if key in Heads(S) {
      TailsMember(S, key, []);
      assert [key] + [] == [key] && [key] + path[1..] == path;
      sub := StepThroughNode(props, key, Tails(S, key), path[1..], model);
    } else {
      StepToNothing(props, base, S, path, model);
    }
  }

  lemma {:induction false} AddStep(props: Fields, base: Fields, S: set<Path>, path: Path, model: string)
    requires Reserved(base) && SemanticTree(props, base, S, model) && |path| > 1 && path[0] !in base
    ensures AddSemantic(props, path, model).Ok? <==> Accepts(base, S, path)
    ensures Accepts(base, S, path) ==> SemanticTree(AddSemantic(props, path, model).value, base, S + {path}, model)
    decreases |path|, 0
  {
    var key := path[0];
    var sub := StepInTree(props, base, S, path, model);
    if [key] in S {
      assert [key] <= path;
    } else {
      AcceptsBelow(base, S, path);
      AddToTree(sub, map[], Tails(S, key), path[1..], model);
      if Accepts(base, S, path) {
        TailsOfAdded(S, path, key);
        assert [] !in Tails(S + {path}, key);
        TreeWith(props, base, S, path, ObjectNode(AddSemantic(sub, path[1..], model).value), model);
      }
    }
  }

  /** The list condition of the mapping: no path starts with a name of the base and none strictly extends another. */
  ghost predicate Acceptable(base: Fields, S: set<Path>) {
    base.Keys !! Heads(S) && PrefixFree(S)
  }

  lemma AcceptableGrows(base: Fields, S: set<Path>, path: Path)
    requires path != []
    ensures Acceptable(base, S + {path}) <==> Acceptable(base, S) && Accepts(base, S, path)
  {
    HeadsOfAdded(S, path);
    if Acceptable(base, S + {path}) {
      assert forall p | p in S :: p in S + {path};
      assert path in S + {path};
    }
  }

  lemma PathsOfOneMore(front: seq<string>, last: string)
    ensures Paths(front + [last]) == if Segments(last) == [] then Paths(front) else Paths(front) + {Segments(last)}
  {
  }

  lemma TreeOfNone(base: Fields, model: string)
    ensures Acceptable(base, {}) && SemanticTree(base, base, {}, model)
  {
  }

  lemma {:induction false} AddAllToTree(base: Fields, semanticFields: seq<string>, model: string)
    requires Reserved(base)
    ensures AddAll(base, semanticFields, model).Ok? <==> Acceptable(base, Paths(semanticFields))
    ensures Acceptable(base, Paths(semanticFields)) ==>
      SemanticTree(AddAll(base, semanticFields, model).value, base, Paths(semanticFields), model)
  {
    hide SemanticTree, Acceptable, Accepts, AddSemantic, Segments, Reserved;
    if semanticFields == [] {
      assert Paths(semanticFields) == {};
      TreeOfNone(base, model);
    } else {
      var front, last := semanticFields[..|semanticFields| - 1], semanticFields[|semanticFields| - 1];
      AddAllToTree(base, front, model);
      var path := Segments(last);
      assert semanticFields == front + [last];
      PathsOfOneMore(front, last);
      if path == [] {
        AddNothing(base, front, model);
      } else {
        AcceptableGrows(base, Paths(front), path);
        if AddAll(base, front, model).Ok? {
          AddToTree(AddAll(base, front, model).value, base, Paths(front), path, model);
        }
      }
    }
  }

  /** The first refused path of a list decides its error, whatever follows. */
  lemma {:induction false} FirstRefusalDecides(base: Fields, front: seq<string>, more: seq<string>, model: string)
    requires AddAll(base, front, model).Err?
    ensures AddAll(base, front + more, model) == AddAll(base, front, model)
    decreases |more|
  {
    if more == [] {
      assert front + more == front;
    } else {
      var all := front + more;
      assert all[..|all| - 1] == front + more[..|more| - 1];
      FirstRefusalDecides(base, front, more[..|more| - 1], model);
    }
  }

  lemma AddNothing(base: Fields, front: seq<string>, model: string)
    ensures AddAll(base, front, model).Ok? ==>
      AddSemantic(AddAll(base, front, model).value, [], model) == AddAll(base, front, model)
  {
  }

  /** DefaultIndexMapping succeeds exactly when the field list is empty, or the model id is not blank, no path starts
      with a built-in property and no path strictly extends another; it then returns the built-in properties with the
      semantic tree of the listed paths. */
  lemma MappingAcceptance(semanticFields: seq<string>, modelID: string)
    ensures IndexMapping(semanticFields, modelID).Ok? <==>
      semanticFields == [] || (TrimSpace(modelID) != "" && Acceptable(Builtin(), Paths(semanticFields)))
    ensures IndexMapping(semanticFields, modelID).Ok? ==>
      var mapping := IndexMapping(semanticFields, modelID).value;
      mapping == Obj(map["dynamic" := Bool(false), "properties" := mapping.fields["properties"]]) &&
      mapping.fields["properties"].Obj? &&
      SemanticTree(mapping.fields["properties"].fields, Builtin(), Paths(semanticFields), TrimSpace(modelID))
  {
    BuiltinIsReserved();
    AddAllToTree(Builtin(), semanticFields, TrimSpace(modelID));
  }

  /** A semantic tree is determined by its base, its paths and the model. */
  lemma {:induction false} TreeIsUnique(a: Fields, b: Fields, base: Fields, S: set<Path>, model: string)
    requires SemanticTree(a, base, S, model) && SemanticTree(b, base, S, model)
    ensures a == b
    decreases Obj(a)
  {
    forall key | key in Heads(S) ensures a[key] == b[key] {
      if [] !in Tails(S, key) {
        assert SemanticNode(a[key], Tails(S, key), model) && SemanticNode(b[key], Tails(S, key), model);
        TreeIsUnique(a[key].fields["properties"].fields, b[key].fields["properties"].fields, map[], Tails(S, key),
          model);
      }
    }
  }

  /** Neither acceptance nor the result depends on the order, the duplicates or the spelling of the listed paths. */
  lemma MappingIgnoresOrder(some: seq<string>, other: seq<string>, modelID: string)
    requires Paths(some) == Paths(other) && (some == [] <==> other == [])
    ensures IndexMapping(some, modelID).Ok? <==> IndexMapping(other, modelID).Ok?
    ensures IndexMapping(some, modelID).Ok? ==> IndexMapping(some, modelID) == IndexMapping(other, modelID)
  {
    MappingAcceptance(some, modelID);
    MappingAcceptance(other, modelID);
    if IndexMapping(some, modelID).Ok? {
      TreeIsUnique(
        IndexMapping(some, modelID).value.fields["properties"].fields,
        IndexMapping(other, modelID).value.fields["properties"].fields,
        Builtin(), Paths(some), TrimSpace(modelID));
    }
  }

  /** The mapping node of a path, reached through the properties of the nodes before it. */
  function NodeAt(props: Fields, path: Path): Option<Json>
    decreases |path|
  {
    if path == [] || path[0] !in props then None
    else if |path| == 1 then Some(props[path[0]])
    else if props[path[0]].Obj? then NodeAt(Under(props[path[0]].fields, "properties"), path[1..])
    else None
  }

  ghost predicate IsObjectNode(node: Option<Json>) {
    exists props :: node == Some(Obj(map["type" := Str("object"), "properties" := Obj(props)]))
  }

  ghost predicate StrictPrefix(S: set<Path>, at: Path) {
    exists p :: p in S && at < p
  }

  lemma StrictPrefixBelow(S: set<Path>, at: Path)
    requires at != []
    ensures StrictPrefix(S, at) <==> StrictPrefix(Tails(S, at[0]), at[1..])
  {
    var key, rest := at[0], at[1..];
    assert at == [key] + rest;
    if StrictPrefix(S, at) {
      var p :| p in S && at < p;
      assert p == [key] + p[1..] && p[1..] in Tails(S, key) && rest < p[1..];
    }
    if StrictPrefix(Tails(S, key), rest) {
      var t :| t in Tails(S, key) && rest < t;
      TailsMember(S, key, t);
      assert at < [key] + t;
    }
  }

  /** Outside the base, the nodes of a semantic tree are the leaves at the paths of S and object nodes at their strict
      prefixes; there is no node anywhere else. */
  lemma {:induction false} TreeNodes(props: Fields, base: Fields, S: set<Path>, model: string, at: Path)
    requires SemanticTree(props, base, S, model) && at != [] && at[0] !in base
    ensures at in S ==> NodeAt(props, at) == Some(Obj(map["type" := Str("semantic"), "model_id" := Str(model)]))
    ensures StrictPrefix(S, at) ==> IsObjectNode(NodeAt(props, at))
    ensures at !in S && !StrictPrefix(S, at) ==> NodeAt(props, at).None?
    decreases |at|
  {
    var key, rest, tails := at[0], at[1..], Tails(S, at[0]);
    assert at == [key] + rest;
    TailsMember(S, key, rest);
    StrictPrefixBelow(S, at);
    TailsEmpty(S, key);
    if key in Heads(S) {
      assert SemanticNode(props[key], tails, model);
      if [] !in tails {
        var sub := props[key].fields["properties"].fields;
        assert Under(props[key].fields, "properties") == sub;
        if rest == [] {
          var t :| t in tails;
          assert rest < t;
          assert NodeAt(props, at) == Some(Obj(map["type" := Str("object"), "properties" := Obj(sub)]));
        } else {
          TreeNodes(sub, map[], tails, model, rest);
        }
      }
    }
  }

  /** A step through the semantic leaf at the end of a listed path is refused with that leaf's type and segment. */
  lemma {:induction false} StepAcrossLeaf(props: Fields, base: Fields, S: set<Path>, path: Path, p: Path,
                                          model: string)
    requires SemanticTree(props, base, S, model) && p in S && p < path
    ensures p != [] && AddSemantic(props, path, model) == Err(StepConflict("semantic", p[|p| - 1]))
    decreases |path|
  {
    var key, rest := p[0], path[1..];
    assert p == [key] + p[1..] && path == [key] + rest;
    assert key in Heads(S) && p[1..] in Tails(S, key);
    TailsMember(S, key, []);
    assert SemanticNode(props[key], Tails(S, key), model);
    if |p| > 1 {
      hide AddSemantic;
      var sub := StepThroughNode(props, key, Tails(S, key), rest, model);
      hide SemanticTree, SemanticNode;
      StepAcrossLeaf(sub, map[], Tails(S, key), rest, p[1..], model);
    }
  }

  /** A leaf on an object that a listed path goes through is refused with the type object. */
  lemma {:induction false} LeafOnObject(props: Fields, base: Fields, S: set<Path>, path: Path, p: Path, model: string)
    requires SemanticTree(props, base, S, model) && path != [] && p in S && path < p
    ensures AddSemantic(props, path, model) == Err(LeafConflict("object"))
    decreases |path|
  {
    var key, rest := path[0], path[1..];
    assert p == [key] + p[1..] && path == [key] + rest;
    assert key in Heads(S) && p[1..] in Tails(S, key);
    TailsMember(S, key, []);
    assert SemanticNode(props[key], Tails(S, key), model);
    if rest != [] {
      hide AddSemantic;
      var sub := StepThroughNode(props, key, Tails(S, key), rest, model);
      hide SemanticTree, SemanticNode;
      LeafOnObject(sub, map[], Tails(S, key), rest, p[1..], model);
    }
  }

  /** Why an insertion into a semantic tree is refused: it meets the type of a property of the base, or it would step
      through the semantic leaf at the end of a listed path, or put a leaf on an object that a listed path goes
      through. */
  lemma RefusalReason(props: Fields, base: Fields, S: set<Path>, path: Path, model: string)
    requires Reserved(base) && SemanticTree(props, base, S, model) && path != []
    ensures path[0] in base ==>
      AddSemantic(props, path, model) ==
        Err(if |path| == 1 then LeafConflict(TypeOf(base[path[0]].fields))
            else StepConflict(TypeOf(base[path[0]].fields), path[0]))
    ensures forall p | p in S && p < path ::
        p != [] && AddSemantic(props, path, model) == Err(StepConflict("semantic", p[|p| - 1]))
    ensures forall p | p in S && path < p :: AddSemantic(props, path, model) == Err(LeafConflict("object"))
  {
    forall p | p in S && p < path
      ensures p != [] && AddSemantic(props, path, model) == Err(StepConflict("semantic", p[|p| - 1]))
    {
      StepAcrossLeaf(props, base, S, path, p, model);
    }
    forall p | p in S && path < p ensures AddSemantic(props, path, model) == Err(LeafConflict("object")) {
      LeafOnObject(props, base, S, path, p, model);
    }
  }

  /** The built-in properties as JSON. */
  lemma BuiltinProperties()
    ensures Builtin() == map[
      "id" := Obj(map["type" := Str("keyword")]),
      "name" := Obj(map["type" := Str("text"), "fields" :=
        Obj(map["keyword" := Obj(map["type" := Str("keyword"), "ignore_above" := Number(256.0)])])]),
      "type" := Obj(map["type" := Str("keyword")]),
      "kind" := Obj(map["type" := Str("keyword")]),
      "namespace" := Obj(map["type" := Str("keyword")]),
      "api_group" := Obj(map["type" := Str("keyword")]),
      "api_version" := Obj(map["type" := Str("keyword")]),
      "cluster_name" := Obj(map["type" := Str("keyword")]),
      "path" := Obj(map["type" := Str("keyword")]),
      "workspace_path" := Obj(map["type" := Str("keyword")]),
      "organization_id" := Obj(map["type" := Str("keyword")]),
      "organization_name" := Obj(map["type" := Str("keyword")]),
      "account_id" := Obj(map["type" := Str("keyword")]),
      "account_name" := Obj(map["type" := Str("keyword")]),
      "fga_object" := Obj(map["type" := Str("keyword")]),
      "labels" := Obj(map["type" := Str("flat_object")]),
      "annotations" := Obj(map["type" := Str("flat_object")]),
      "permissions" := Obj(map["type" := Str("nested"), "properties" := Obj(map[
        "user" := Obj(map["type" := Str("keyword")]),
        "relation" := Obj(map["type" := Str("keyword")]),
        "object" := Obj(map["type" := Str("keyword")])])]),
      "created_at" := Obj(map["type" := Str("date")]),
      "updated_at" := Obj(map["type" := Str("date")]),
      "payload_raw_json" := Obj(map["type" := Str("keyword"), "index" := Bool(false), "doc_values" := Bool(false)]),
      "payload_text" := Obj(map["type" := Str("text")])
    ]
  {
  }

  /** The properties of an accepted list's mapping. */
  function MappedProperties(semanticFields: seq<string>, modelID: string): Fields
    requires IndexMapping(semanticFields, modelID).Ok?
  {
    MappingAcceptance(semanticFields, modelID);
    IndexMapping(semanticFields, modelID).value.fields["properties"].fields
  }

  /** The mapping of an accepted list as JSON: dynamic is false; every built-in property is there as it is; every listed
      path leads, through properties, to a leaf of type semantic with the trimmed model id, by nodes of type object. */
  lemma MappingContents(semanticFields: seq<string>, modelID: string)
    requires IndexMapping(semanticFields, modelID).Ok?
    ensures var props := MappedProperties(semanticFields, modelID);
      IndexMapping(semanticFields, modelID).value == Obj(map["dynamic" := Bool(false), "properties" := Obj(props)]) &&
      (forall key | key in Builtin() :: key in props && props[key] == Builtin()[key]) &&
      (forall p | p in Paths(semanticFields) ::
        p != [] && p[0] !in Builtin() &&
        NodeAt(props, p) ==
          Some(Obj(map["type" := Str("semantic"), "model_id" := Str(TrimSpace(modelID))]))) &&
      (forall at | at != [] && StrictPrefix(Paths(semanticFields), at) ::
        IsObjectNode(NodeAt(props, at)))
  {
    hide Builtin;
    MappingAcceptance(semanticFields, modelID);
    var props, S := MappedProperties(semanticFields, modelID), Paths(semanticFields);
    forall p | p in S
      ensures p != [] && p[0] !in Builtin()
      ensures NodeAt(props, p) == Some(Obj(map["type" := Str("semantic"), "model_id" := Str(TrimSpace(modelID))]))
    {
      assert p[0] in Heads(S);
      TreeNodes(props, Builtin(), S, TrimSpace(modelID), p);
    }
    forall at | at != [] && StrictPrefix(S, at) ensures IsObjectNode(NodeAt(props, at)) {
      var p :| p in S && at < p;
      assert p[0] in Heads(S);
      TreeNodes(props, Builtin(), S, TrimSpace(modelID), at);
    }
  }

  /** Every node is an object with a type, and every object node has well-shaped properties. */
  ghost predicate WellShaped(props: Fields)
    decreases Obj(props)
  {
    forall key | key in props :: ShapedNode(props[key])
  }

  ghost predicate ShapedNode(node: Json)
    decreases node
  {
    node.Obj? && TypeOf(node.fields) != "" &&
    (TypeOf(node.fields) == "object" ==>
      "properties" in node.fields && node.fields["properties"].Obj? && WellShaped(node.fields["properties"].fields))
  }

  lemma BuiltinIsWellShaped()
    ensures WellShaped(Builtin())
  {
    BuiltinIsReserved();
  }

  /** Insertions keep the properties well shaped, and on well-shaped properties the only conflicts are with a type. */
  lemma {:induction false} AddKeepsShape(props: Fields, path: Path, model: string)
    requires WellShaped(props)
    ensures match AddSemantic(props, path, model)
            case Ok(next) => WellShaped(next)
            case Err(e) => e.LeafConflict? || e.StepConflict?
    decreases |path|
  {
    if |path| > 1 {
      var key := path[0];
      if key !in props {
        AddKeepsShape(map[], path[1..], model);
      } else if TypeOf(props[key].fields) == "object" {
        assert ShapedNode(props[key]);
        AddKeepsShape(props[key].fields["properties"].fields, path[1..], model);
      } else {
        assert ShapedNode(props[key]);
      }
    }
  }

  lemma {:induction false} ListKeepsShape(props: Fields, semanticFields: seq<string>, model: string)
    requires WellShaped(props)
    ensures match AddAll(props, semanticFields, model)
            case Ok(next) => WellShaped(next)
            case Err(e) => e.LeafConflict? || e.StepConflict?
    decreases |semanticFields|
  {
    if semanticFields != [] {
      var front := semanticFields[..|semanticFields| - 1];
      ListKeepsShape(props, front, model);
      if AddAll(props, front, model).Ok? {
        AddKeepsShape(AddAll(props, front, model).value, Segments(semanticFields[|semanticFields| - 1]), model);
      }
    }
  }

  /** An insertion that meets a node which is not an object, a node without a type, or a node on the way, open to a
      step, that has no properties. */
  predicate MeetsFallback(props: Fields, path: Path)
    decreases |path|
  {
    path != [] && path[0] in props &&
    (!props[path[0]].Obj? || TypeOf(props[path[0]].fields) == "" ||
     (|path| > 1 && TypeOf(props[path[0]].fields) == "object" &&
      (!("properties" in props[path[0]].fields && props[path[0]].fields["properties"].Obj?) ||
       MeetsFallback(props[path[0]].fields["properties"].fields, path[1..]))))
  }

  lemma {:induction false} ShapeMeetsNoFallback(props: Fields, path: Path)
    requires WellShaped(props)
    ensures !MeetsFallback(props, path)
    decreases |path|
  {
    if path != [] && path[0] in props {
      assert ShapedNode(props[path[0]]);
      if |path| > 1 && TypeOf(props[path[0]].fields) == "object" {
        ShapeMeetsNoFallback(props[path[0]].fields["properties"].fields, path[1..]);
      }
    }
  }

  /** Every properties tree that DefaultIndexMapping passes through is well shaped, so no insertion, whatever its path,
      meets a node that is not an object, has no type, or lacks the properties to step into: those branches are never
      taken. */
  lemma ReachableIsWellShaped(semanticFields: seq<string>, model: string)
    ensures match AddAll(Builtin(), semanticFields, model)
            case Ok(next) => WellShaped(next) && forall path :: !MeetsFallback(next, path)
            case Err(e) => e.LeafConflict? || e.StepConflict?
  {
    hide Builtin;
    BuiltinIsWellShaped();
    ListKeepsShape(Builtin(), semanticFields, model);
    if AddAll(Builtin(), semanticFields, model).Ok? {
      forall path ensures !MeetsFallback(AddAll(Builtin(), semanticFields, model).value, path) {
        ShapeMeetsNoFallback(AddAll(Builtin(), semanticFields, model).value, path);
      }
    }
  }
}
