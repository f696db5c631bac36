/** JSON values as the operator sees them after decoding: any, map[string]any, []any and scalars. */
module Json {
  import opened Text
  import opened FieldPath

  datatype Json =
    | Null
    | Bool(flag: bool)
    | Number(number: real)
    | Str(text: string)
    | Arr(items: seq<Json>)
    | Obj(fields: Fields)

  type Fields = map<string, Json>

  /** The value found by walking down nested objects; the empty path finds the value itself. */
  function Lookup(j: Json, path: Path): Option<Json>
    decreases j
  {
    if path == [] then Some(j)
    else if j.Obj? && path[0] in j.fields then Lookup(j.fields[path[0]], path[1..])
    else None
  }

  /** The object under a key, as a writer that descends through the key finds or creates it. */
  function Under(f: Fields, key: string): Fields {
    if key in f && f[key].Obj? then f[key].fields else map[]
  }

  /** The paths of S that start with key, without it. */
  function Tails(S: set<Path>, key: string): set<Path> {
    set p | p in S && p != [] && p[0] == key :: p[1..]
  }

  /** The first segments of the paths of S. */
  function Heads(S: set<Path>): set<string> {
    set p | p in S && p != [] :: p[0]
  }

  lemma TailsOfAdded(S: set<Path>, path: Path, key: string)
    requires path != []
    ensures Tails(S + {path}, key) == if key == path[0] then Tails(S, key) + {path[1..]} else Tails(S, key)
  {
  }

  lemma HeadsOfAdded(S: set<Path>, path: Path)
    requires path != []
    ensures Heads(S + {path}) == Heads(S) + {path[0]}
  {
  }

  lemma TailsMember(S: set<Path>, key: string, tail: Path)
    ensures tail in Tails(S, key) <==> [key] + tail in S
  {
    if [key] + tail in S {
      assert ([key] + tail)[1..] == tail;
    }
    if tail in Tails(S, key) {
      var p :| p in S && p != [] && p[0] == key && p[1..] == tail;
      assert p == [key] + tail;
    }
  }

  lemma TailsEmpty(S: set<Path>, key: string)
    ensures Tails(S, key) == {} <==> key !in Heads(S)
  {
    if key in Heads(S) {
      var p :| p in S && p != [] && p[0] == key;
      assert p[1..] in Tails(S, key);
    }
  }
}
