/** lookupFieldPath, extractConfiguredFields, setFieldPath and buildDocumentSource as they run, on maps that the
    document and the resource share. */
module DocumentWriter {
  import opened Text
  import opened FieldPath
  import opened Json
  import opened GoHeap
  import opened DocumentFields

  /** Where a walk for a write ends: at a step that is neither a map nor null, or at the map it assigns to, with the
      segments that are left. */
  datatype Stop = Blocked(segment: string) | Writes(node: GoMap, rest: Path)

  ghost function StopAt(h: Heap, n: GoMap, path: Path): Stop
    requires Closed(h) && n in h && path != []
    decreases |path|
  {
    var key := path[0];
    if |path| == 1 || key !in h[n] || h[n][key] == Imm(Null) then Writes(n, path)
    else
      match h[n][key]
      case Ref(m) => StopAt(h, m, path[1..])
      case Imm(_) => Blocked(key)
  }

  /** What comes after i maps of a chain: the next map, or the value at the end. */
  function Link(made: seq<GoMap>, i: nat, value: GoValue): GoValue {
    if i < |made| then Ref(made[i]) else value
  }

  ghost function Maps(made: seq<GoMap>): set<GoMap> {
    set m | m in made
  }

  /** made is a chain of one-entry maps under the given keys, ending at value. */
  ghost predicate Chain(h: Heap, made: seq<GoMap>, keys: Path, value: GoValue) {
    |made| == |keys| &&
    (forall i, j | 0 <= i < j < |made| :: made[i] != made[j]) &&
    (forall i | 0 <= i < |made| :: made[i] in h && h[made[i]] == map[keys[i] := Link(made, i + 1, value)])
  }

  /** While a chain grows below the assigned entry, its last map is still empty. */
  ghost predicate Hanging(h: Heap, stop: Stop, now: Heap, news: Heap, made: seq<GoMap>, current: GoMap, left: Path) {
    stop.Writes? && stop.node in h && made != [] &&
    |stop.rest| == |made| + |left| && stop.rest[|made|..] == left &&
    current == made[|made| - 1] && current in news && news[current] == map[] &&
    current !in made[..|made| - 1] &&
    Chain(news, made[..|made| - 1], stop.rest[1..|made|], Ref(current)) &&
    now == h[stop.node := h[stop.node][stop.rest[0] := Ref(made[0])]]
  }

  lemma ChainGrows(h: Heap, h': Heap, made: seq<GoMap>, keys: Path, last: GoMap, key: string, x: GoValue)
    requires Chain(h, made, keys, Ref(last)) && last !in made
    requires forall m | m in made :: m in h' && h'[m] == h[m]
    requires last in h' && h'[last] == map[key := x]
    ensures Chain(h', made + [last], keys + [key], x)
  {
  }

  lemma HangNext(h: Heap, stop: Stop, now: Heap, news: Heap, news': Heap, made: seq<GoMap>, current: GoMap,
                 left: Path, next: GoMap)
    requires Hanging(h, stop, now, news, made, current, left) && |left| > 1 && next !in made
    requires forall m | m in made && m != current :: m in news' && news'[m] == news[m]
    requires current in news' && news'[current] == map[left[0] := Ref(next)] && next in news' && news'[next] == map[]
    ensures Hanging(h, stop, now, news', made + [next], next, left[1..])
  {
    var init := made[..|made| - 1];
    ChainGrows(news, news', init, stop.rest[1..|made|], current, left[0], Ref(next));
    assert init + [current] == made == (made + [next])[..|made|];
    assert stop.rest[1..|made|] + [left[0]] == stop.rest[1..|made| + 1];
  }

  lemma HangLast(h: Heap, stop: Stop, now: Heap, news: Heap, news': Heap, made: seq<GoMap>, current: GoMap,
                 left: Path, value: GoValue)
    requires Hanging(h, stop, now, news, made, current, left) && |left| == 1
    requires forall m | m in made && m != current :: m in news' && news'[m] == news[m]
    requires current in news' && news'[current] == map[left[0] := value]
    ensures Chain(news', made, stop.rest[1..], value)
  {
    var init := made[..|made| - 1];
    ChainGrows(news, news', init, stop.rest[1..|made|], current, left[0], value);
    assert init + [current] == made;
    assert stop.rest[1..|made|] + [left[0]] == stop.rest[1..];
  }

  /** The walk of a write before each step: nothing is changed yet, or a chain is growing. */
  ghost predicate Walking(h: Heap, stop: Stop, now: Heap, news: Heap, made: seq<GoMap>, current: GoMap, left: Path) {
    Closed(h) && left != [] &&
    if made == [] then now == h && news == map[] && current in h && StopAt(h, current, left) == stop
    else news.Keys == Maps(made) && news.Keys !! h.Keys && Hanging(h, stop, now, news, made, current, left)
  }

  /** The effect of a whole write on the maps there were and on the new ones. */
  ghost predicate Written(h: Heap, stop: Stop, value: GoValue, now: Heap, news: Heap, made: seq<GoMap>,
                          conflict: Option<Conflict>) {
    match stop
    case Blocked(segment) => conflict == Some(Conflict(segment)) && now == h && made == [] && news == map[]
    case Writes(node, rest) =>
      conflict.None? && node in h && rest != [] && news.Keys == Maps(made) && Chain(news, made, rest[1..], value) &&
      now == h[node := h[node][rest[0] := Link(made, 0, value)]]
  }

  lemma WalkStarts(h: Heap, target: GoMap, path: Path)
    requires Closed(h) && target in h && path != []
    ensures Walking(h, StopAt(h, target, path), h, map[], [], target, path)
  {
  }

  lemma WalkingFacts(h: Heap, stop: Stop, now: Heap, news: Heap, made: seq<GoMap>, current: GoMap, left: Path)
    requires Walking(h, stop, now, news, made, current, left)
    ensures current in now.Keys + news.Keys
  {
  }

  lemma WalkCreates(h: Heap, stop: Stop, now: Heap, news: Heap, made: seq<GoMap>, current: GoMap, left: Path,
                    e: map<string, GoValue>, next: GoMap)
    requires Walking(h, stop, now, news, made, current, left) && |left| > 1
    requires e == if current in now then now[current] else news[current]
    requires left[0] !in e || e[left[0]] == Imm(Null)
    requires next !in now && next !in news
    ensures var e' := e[left[0] := Ref(next)];
      Walking(h, stop, Put(now, current, e'), Put(news, current, e')[next := map[]], made + [next], next, left[1..])
  {
    var e' := e[left[0] := Ref(next)];
    if made != [] {
      HangNext(h, stop, now, news, Put(news, current, e')[next := map[]], made, current, left, next);
    }
  }

  lemma WalkAssigns(h: Heap, stop: Stop, now: Heap, news: Heap, made: seq<GoMap>, current: GoMap, left: Path,
                    e: map<string, GoValue>, value: GoValue)
    requires Walking(h, stop, now, news, made, current, left) && |left| == 1
    requires e == if current in now then now[current] else news[current]
    ensures var e' := e[left[0] := value];
      Written(h, stop, value, Put(now, current, e'), Put(news, current, e'), made, None)
  {
    var e' := e[left[0] := value];
    if made != [] {
      HangLast(h, stop, now, news, Put(news, current, e'), made, current, left, value);
    }
  }

  /** A step through an existing entry: only while nothing is changed, so a conflict leaves everything as it was. */
  lemma WalkMoves(h: Heap, stop: Stop, now: Heap, news: Heap, made: seq<GoMap>, current: GoMap, left: Path,
                  e: map<string, GoValue>, value: GoValue)
    requires Walking(h, stop, now, news, made, current, left) && |left| > 1
    requires e == if current in now then now[current] else news[current]
    requires left[0] in e && e[left[0]] != Imm(Null)
    ensures e[left[0]].Imm? ==> Written(h, stop, value, now, news, made, Some(Conflict(left[0])))
    ensures e[left[0]].Ref? ==> Walking(h, stop, now, news, made, e[left[0]].node, left[1..])
  {
  }

  /** lookupFieldPath. */
  method LookupFieldPath(obj: GoMap, fieldPath: string, ghost nodes: set<GoMap>) returns (value: GoValue, ok: bool)
    requires obj in nodes && Closed(Snap(nodes))
    ensures ok <==> Segments(fieldPath) != [] && Find(Snap(nodes), Ref(obj), Segments(fieldPath)).Some?
    ensures ok ==> Find(Snap(nodes), Ref(obj), Segments(fieldPath)) == Some(value)
    ensures ok && value.Ref? ==> value.node in nodes
  {
    var segments := SplitFieldPath(fieldPath);
    if segments == [] {
      return Imm(Null), false;
    }
    var current := Ref(obj);
    for i := 0 to |segments|
      invariant current.Ref? ==> current.node in nodes
      invariant Find(Snap(nodes), current, segments[i..]) == Find(Snap(nodes), Ref(obj), segments)
    {
      assert segments[i..][0] == segments[i] && segments[i..][1..] == segments[i + 1..];
      if !current.Ref? || segments[i] !in current.node.entries {
        return Imm(Null), false;
      }
      current := current.node.entries[segments[i]];
    }
    return current, true;
  }

  /** One step of the walk before the leaf: a missing or null segment becomes a new empty map, a map is entered, and any
      other value is a conflict, which can only be met while nothing is changed. */
  method Descend(current: GoMap, segment: string, ghost nodes: set<GoMap>, ghost news: set<GoMap>,
                 ghost h: Heap, ghost stop: Stop, ghost made: seq<GoMap>, ghost left: Path, ghost value: GoValue)
    returns (next: Option<GoMap>, ghost made': seq<GoMap>, ghost news': set<GoMap>)
    requires Walking(h, stop, Snap(nodes), Snap(news), made, current, left) && |left| > 1 && left[0] == segment
    modifies current
    ensures next.None? ==> Written(h, stop, value, Snap(nodes), Snap(news'), made', Some(Conflict(segment)))
    ensures next.Some? ==> Walking(h, stop, Snap(nodes), Snap(news'), made', next.value, left[1..])
    ensures news <= news' && fresh(news' - news)
  {
    hide *;
    ghost var now, fresh_, e := Snap(nodes), Snap(news), current.entries;
    WalkingFacts(h, stop, now, fresh_, made, current, left);
    made', news' := made, news;
    if segment !in current.entries || current.entries[segment] == Imm(Null) {
      var nextMap := current.AssignEmpty(segment, nodes, news);
      WalkCreates(h, stop, now, fresh_, made, current, left, e, nextMap);
      return Some(nextMap), made + [nextMap], news + {nextMap};
    }
    WalkMoves(h, stop, now, fresh_, made, current, left, e, value);
    if current.entries[segment].Imm? {
      return None, made, news;
    }
    return Some(current.entries[segment].node), made, news;
  }

  /** The step at the leaf. */
  method AssignLeaf(current: GoMap, segment: string, value: GoValue, ghost nodes: set<GoMap>, ghost news: set<GoMap>,
                    ghost h: Heap, ghost stop: Stop, ghost made: seq<GoMap>, ghost left: Path)
    requires Walking(h, stop, Snap(nodes), Snap(news), made, current, left) && |left| == 1 && left[0] == segment
    modifies current
    ensures Written(h, stop, value, Snap(nodes), Snap(news), made, None)
  {
    hide *;
    WalkingFacts(h, stop, Snap(nodes), Snap(news), made, current, left);
    WalkAssigns(h, stop, Snap(nodes), Snap(news), made, current, left, current.entries, value);
    current.Assign(segment, value, nodes, news);
  }

  /** The loop of setFieldPath over the segments of a path that has some. */
  method WriteSegments(target: GoMap, segments: Path, value: GoValue, ghost nodes: set<GoMap>)
    returns (conflict: Option<Conflict>, ghost made: seq<GoMap>, ghost news: set<GoMap>)
    requires target in nodes && Closed(Snap(nodes)) && segments != []
    modifies nodes
    ensures fresh(news)
    ensures Written(old(Snap(nodes)), old(StopAt(Snap(nodes), target, segments)), value, Snap(nodes), Snap(news),
      made, conflict)
  {
    hide *;
    ghost var h, left := Snap(nodes), segments;
    ghost var stop := StopAt(h, target, segments);
    var current := target;
    made, news := [], {};
    WalkStarts(h, target, segments);
    for i := 0 to |segments|
      invariant i < |segments| && left == segments[i..] && |left| == |segments| - i && left[0] == segments[i]
      invariant Walking(h, stop, Snap(nodes), Snap(news), made, current, left)
      invariant fresh(news) && (current in nodes || current in news)
    {
      var segment := segments[i];
      if i == |segments| - 1 {
        AssignLeaf(current, segment, value, nodes, news, h, stop, made, left);
        return None, made, news;
      }
      var next: Option<GoMap>;
      next, made, news := Descend(current, segment, nodes, news, h, stop, made, left, value);
      if next.None? {
        return Some(Conflict(segment)), made, news;
      }
      current, left := next.value, left[1..];
      WalkingFacts(h, stop, Snap(nodes), Snap(news), made, current, left);
    }
    return None, made, news;
  }

  /** setFieldPath, on any heap: a blocked walk changes nothing; any other walk changes one entry of one existing map
      and adds a chain of new maps. */
  method SetFieldPath(target: GoMap, fieldPath: string, value: GoValue, ghost nodes: set<GoMap>)
    returns (conflict: Option<Conflict>, ghost made: seq<GoMap>, ghost news: set<GoMap>)
    requires target in nodes && Closed(Snap(nodes))
    modifies nodes
    ensures fresh(news)
    ensures Segments(fieldPath) == [] ==> conflict.None? && Snap(nodes) == old(Snap(nodes)) && news == {}
    ensures Segments(fieldPath) != [] ==>
      Written(old(Snap(nodes)), old(StopAt(Snap(nodes), target, Segments(fieldPath))), value, Snap(nodes),
        Snap(news), made, conflict)
  {
    var segments := SplitFieldPath(fieldPath);
    if segments == [] {
      return None, [], {};
    }
    conflict, made, news := WriteSegments(target, segments, value, nodes);
  }
}
