/** The OpenSearch client on an abstract cluster. Every request may be lost, or may take effect although the client sees
    an error. */
module OpenSearch {
  import opened Text
  import opened Json

  datatype Index = Index(shards: int, replicas: int, mapping: Json, aliases: set<string>)

  /** The indices of the cluster by name. An alias belongs to the indices it was put on and goes with them. */
  type Store = map<string, Index>

  datatype Call =
    | Exists(name: string)
    | Settings(name: string)
    | Create(name: string, index: Index)
    | PutReplicas(name: string, replicas: int)
    | PutAlias(name: string, alias: string)
    | Delete(name: string)

  datatype Reply = Yes | No | Found(shards: int, replicas: int) | Accepted | AlreadyExists | Failed

  /** What becomes of one request: it is served, it is lost, or it is served and its answer is lost. */
  datatype Weather = Fine | Lost | Late

  predicate IsAlias(s: Store, name: string) {
    exists n :: n in s && name in s[n].aliases
  }

  /** One served request. With aware, the existence check also answers for aliases; settings are keyed by index. */
  function Serve(aware: bool, s: Store, call: Call): (Store, Reply) {
    match call
    case Exists(n) => (s, if n in s || (aware && IsAlias(s, n)) then Yes else No)
    case Settings(n) => (s, if n in s then Found(s[n].shards, s[n].replicas) else Failed)
    case Create(n, index) => if n in s then (s, AlreadyExists) else (s[n := index], Accepted)
    case PutReplicas(n, r) => if n in s then (s[n := s[n].(replicas := r)], Accepted) else (s, Failed)
    case PutAlias(n, a) => if n in s then (s[n := s[n].(aliases := s[n].aliases + {a})], Accepted) else (s, Failed)
    case Delete(n) => if n in s then (s - {n}, Accepted) else (s, Failed)
  }

  function Answer(aware: bool, s: Store, call: Call, weather: Weather): (Store, Reply) {
    match weather
    case Fine => Serve(aware, s, call)
    case Lost => (s, Failed)
    case Late => (Serve(aware, s, call).0, Failed)
  }

  /** The cluster and what will become of the next requests; after those every request is served. */
  datatype World = World(store: Store, weather: seq<Weather>)

  function Sent(aware: bool, w: World, call: Call): (World, Reply) {
    var now := if w.weather == [] then Fine else w.weather[0];
    var (s, reply) := Answer(aware, w.store, call, now);
    (World(s, if w.weather == [] then [] else w.weather[1..]), reply)
  }

  class Api {
    const aware: bool
    var store: Store
    var weather: seq<Weather>

    constructor (aware: bool, store: Store, weather: seq<Weather>)
      ensures this.aware == aware && Now() == World(store, weather)
    {
      this.aware, this.store, this.weather := aware, store, weather;
    }

    function Now(): World
      reads this
    {
      World(store, weather)
    }

    /** One request over the network. */
    method Send(call: Call) returns (reply: Reply)
      modifies this
      ensures (Now(), reply) == Sent(aware, old(Now()), call)
    {
      var (world, answer) := Sent(aware, World(store, weather), call);
      store, weather := world.store, world.weather;
      reply := answer;
    }
  }

  /** IndexExists; None is an error. */
  method IndexExists(api: Api, indexName: string) returns (exists_: Option<bool>)
    modifies api
    ensures var (w, reply) := Sent(api.aware, old(api.Now()), Exists(indexName));
      api.Now() == w && exists_ == match reply { case Yes => Some(true) case No => Some(false) case _ => None }
  {
    var reply := api.Send(Exists(indexName));
    match reply
    case Yes => return Some(true);
    case No => return Some(false);
    case _ => return None;
  }

  function Creation(aware: bool, w: World, name: string, index: Index): (World, bool) {
    var (w1, found) := Sent(aware, w, Exists(name));
    if found == Yes || found == Failed then (w1, found == Yes)
    else
      var (w2, reply) := Sent(aware, w1, Create(name, index));
      (w2, reply != Failed)
  }

  /** CreateIndex: an index that exists already, or that someone else creates in between, is no error. */
  method CreateIndex(api: Api, indexName: string, numberOfShards: int, numberOfReplicas: int, mapping: Json)
    returns (ok: bool)
    modifies api
    ensures (api.Now(), ok) ==
      Creation(api.aware, old(api.Now()), indexName, Index(numberOfShards, numberOfReplicas, mapping, {}))
  {
    var exists_ := IndexExists(api, indexName);
    if exists_.None? {
      return false;
    }
    if exists_.value {
      return true;
    }
    var reply := api.Send(Create(indexName, Index(numberOfShards, numberOfReplicas, mapping, {})));
    if reply == AlreadyExists {
      return true;
    }
    return reply != Failed;
  }

  /** GetIndexSettings. */
  method GetIndexSettings(api: Api, indexName: string) returns (settings: Option<(int, int)>)
    modifies api
    ensures var (w, reply) := Sent(api.aware, old(api.Now()), Settings(indexName));
      api.Now() == w && settings == if reply.Found? then Some((reply.shards, reply.replicas)) else None
  {
    var reply := api.Send(Settings(indexName));
    return if reply.Found? then Some((reply.shards, reply.replicas)) else None;
  }

  /** UpdateIndexReplicas. */
  method UpdateIndexReplicas(api: Api, indexName: string, numberOfReplicas: int) returns (ok: bool)
    modifies api
    ensures var (w, reply) := Sent(api.aware, old(api.Now()), PutReplicas(indexName, numberOfReplicas));
      api.Now() == w && ok == (reply == Accepted)
  {
    var reply := api.Send(PutReplicas(indexName, numberOfReplicas));
    return reply == Accepted;
  }

  /** The aliases that EnsureAliases requests, in order. */
  function Effective(indexName: string, aliases: seq<string>, seen: set<string>): (requested: seq<string>)
    ensures |requested| <= |aliases|
  {
    if aliases == [] then []
    else
      var alias := TrimSpace(aliases[0]);
      if alias == "" || alias == indexName || alias in seen then Effective(indexName, aliases[1..], seen)
      else [alias] + Effective(indexName, aliases[1..], seen + {alias})
  }

  predicate Listed(alias: string, aliases: seq<string>) {
    exists i :: 0 <= i < |aliases| && TrimSpace(aliases[i]) == alias
  }

  /** Each requested alias is a trimmed one of the list, neither blank nor the index itself, and is requested once. */
  lemma {:induction false} EffectiveMeaning(indexName: string, aliases: seq<string>, seen: set<string>)
    ensures var requested := Effective(indexName, aliases, seen);
      (forall a :: a in requested <==> a != "" && a != indexName && a !in seen && Listed(a, aliases)) &&
      (forall i, j :: 0 <= i < j < |requested| ==> requested[i] != requested[j])
  {
    if aliases != [] {
      var alias, rest := TrimSpace(aliases[0]), aliases[1..];
      var skip := alias == "" || alias == indexName || alias in seen;
      EffectiveMeaning(indexName, rest, if skip then seen else seen + {alias});
      assert forall a :: Listed(a, aliases) <==> a == alias || Listed(a, rest) by {
        assert forall i :: 0 <= i < |rest| ==> rest[i] == aliases[i + 1];
        assert forall i :: 0 < i < |aliases| ==> aliases[i] == rest[i - 1];
      }
    }
  }

  function PutAll(aware: bool, w: World, indexName: string, requested: seq<string>): (World, bool)
    decreases |requested|
  {
    if requested == [] then (w, true)
    else
      var (w1, reply) := Sent(aware, w, PutAlias(indexName, requested[0]));
      if reply == Failed then (w1, false) else PutAll(aware, w1, indexName, requested[1..])
  }

  /** EnsureAliases. */
  method EnsureAliases(api: Api, indexName: string, aliases: seq<string>) returns (ok: bool)
    modifies api
    ensures (api.Now(), ok) == PutAll(api.aware, old(api.Now()), indexName, Effective(indexName, aliases, {}))
  {
    var seen: set<string> := {};
    for i := 0 to |aliases|
      invariant PutAll(api.aware, api.Now(), indexName, Effective(indexName, aliases[i..], seen)) ==
        PutAll(api.aware, old(api.Now()), indexName, Effective(indexName, aliases, {}))
    {
      assert aliases[i..][0] == aliases[i] && aliases[i..][1..] == aliases[i + 1..];
      var alias := TrimSpace(aliases[i]);
      if alias == "" || alias == indexName {
        continue;
      }
      if alias in seen {
        continue;
      }
      ghost var rest := Effective(indexName, aliases[i + 1..], seen + {alias});
      assert ([alias] + rest)[1..] == rest;
      seen := seen + {alias};
      var reply := api.Send(PutAlias(indexName, alias));
      if reply == Failed {
        return false;
      }
    }
    return true;
  }

  function Deletion(aware: bool, w: World, name: string): (World, bool) {
    var (w1, found) := Sent(aware, w, Exists(name));
    if found == No || found == Failed then (w1, found == No)
    else
      var (w2, reply) := Sent(aware, w1, Delete(name));
      (w2, reply == Accepted)
  }

  /** DeleteIndex: an index that does not exist is no error. */
  method DeleteIndex(api: Api, indexName: string) returns (ok: bool)
    modifies api
    ensures (api.Now(), ok) == Deletion(api.aware, old(api.Now()), indexName)
  {
    var exists_ := IndexExists(api, indexName);
    if exists_.None? {
      return false;
    }
    if !exists_.value {
      return true;
    }
    var reply := api.Send(Delete(indexName));
    return reply == Accepted;
  }

  /** Undisturbed, EnsureAliases adds the requested aliases to the index and changes nothing else. */
  lemma {:induction false} PutAllAdds(aware: bool, s: Store, indexName: string, requested: seq<string>)
    requires indexName in s
    ensures var index := s[indexName];
      PutAll(aware, World(s, []), indexName, requested) ==
      (World(s[indexName := index.(aliases := index.aliases + (set a | a in requested))], []), true)
  {
    var index := s[indexName];
    if requested == [] {
      assert index.aliases + (set a | a in requested) == index.aliases;
      assert s[indexName := index] == s;
    } else {
      var index1 := index.(aliases := index.aliases + {requested[0]});
      PutAllAdds(aware, s[indexName := index1], indexName, requested[1..]);
      assert requested == [requested[0]] + requested[1..];
      assert index.aliases + {requested[0]} + (set a | a in requested[1..]) == index.aliases + (set a | a in requested);
      var last := index.(aliases := index.aliases + (set a | a in requested));
      assert s[indexName := index1][indexName := last] == s[indexName := last];
    }
  }

  /** Whatever becomes of its requests, CreateIndex leaves the store as it is or adds exactly the wanted index where
      there was none; it succeeds only if there is an index then, or an alias that the check takes for one. */
  lemma CreationMeaning(aware: bool, w: World, name: string, index: Index)
    ensures var (w1, ok) := Creation(aware, w, name, index);
      (w1.store == w.store || (name !in w.store && w1.store == w.store[name := index])) &&
      (ok ==> name in w1.store || (aware && IsAlias(w.store, name)))
  {
    var (w1, found) := Sent(aware, w, Exists(name));
    assert w1.store == w.store;
  }

  /** Whatever becomes of its requests, DeleteIndex leaves the store as it is or removes exactly that index; it
      succeeds only if there is no such index then. */
  lemma DeletionMeaning(aware: bool, w: World, name: string)
    ensures var (w1, ok) := Deletion(aware, w, name);
      (w1.store == w.store || w1.store == w.store - {name}) && (ok ==> name !in w1.store)
  {
    var (w1, found) := Sent(aware, w, Exists(name));
    assert w1.store == w.store;
  }

  /** Only the aliases of the index may have grown, by requested ones only. */
  ghost predicate AliasesGrown(before: Store, after: Store, indexName: string, requested: seq<string>) {
    after.Keys == before.Keys && (forall n | n in before && n != indexName :: after[n] == before[n]) &&
    (indexName in before ==>
      after[indexName] == before[indexName].(aliases := after[indexName].aliases) &&
      before[indexName].aliases <= after[indexName].aliases <= before[indexName].aliases + set a | a in requested)
  }

  /** Whatever becomes of its requests, EnsureAliases changes nothing but the aliases of the index, and those only by
      adding requested ones; it succeeds only if all of them are there then. */
  lemma {:induction false} PutAllMeaning(aware: bool, w: World, indexName: string, requested: seq<string>)
    ensures var (w1, ok) := PutAll(aware, w, indexName, requested);
      AliasesGrown(w.store, w1.store, indexName, requested) &&
      (ok && requested != [] ==> indexName in w1.store && forall a | a in requested :: a in w1.store[indexName].aliases)
    decreases |requested|
  {
    if requested != [] {
      var (w1, reply) := Sent(aware, w, PutAlias(indexName, requested[0]));
      assert requested == [requested[0]] + requested[1..];
      if reply != Failed {
        PutAllMeaning(aware, w1, indexName, requested[1..]);
      }
    }
  }
}
