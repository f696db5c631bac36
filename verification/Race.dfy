/** Two reconciles of one SearchIndex at the same time, interleaved request by request on a cluster that has neither its
    index nor the legacy one. With aware, existence checks answer for aliases as well. */
module Race {
  import opened Text
  import opened OpenSearch
  import opened Lifecycle
  import opened Convergence

  datatype Racing = Racing(store: Store, a: Ctl, b: Ctl)

  /** Where the one or the other is. */
  function Place(r: Racing, first: bool): Ctl {
    if first then r.a else r.b
  }

  /** One request of one of the two; a reconcile that has ended makes none. */
  function Turn(aware: bool, ja: Job, jb: Job, r: Racing, first: bool): Racing {
    var job, ctl := if first then ja else jb, Place(r, first);
    if ctl.Ended? || Request(job, ctl).None? then r
    else
      var (s, reply) := Serve(aware, r.store, Request(job, ctl).value);
      if first then Racing(s, Next(job, ctl, reply), r.b) else Racing(s, r.a, Next(job, ctl, reply))
  }

  /** A race under a schedule. */
  function Play(aware: bool, ja: Job, jb: Job, r: Racing, schedule: seq<bool>): Racing
    decreases |schedule|
  {
    if schedule == [] then r else Play(aware, ja, jb, Turn(aware, ja, jb, r, schedule[0]), schedule[1..])
  }

  function Start(s: Store): Racing {
    Racing(s, CheckDesired, CheckDesired)
  }

  /** Where one of the two can be. */
  ghost predicate InRace(job: Job, ctl: Ctl, s: Store) {
    match ctl
    case CheckDesired => true
    case CheckLegacy => true
    case CheckBeforeCreate => job.mapping.Ok?
    case Creating => job.mapping.Ok?
    case ReadSettings(use) => use == job.name && use in s
    case SetReplicas(use) => use == job.name && use in s
    case Aliasing(use, left, _, _) => use == job.name && use in s && left != []
    case Ended(o) =>
      match o {
        case Used(use, _, _) => use == job.name && use in s
        case MappingFailed(_) => job.mapping.Err?
        case ShardMismatch(current) => job.name in s && current == s[job.name].shards && current != job.shards
        case _ => false
      }
    case _ => false
  }

  ghost predicate CreatedBy(job: Job, index: Index) {
    job.mapping == Ok(index.mapping) && index.shards == job.shards
  }

  ghost predicate StoreInRace(ja: Job, jb: Job, s0: Store, s: Store) {
    (forall n | n != ja.name :: n in s0 <==> n in s) &&
    (forall n | n in s0 :: n in s && s[n] == s0[n]) &&
    (ja.name in s ==>
      (CreatedBy(ja, s[ja.name]) || CreatedBy(jb, s[ja.name])) &&
      (s[ja.name].replicas == ja.replicas || s[ja.name].replicas == jb.replicas))
  }

  /** No alias of another index, and none that a rival can put, is what a check asks for. */
  ghost predicate Clear(ja: Job, jb: Job, s0: Store) {
    !IsAlias(s0, ja.name) && !IsAlias(s0, ja.legacy) && !IsAlias(s0, jb.legacy) &&
    (jb.mapping.Ok? ==> ja.legacy !in Requested(jb, jb.name)) &&
    (ja.mapping.Ok? ==> jb.legacy !in Requested(ja, ja.name))
  }

  ghost predicate Rivals(aware: bool, ja: Job, jb: Job, s0: Store) {
    ja.name == jb.name && ja.name !in s0 && ja.legacy !in s0 && jb.legacy !in s0 && (aware ==> Clear(ja, jb, s0))
  }

  /** Until the one has done its two first checks, the aliases of the index are those of its rival, who has created
      it. */
  ghost predicate Unconfused(job: Job, ctl: Ctl, rival: Job, s: Store) {
    (ctl.CheckDesired? || ctl.CheckLegacy? ==> job.name in s ==> s[job.name].aliases <= Requested(rival, job.name)) &&
    (ctl.CheckDesired? || ctl.CheckLegacy? || ctl.CheckBeforeCreate? || ctl.Creating? ==>
      job.name in s ==> rival.mapping.Ok?) &&
    (ctl.Aliasing? ==> forall a | a in ctl.left :: a in Requested(job, job.name))
  }

  ghost predicate Invariant(aware: bool, ja: Job, jb: Job, s0: Store, r: Racing) {
    StoreInRace(ja, jb, s0, r.store) && InRace(ja, r.a, r.store) && InRace(jb, r.b, r.store) &&
    (aware ==> Unconfused(ja, r.a, jb, r.store) && Unconfused(jb, r.b, ja, r.store))
  }

  lemma AliasStageInRace(job: Job, s: Store, created: bool, updated: bool)
    requires job.name in s
    ensures InRace(job, AliasStage(job, job.name, created, updated), s)
  {
  }

  /** The store as one sees it while the other goes on: indices stay, with their shards. */
  ghost predicate Grows(s: Store, s1: Store) {
    forall n | n in s :: n in s1 && s1[n].shards == s[n].shards
  }

  lemma StaysInRace(job: Job, ctl: Ctl, s: Store, s1: Store)
    requires InRace(job, ctl, s) && Grows(s, s1)
    ensures InRace(job, ctl, s1)
  {
  }

  lemma StoreTurn(ja: Job, jb: Job, s0: Store, job: Job, ctl: Ctl, s: Store)
    requires Rivals(false, ja, jb, s0) && StoreInRace(ja, jb, s0, s) && (job == ja || job == jb)
    requires InRace(job, ctl, s) && !ctl.Ended? && Request(job, ctl).Some?
    ensures var s1 := Serve(false, s, Request(job, ctl).value).0; StoreInRace(ja, jb, s0, s1) && Grows(s, s1)
  {
  }

  lemma OwnTurn(job: Job, ctl: Ctl, s: Store)
    requires InRace(job, ctl, s) && !ctl.Ended? && Request(job, ctl).Some? &&
      (job.legacy in s ==> job.legacy == job.name)
    ensures var (s1, reply) := Serve(false, s, Request(job, ctl).value); InRace(job, Next(job, ctl, reply), s1)
  {
    hide AliasStage, Effective;
    var s1 := Serve(false, s, Request(job, ctl).value).0;
    if job.name in s1 {
      AliasStageInRace(job, s1, true, false);
      AliasStageInRace(job, s1, false, true);
      AliasStageInRace(job, s1, false, false);
    }
  }

  /** The request of one of the two is served; the other's place stays possible. */
  lemma OneTurn(ja: Job, jb: Job, s0: Store, job: Job, ctl: Ctl, s: Store, other: Job, otherCtl: Ctl)
    requires Rivals(false, ja, jb, s0) && StoreInRace(ja, jb, s0, s) && (job == ja || job == jb) &&
      (other == ja || other == jb)
    requires InRace(job, ctl, s) && InRace(other, otherCtl, s) && !ctl.Ended? && Request(job, ctl).Some?
    ensures var (s1, reply) := Serve(false, s, Request(job, ctl).value);
      StoreInRace(ja, jb, s0, s1) && InRace(job, Next(job, ctl, reply), s1) && InRace(other, otherCtl, s1)
  {
    hide InRace, Next, Request, Serve;
    StoreTurn(ja, jb, s0, job, ctl, s);
    OwnTurn(job, ctl, s);
    StaysInRace(other, otherCtl, s, Serve(false, s, Request(job, ctl).value).0);
  }

  /** What the checks answer for makes no difference to the next request. */
  lemma SameAnswer(ja: Job, jb: Job, s0: Store, job: Job, rival: Job, ctl: Ctl, s: Store)
    requires Rivals(true, ja, jb, s0) && StoreInRace(ja, jb, s0, s) &&
      ((job, rival) == (ja, jb) || (job, rival) == (jb, ja))
    requires InRace(job, ctl, s) && Unconfused(job, ctl, rival, s) && Request(job, ctl).Some?
    ensures Serve(true, s, Request(job, ctl).value) == Serve(false, s, Request(job, ctl).value)
  {
    var call := Request(job, ctl).value;
    if call.Exists? && call.name !in s {
      if n :| n in s && call.name in s[n].aliases {
        assert n in s0 ==> IsAlias(s0, call.name);
      }
    }
  }

  lemma OwnTurnUnconfused(job: Job, ctl: Ctl, rival: Job, s: Store)
    requires InRace(job, ctl, s) && Unconfused(job, ctl, rival, s) && Request(job, ctl).Some? && rival.name == job.name
    ensures var (s1, reply) :=
      Serve(false, s, Request(job, ctl).value); Unconfused(job, Next(job, ctl, reply), rival, s1)
  {
    hide Effective;
    if ctl.Aliasing? {
      assert forall a | a in ctl.left[1..] :: a in ctl.left;
    }
  }

  lemma RivalTurnUnconfused(job: Job, ctl: Ctl, rival: Job, rivalCtl: Ctl, s: Store)
    requires Unconfused(job, ctl, rival, s) && rival.name == job.name
    requires InRace(rival, rivalCtl, s) && Unconfused(rival, rivalCtl, job, s) && Request(rival, rivalCtl).Some?
    ensures Unconfused(job, ctl, rival, Serve(false, s, Request(rival, rivalCtl).value).0)
  {
    hide Effective;
    if rivalCtl.Aliasing? {
      assert rivalCtl.left[0] in rivalCtl.left;
    }
  }

  lemma TurnKeeps(aware: bool, ja: Job, jb: Job, s0: Store, r: Racing, first: bool)
    requires Rivals(aware, ja, jb, s0) && Invariant(aware, ja, jb, s0, r)
    ensures Invariant(aware, ja, jb, s0, Turn(aware, ja, jb, r, first))
    ensures Turn(aware, ja, jb, r, first) == Turn(false, ja, jb, r, first)
  {
    hide InRace, StoreInRace, Request, Next, Serve, Clear, Unconfused;
    var job, ctl := if first then ja else jb, Place(r, first);
    var rival, rivalCtl := if first then jb else ja, Place(r, !first);
    if !ctl.Ended? && Request(job, ctl).Some? {
      OneTurn(ja, jb, s0, job, ctl, r.store, rival, rivalCtl);
      if aware {
        SameAnswer(ja, jb, s0, job, rival, ctl, r.store);
        OwnTurnUnconfused(job, ctl, rival, r.store);
        RivalTurnUnconfused(rival, rivalCtl, job, ctl, r.store);
      }
    }
  }

  /** Every interleaving keeps the invariant, and is the same whether or not the checks answer for aliases. */
  lemma {:induction false} RaceKeeps(aware: bool, ja: Job, jb: Job, s0: Store, r: Racing, schedule: seq<bool>)
    requires Rivals(aware, ja, jb, s0) && Invariant(aware, ja, jb, s0, r)
    ensures Invariant(aware, ja, jb, s0, Play(aware, ja, jb, r, schedule))
    ensures Play(aware, ja, jb, r, schedule) == Play(false, ja, jb, r, schedule)
    decreases |schedule|
  {
    if schedule != [] {
      hide Invariant, Turn, Rivals;
      TurnKeeps(aware, ja, jb, s0, r, schedule[0]);
      RaceKeeps(aware, ja, jb, s0, Turn(aware, ja, jb, r, schedule[0]), schedule[1..]);
    }
  }

  /** The create race. Under every schedule neither reconcile fails because of the other: none ends with a failed call,
      and a shard mismatch is reported only if the two want different shard counts. All other indices stay as they
      were. An index that exists carries the shards and the mapping of one of the two and the replicas of one of the
      two, and once both have ended it does exist, unless neither had a mapping. */
  lemma CreateRace(aware: bool, ja: Job, jb: Job, s: Store, schedule: seq<bool>)
    requires Rivals(aware, ja, jb, s)
    ensures var r := Play(aware, ja, jb, Start(s), schedule);
      r.a != Ended(CallFailed) && r.b != Ended(CallFailed) &&
      ((r.a.Ended? && r.a.outcome.ShardMismatch?) || (r.b.Ended? && r.b.outcome.ShardMismatch?) ==>
        ja.shards != jb.shards) &&
      StoreInRace(ja, jb, s, r.store) &&
      (r.a.Ended? && r.b.Ended? ==> (ja.name in r.store <==> ja.mapping.Ok? || jb.mapping.Ok?))
  {
    RaceKeeps(aware, ja, jb, s, Start(s), schedule);
  }

  /** After a race that both have finished, unless neither had a mapping, there is one index, and the next undisturbed
      reconcile of that name brings it to its own settings, or reports that it has the other shard count of a rival that
      could create it. If all three want the same shards, it succeeds. */
  lemma AfterTheRace(aware: bool, ja: Job, jb: Job, s: Store, schedule: seq<bool>, next: Job)
    requires Rivals(aware, ja, jb, s) && next.name == ja.name
    requires var r := Play(aware, ja, jb, Start(s), schedule); r.a.Ended? && r.b.Ended?
    requires ja.mapping.Ok? || jb.mapping.Ok?
    ensures var r := Play(aware, ja, jb, Start(s), schedule);
      var (o, w) := Run(aware, next, CheckDesired, Undisturbed(r.store));
      next.name in r.store &&
      (o.Used? || (o.ShardMismatch? && w.store == r.store)) &&
      (o.Used? ==>
        o.index == next.name && Settled(next, w.store, next.name) &&
        (ja.mapping == Ok(w.store[next.name].mapping) || jb.mapping == Ok(w.store[next.name].mapping))) &&
      (o.ShardMismatch? ==>
        (ja.mapping.Ok? && o.current == ja.shards != next.shards) ||
          (jb.mapping.Ok? && o.current == jb.shards != next.shards)) &&
      (ja.shards == jb.shards ==> (o.Used? <==> next.shards == ja.shards))
  {
    CreateRace(aware, ja, jb, s, schedule);
    hide Run, Play;
    RunIsAfter(aware, next, Play(aware, ja, jb, Start(s), schedule).store);
  }

  function Turns(schedule: seq<bool>, first: bool): nat {
    if schedule == [] then 0 else (if schedule[0] == first then 1 else 0) + Turns(schedule[1..], first)
  }

  lemma TurnLowersRank(aware: bool, ja: Job, jb: Job, r: Racing, first: bool)
    ensures var r1 := Turn(aware, ja, jb, r, first);
      var job, ctl, ctl1 := if first then ja else jb, Place(r, first), Place(r1, first);
      (Request(job, ctl).Some? && !ctl.Ended? ==> Rank(job, ctl1) < Rank(job, ctl)) &&
      Place(r1, !first) == Place(r, !first)
  {
    hide Rank, Next, Serve;
    var job, ctl := if first then ja else jb, Place(r, first);
    if !ctl.Ended? && Request(job, ctl).Some? {
      RankDrops(job, ctl, Serve(aware, r.store, Request(job, ctl).value).1);
    }
  }

  /** A race ends as soon as each of the two has had its turns. */
  lemma {:induction false} RaceEnds(aware: bool, ja: Job, jb: Job, s0: Store, r: Racing, schedule: seq<bool>)
    requires Rivals(aware, ja, jb, s0) && Invariant(aware, ja, jb, s0, r)
    requires Turns(schedule, true) >= Rank(ja, r.a) && Turns(schedule, false) >= Rank(jb, r.b)
    ensures Play(aware, ja, jb, r, schedule).a.Ended? && Play(aware, ja, jb, r, schedule).b.Ended?
    decreases |schedule|
  {
    hide InRace, StoreInRace, Next, Serve, Clear, Unconfused;
    RequestWhileRunning(ja, r.a, r.store);
    RequestWhileRunning(jb, r.b, r.store);
    if schedule != [] {
      TurnKeeps(aware, ja, jb, s0, r, schedule[0]);
      TurnLowersRank(aware, ja, jb, r, schedule[0]);
      RaceEnds(aware, ja, jb, s0, Turn(aware, ja, jb, r, schedule[0]), schedule[1..]);
    }
  }

  lemma RequestWhileRunning(job: Job, ctl: Ctl, s: Store)
    requires InRace(job, ctl, s)
    ensures !ctl.Ended? ==> Request(job, ctl).Some?
    ensures ctl.Ended? <==> Rank(job, ctl) == 0
  {
  }

  function Times(first: bool, n: nat): (schedule: seq<bool>)
    ensures |schedule| == n && forall i | 0 <= i < n :: schedule[i] == first
  {
    seq(n, _ => first)
  }

  lemma {:induction false} PlayTwo(aware: bool, ja: Job, jb: Job, r: Racing, s1: seq<bool>, s2: seq<bool>)
    ensures Play(aware, ja, jb, r, s1 + s2) == Play(aware, ja, jb, Play(aware, ja, jb, r, s1), s2)
    decreases |s1|
  {
    hide Turn;
    if s1 == [] {
      assert s1 + s2 == s2;
    } else {
      assert (s1 + s2)[1..] == s1[1..] + s2;
      PlayTwo(aware, ja, jb, Turn(aware, ja, jb, r, s1[0]), s1[1..], s2);
    }
  }

  lemma PlayOne(aware: bool, ja: Job, jb: Job, r: Racing, schedule: seq<bool>, first: bool)
    ensures Play(aware, ja, jb, r, schedule + [first]) == Turn(aware, ja, jb, Play(aware, ja, jb, r, schedule), first)
  {
    hide Turn;
    PlayTwo(aware, ja, jb, r, schedule, [first]);
    assert [first][1..] == [];
  }

  /** The one has gone on alone to its end. */
  function Done(aware: bool, ja: Job, jb: Job, r: Racing, first: bool): Racing {
    var (o, w) := Run(aware, if first then ja else jb, Place(r, first), Undisturbed(r.store));
    if first then Racing(w.store, Ended(o), r.b) else Racing(w.store, r.a, Ended(o))
  }

  lemma {:induction false} PlayAlone(aware: bool, ja: Job, jb: Job, r: Racing, first: bool, n: nat)
    requires Rank(if first then ja else jb, Place(r, first)) <= n
    requires Place(r, first).Aliasing? ==> Place(r, first).left != []
    ensures Play(aware, ja, jb, r, Times(first, n)) == Done(aware, ja, jb, r, first)
    decreases n
  {
    var job, ctl := if first then ja else jb, Place(r, first);
    RankIsLeft(job, ctl);
    if n > 0 {
      hide Rank, Next, Serve;
      assert Times(first, n)[1..] == Times(first, n - 1);
      if !ctl.Ended? {
        var (s, reply) := Serve(aware, r.store, Request(job, ctl).value);
        RunStep(aware, job, ctl, Undisturbed(r.store));
        TurnLowersRank(aware, ja, jb, r, first);
        KeepsAliases(job, ctl, reply);
      }
      PlayAlone(aware, ja, jb, Turn(aware, ja, jb, r, first), first, n - 1);
    }
  }

  lemma KeepsAliases(job: Job, ctl: Ctl, reply: Reply)
    requires !ctl.Ended?
    ensures var next := Next(job, ctl, reply); next.Aliasing? ==> next.left != []
  {
    hide Effective;
  }

  predicate Mismatched(ctl: Ctl) {
    ctl.Ended? && ctl.outcome.ShardMismatch?
  }

  /** Under some schedule the one reports a shard mismatch. */
  ghost predicate CanMismatch(aware: bool, ja: Job, jb: Job, s: Store, first: bool) {
    exists schedule :: Mismatched(Place(Play(aware, ja, jb, Start(s), schedule), first))
  }

  /** Which of the two can report a shard mismatch: exactly one whose rival has a mapping and wants other shards. */
  lemma MismatchExactly(aware: bool, ja: Job, jb: Job, s: Store, first: bool)
    requires Rivals(aware, ja, jb, s)
    ensures CanMismatch(aware, ja, jb, s, first) <==>
      ja.shards != jb.shards && (if first then jb else ja).mapping.Ok?
  {
    hide Play, Rivals;
    var job, rival := if first then ja else jb, if first then jb else ja;
    if schedule :| Mismatched(Place(Play(aware, ja, jb, Start(s), schedule), first)) {
      MismatchNeeds(aware, ja, jb, s, schedule, first);
    }
    if ja.shards != jb.shards && rival.mapping.Ok? {
      var schedule := Times(!first, Rank(rival, CheckDesired)) + [first] + [first];
      RivalIsFirst(aware, ja, jb, s, first);
      assert Mismatched(Place(Play(aware, ja, jb, Start(s), schedule), first));
    }
  }

  lemma MismatchNeeds(aware: bool, ja: Job, jb: Job, s: Store, schedule: seq<bool>, first: bool)
    requires Rivals(aware, ja, jb, s) && Mismatched(Place(Play(aware, ja, jb, Start(s), schedule), first))
    ensures ja.shards != jb.shards && (if first then jb else ja).mapping.Ok?
  {
    hide Play;
    RaceKeeps(aware, ja, jb, s, Start(s), schedule);
  }

  lemma RivalIsFirst(aware: bool, ja: Job, jb: Job, s: Store, first: bool)
    requires Rivals(aware, ja, jb, s) && ja.shards != jb.shards && (if first then jb else ja).mapping.Ok?
    ensures var n := Rank(if first then jb else ja, CheckDesired);
      Mismatched(Place(Play(aware, ja, jb, Start(s), Times(!first, n) + [first] + [first]), first))
  {
    hide Play, Rank, Run;
    var job, rival := if first then ja else jb, if first then jb else ja;
    var alone := Times(!first, Rank(rival, CheckDesired));
    RaceKeeps(aware, ja, jb, s, Start(s), alone + [first] + [first]);
    PlayAlone(false, ja, jb, Start(s), !first, Rank(rival, CheckDesired));
    RunIsAfter(false, rival, s);
    PlayOne(false, ja, jb, Start(s), alone, first);
    PlayOne(false, ja, jb, Start(s), alone + [first], first);
    var r := Done(false, ja, jb, Start(s), !first);
    assert Place(Turn(false, ja, jb, r, first), first) == ReadSettings(job.name);
  }

  /** Every schedule comes to the same whether or not the checks answer for aliases. */
  ghost predicate AnswersNeverMatter(ja: Job, jb: Job, s: Store) {
    forall schedule :: Play(true, ja, jb, Start(s), schedule) == Play(false, ja, jb, Start(s), schedule)
  }

  ghost predicate NeitherFails(ja: Job, jb: Job, s: Store) {
    forall schedule, first :: Place(Play(true, ja, jb, Start(s), schedule), first) != Ended(CallFailed)
  }

  /** A check that an alias misleads. */
  predicate Misleads(job: Job, ctl: Ctl, s: Store) {
    (ctl == CheckDesired && job.name !in s && IsAlias(s, job.name)) ||
    (ctl == CheckLegacy && job.legacy !in s && IsAlias(s, job.legacy))
  }

  lemma MisledTurn(ja: Job, jb: Job, r: Racing, first: bool)
    requires Misleads(if first then ja else jb, Place(r, first), r.store)
    ensures Turn(true, ja, jb, r, first) != Turn(false, ja, jb, r, first)
    ensures Place(Turn(true, ja, jb, Turn(true, ja, jb, r, first), first), first) == Ended(CallFailed)
  {
    var job := if first then ja else jb;
    var missing := if Place(r, first) == CheckDesired then job.name else job.legacy;
    assert Place(Turn(true, ja, jb, r, first), first) == ReadSettings(missing);
  }

  lemma MisledShows(ja: Job, jb: Job, s: Store, schedule: seq<bool>, first: bool)
    requires Play(true, ja, jb, Start(s), schedule) == Play(false, ja, jb, Start(s), schedule)
    requires var r :=
      Play(true, ja, jb, Start(s), schedule); Misleads(if first then ja else jb, Place(r, first), r.store)
    ensures !AnswersNeverMatter(ja, jb, s) && !NeitherFails(ja, jb, s)
  {
    hide Play, Turn, Misleads;
    MisledTurn(ja, jb, Play(true, ja, jb, Start(s), schedule), first);
    PlayOne(true, ja, jb, Start(s), schedule, first);
    PlayOne(false, ja, jb, Start(s), schedule, first);
    PlayOne(true, ja, jb, Start(s), schedule + [first], first);
    assert Play(true, ja, jb, Start(s), schedule + [first]) != Play(false, ja, jb, Start(s), schedule + [first]);
    assert Place(Play(true, ja, jb, Start(s), schedule + [first] + [first]), first) == Ended(CallFailed);
  }

  /** The exact condition under which it does not matter to a race that checks answer for aliases; without it one of the
      two can fail. */
  lemma AliasAnswersInRace(ja: Job, jb: Job, s: Store)
    requires Rivals(false, ja, jb, s)
    ensures AnswersNeverMatter(ja, jb, s) <==> Clear(ja, jb, s)
    ensures NeitherFails(ja, jb, s) <==> Clear(ja, jb, s)
  {
    hide Play, AnswersNeverMatter, NeitherFails;
    if Clear(ja, jb, s) {
      ClearNeverFails(ja, jb, s);
    } else if IsAlias(s, ja.name) {
      NothingPlayed(ja, jb, s);
      MisledShows(ja, jb, s, [], true);
    } else if IsAlias(s, ja.legacy) || IsAlias(s, jb.legacy) {
      OnePlayed(true, ja, jb, s, IsAlias(s, ja.legacy));
      OnePlayed(false, ja, jb, s, IsAlias(s, ja.legacy));
      MisledShows(ja, jb, s, [IsAlias(s, ja.legacy)], IsAlias(s, ja.legacy));
    } else {
      var first := jb.mapping.Ok? && ja.legacy in Requested(jb, jb.name);
      var schedule := RivalPutsAlias(ja, jb, s, first);
      MisledShows(ja, jb, s, schedule, first);
    }
  }

  lemma ClearNeverFails(ja: Job, jb: Job, s: Store)
    requires Rivals(true, ja, jb, s)
    ensures AnswersNeverMatter(ja, jb, s) && NeitherFails(ja, jb, s)
  {
    hide Play, Rivals, StoreInRace, Unconfused;
    forall schedule
      ensures Play(true, ja, jb, Start(s), schedule) == Play(false, ja, jb, Start(s), schedule)
      ensures forall first :: Place(Play(true, ja, jb, Start(s), schedule), first) != Ended(CallFailed)
    {
      RivalsStart(ja, jb, s);
      RaceKeeps(true, ja, jb, s, Start(s), schedule);
    }
  }

  lemma RivalsStart(ja: Job, jb: Job, s: Store)
    requires Rivals(true, ja, jb, s)
    ensures Invariant(true, ja, jb, s, Start(s))
  {
  }

  lemma NothingPlayed(ja: Job, jb: Job, s: Store)
    ensures forall aware :: Play(aware, ja, jb, Start(s), []) == Start(s)
  {
  }

  lemma OnePlayed(aware: bool, ja: Job, jb: Job, s: Store, first: bool)
    requires Rivals(false, ja, jb, s) && !IsAlias(s, ja.name)
    ensures Play(aware, ja, jb, Start(s), [first]) ==
      if first then Racing(s, CheckLegacy, CheckDesired) else Racing(s, CheckDesired, CheckLegacy)
  {
    assert [first][1..] == [];
  }

  /** Between the two checks of the one, its rival creates the index with the alias that the second check asks for. */
  lemma RivalPutsAlias(ja: Job, jb: Job, s: Store, first: bool) returns (schedule: seq<bool>)
    requires Rivals(false, ja, jb, s) && !IsAlias(s, ja.name) && !IsAlias(s, ja.legacy) && !IsAlias(s, jb.legacy)
    requires var (job, rival) := if first then (ja, jb) else (jb, ja);
      rival.mapping.Ok? && job.legacy in Requested(rival, rival.name)
    ensures Play(true, ja, jb, Start(s), schedule) == Play(false, ja, jb, Start(s), schedule)
    ensures var r :=
      Play(true, ja, jb, Start(s), schedule); Misleads(if first then ja else jb, Place(r, first), r.store)
  {
    hide Play, Run, Effective, Rank;
    var (job, rival) := if first then (ja, jb) else (jb, ja);
    var n := Rank(rival, CheckDesired);
    schedule := [first] + Times(!first, n);
    OnePlayed(true, ja, jb, s, first);
    OnePlayed(false, ja, jb, s, first);
    var r := Play(true, ja, jb, Start(s), [first]);
    PlayTwo(true, ja, jb, Start(s), [first], Times(!first, n));
    PlayTwo(false, ja, jb, Start(s), [first], Times(!first, n));
    PlayAlone(true, ja, jb, r, !first, n);
    PlayAlone(false, ja, jb, r, !first, n);
    RunIsAfter(true, rival, s);
    RunIsAfter(false, rival, s);
    NotItsOwnAlias(rival, job.legacy);
    var after := After(rival, s);
    assert Place(r, !first) == CheckDesired && Place(r, first) == CheckLegacy && r.store == s;
    assert Done(true, ja, jb, r, !first) == Done(false, ja, jb, r, !first);
    assert Play(true, ja, jb, Start(s), schedule).store == after;
    assert rival.name in after && job.legacy in after[rival.name].aliases;
    assert Misleads(job, CheckLegacy, after);
  }

  lemma NotItsOwnAlias(job: Job, alias: string)
    requires alias in Requested(job, job.name)
    ensures alias != job.name
  {
    EffectiveMeaning(job.name, job.aliases, {});
  }
}
