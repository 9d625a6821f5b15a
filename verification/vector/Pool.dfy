/** The worker pool of the vector search: a step relation over any number of workers. */
module Pool {
  import opened Ranking
  import opened Items
  import opened Cosine

  datatype Config = Config(items: map<Key, Item>, query: seq<real>, numWorkers: nat, sqrt: real -> real)

  /** Waiting at the jobs channel; holding a job; returned. */
  datatype Worker = Waiting | Working(key: Key) | Exited

  /** todo: items the producer has not read yet; wg: the counter of the wait group. */
  datatype State = State(
    workers: seq<Worker>, wg: nat, todo: set<Key>, jobs: seq<Key>, closed: bool, results: seq<ScoredKey>, waited: bool)

  datatype Step =
    | Spawn
    | Produce(key: Key)
    | CloseJobs
    | Receive(w: nat)
    | Skip(w: nat)
    | Send(w: nat)
    | Exit(w: nat)
    | WaitReturns

  function Initial(c: Config): State { State([], 0, c.items.Keys, [], false, [], false) }

  /** Both channels hold as many elements as there are items. */
  function Capacity(c: Config): nat { |c.items| }

  predicate Matches(c: Config, key: Key)
    requires key in c.items
  {
    |c.items[key].vector| == |c.query|
  }

  function Scored(c: Config, key: Key): ScoredKey
    requires key in c.items
  {
    ScoredKey(key, Similarity(c.sqrt, c.items[key].vector, c.query))
  }

  predicate Holding(c: Config, s: State, w: nat) {
    w < |s.workers| && s.workers[w].Working? && s.workers[w].key in c.items
  }

  predicate Idle(s: State, w: nat) { w < |s.workers| && s.workers[w].Waiting? }

  /** A send needs room in its channel; a receive needs an element, or a closed channel. */
  predicate Enabled(c: Config, s: State, step: Step) {
    match step
    case Spawn => |s.workers| < c.numWorkers
    case Produce(key) => |s.workers| == c.numWorkers && key in s.todo && key in c.items &&
      (|c.items[key].vector| > 0 ==> |s.jobs| < Capacity(c))
    case CloseJobs => |s.workers| == c.numWorkers && s.todo == {} && !s.closed
    case Receive(w) => Idle(s, w) && s.jobs != []
    case Skip(w) => Holding(c, s, w) && !Matches(c, s.workers[w].key)
    case Send(w) => Holding(c, s, w) && Matches(c, s.workers[w].key) && |s.results| < Capacity(c)
    case Exit(w) => Idle(s, w) && s.jobs == [] && s.closed && s.wg > 0
    case WaitReturns => s.closed && s.wg == 0 && !s.waited
  }

  function Apply(c: Config, s: State, step: Step): State
    requires Enabled(c, s, step)
  {
    match step
    case Spawn => s.(workers := s.workers + [Waiting], wg := s.wg + 1)
    case Produce(key) =>
      s.(todo := s.todo - {key}, jobs := if |c.items[key].vector| > 0 then s.jobs + [key] else s.jobs)
    case CloseJobs => s.(closed := true)
    case Receive(w) => s.(workers := s.workers[w := Working(s.jobs[0])], jobs := s.jobs[1..])
    case Skip(w) => s.(workers := s.workers[w := Waiting])
    case Send(w) => s.(workers := s.workers[w := Waiting], results := s.results + [Scored(c, s.workers[w].key)])
    case Exit(w) => s.(workers := s.workers[w := Exited], wg := s.wg - 1)
    case WaitReturns => s.(waited := true)
  }

  // ---------- conservation of work ----------

  /** How often a job is held by a worker. */
  ghost function InFlight(workers: seq<Worker>, key: Key): nat {
    if workers == [] then 0 else InFlight(workers[..|workers| - 1], key) + Held(workers[|workers| - 1], key)
  }

  ghost function Held(w: Worker, key: Key): nat { if w == Working(key) then 1 else 0 }

  /** The number of workers that have not returned. */
  ghost function Active(workers: seq<Worker>): nat {
    if workers == [] then 0 else Active(workers[..|workers| - 1]) + ActiveOne(workers[|workers| - 1])
  }

  ghost function ActiveOne(w: Worker): nat { if w.Exited? then 0 else 1 }

  lemma {:induction false} FlightChanges(workers: seq<Worker>, w: nat, x: Worker, key: Key)
    requires w < |workers|
    ensures InFlight(workers[w := x], key) + Held(workers[w], key) == InFlight(workers, key) + Held(x, key)
  {
    var n := |workers| - 1;
    var front, changed := workers[..n], workers[w := x];
    assert InFlight(changed, key) == InFlight(changed[..n], key) + Held(changed[n], key);
    if w < n {
      FlightChanges(front, w, x, key);
      assert changed[..n] == front[w := x];
    } else {
      assert changed[..n] == front;
    }
  }

  lemma {:induction false} ActiveChanges(workers: seq<Worker>, w: nat, x: Worker)
    requires w < |workers|
    ensures Active(workers[w := x]) + ActiveOne(workers[w]) == Active(workers) + ActiveOne(x)
  {
    var n := |workers| - 1;
    var front, changed := workers[..n], workers[w := x];
    assert Active(changed) == Active(changed[..n]) + ActiveOne(changed[n]);
    if w < n {
      ActiveChanges(front, w, x);
      assert changed[..n] == front[w := x];
    } else {
      assert changed[..n] == front;
    }
  }

  ghost function Delivered(results: seq<ScoredKey>, key: Key): nat { multiset(KeysOf(results))[key] }

  lemma OneMoreDelivered(results: seq<ScoredKey>, x: ScoredKey, key: Key)
    ensures Delivered(results + [x], key) == Delivered(results, key) + if key == x.key then 1 else 0
  {
    assert KeysOf(results + [x]) == KeysOf(results) + [x.key];
  }

  /** In how many places an item is: not yet read, queued, in flight, delivered. */
  ghost function Work(s: State, key: Key): nat {
    Queued(s, key) + InFlight(s.workers, key) + Delivered(s.results, key)
  }

  /** What a step gives up: items without a vector and items of another dimension. */
  ghost function Dropped(c: Config, s: State, step: Step, key: Key): nat
    requires Enabled(c, s, step)
  {
    match step
    case Produce(k) => if k == key && |c.items[k].vector| == 0 then 1 else 0
    case Skip(w) => if s.workers[w].key == key then 1 else 0
    case _ => 0
  }

  /** What the workers' part of the work becomes. */
  lemma FlightStep(c: Config, s: State, step: Step, key: Key)
    requires Enabled(c, s, step)
    ensures var f, f' := InFlight(s.workers, key), InFlight(Apply(c, s, step).workers, key);
      match step
      case Receive(w) => f' == f + if s.jobs[0] == key then 1 else 0
      case Skip(w) => f == f' + if s.workers[w].key == key then 1 else 0
      case Send(w) => f == f' + if s.workers[w].key == key then 1 else 0
      case _ => f' == f
  {
    match step
    case Spawn => assert (s.workers + [Waiting])[..|s.workers|] == s.workers;
    case Receive(w) => FlightChanges(s.workers, w, Working(s.jobs[0]), key);
    case Skip(w) => FlightChanges(s.workers, w, Waiting, key);
    case Send(w) => FlightChanges(s.workers, w, Waiting, key);
    case Exit(w) => FlightChanges(s.workers, w, Exited, key);
    case _ =>
  }

  /** How often an item is unread or queued. */
  ghost function Queued(s: State, key: Key): nat { (if key in s.todo then 1 else 0) + multiset(s.jobs)[key] }

  /** What the queue's part of the work becomes. */
  lemma QueueStep(c: Config, s: State, step: Step, key: Key)
    requires Enabled(c, s, step)
    ensures var q, q' := Queued(s, key), Queued(Apply(c, s, step), key);
      match step
      case Produce(k) => q == q' + Dropped(c, s, step, key)
      case Receive(w) => q == q' + if s.jobs[0] == key then 1 else 0
      case _ => q' == q
  {
    match step
    case Receive(w) => assert s.jobs == [s.jobs[0]] + s.jobs[1..];
    case _ =>
  }

  /** What the results' part of the work becomes. */
  lemma DeliveryStep(c: Config, s: State, step: Step, key: Key)
    requires Enabled(c, s, step)
    ensures Delivered(Apply(c, s, step).results, key) ==
      Delivered(s.results, key) + if step.Send? && s.workers[step.w].key == key then 1 else 0
  {
    if step.Send? {
      OneMoreDelivered(s.results, Scored(c, s.workers[step.w].key), key);
    }
  }

  /** Every step moves work on; nothing is duplicated, and nothing is lost but what the step drops. */
  lemma WorkConserved(c: Config, s: State, step: Step, key: Key)
    requires Enabled(c, s, step)
    ensures Work(s, key) == Work(Apply(c, s, step), key) + Dropped(c, s, step, key)
  {
    FlightStep(c, s, step, key);
    QueueStep(c, s, step, key);
    DeliveryStep(c, s, step, key);
  }

  /** An item is never in two places, and no item that matches is ever lost. */
  ghost predicate Conserved(c: Config, s: State) {
    forall key :: Work(s, key) <= 1
      && (Work(s, key) == 1 ==> key in c.items)
      && (key in c.items && Matches(c, key) ==> Work(s, key) == 1)
  }

  ghost predicate SomeExited(workers: seq<Worker>) { exists w :: 0 <= w < |workers| && workers[w].Exited? }

  ghost predicate ResultsRight(c: Config, s: State) {
    forall x :: x in s.results ==> x.key in c.items && Matches(c, x.key) && x == Scored(c, x.key)
  }

  ghost predicate Inv(c: Config, s: State) {
    && Conserved(c, s)
    && |s.workers| <= c.numWorkers && s.wg == Active(s.workers)
    && ResultsRight(c, s)
    && (s.closed ==> s.todo == {} && |s.workers| == c.numWorkers)
    && (SomeExited(s.workers) ==> s.closed && s.jobs == [])
    && (s.waited ==> s.closed && s.wg == 0)
  }

  lemma InitialInv(c: Config)
    ensures Inv(c, Initial(c))
  {
    assert KeysOf([]) == [];
  }

  lemma ConservedStep(c: Config, s: State, step: Step)
    requires |c.query| > 0 && Conserved(c, s) && Enabled(c, s, step)
    ensures Conserved(c, Apply(c, s, step))
  {
    forall key { WorkConserved(c, s, step, key); }
  }

  lemma ActiveStep(c: Config, s: State, step: Step)
    requires s.wg == Active(s.workers) && Enabled(c, s, step)
    ensures Apply(c, s, step).wg == Active(Apply(c, s, step).workers)
  {
    match step
    case Spawn => assert (s.workers + [Waiting])[..|s.workers|] == s.workers;
    case Receive(w) => ActiveChanges(s.workers, w, Working(s.jobs[0]));
    case Skip(w) => ActiveChanges(s.workers, w, Waiting);
    case Send(w) => ActiveChanges(s.workers, w, Waiting);
    case Exit(w) => ActiveChanges(s.workers, w, Exited);
    case _ =>
  }

  lemma ExitedStep(c: Config, s: State, step: Step)
    requires Enabled(c, s, step)
    requires SomeExited(s.workers) ==> s.closed && s.jobs == []
    requires s.closed ==> s.todo == {} && |s.workers| == c.numWorkers
    ensures var s' := Apply(c, s, step);
      SomeExited(s'.workers) ==> s'.closed && s'.jobs == []
  {
  }

  lemma ResultsStep(c: Config, s: State, step: Step)
    requires Enabled(c, s, step) && ResultsRight(c, s)
    ensures ResultsRight(c, Apply(c, s, step))
  {
  }

  /** The invariant holds after every step, whoever takes it. */
  lemma InvStep(c: Config, s: State, step: Step)
    requires |c.query| > 0 && Inv(c, s) && Enabled(c, s, step)
    ensures Inv(c, Apply(c, s, step))
  {
    ConservedStep(c, s, step);
    ActiveStep(c, s, step);
    ExitedStep(c, s, step);
    ResultsStep(c, s, step);
  }

  // ---------- no send blocks, and some step is always possible ----------

  lemma {:induction false} HeldIsInFlight(workers: seq<Worker>, w: nat)
    requires w < |workers|
    ensures workers[w].Working? ==> InFlight(workers, workers[w].key) >= 1
    ensures workers[w].Exited? || Active(workers) > 0
  {
    var n := |workers| - 1;
    if w < n {
      HeldIsInFlight(workers[..n], w);
    }
  }

  /** Keys that are all different items, and one more, are no more than the items. */
  lemma FewerThanItems(c: Config, keys: seq<Key>, key: Key)
    requires forall k :: multiset(keys)[k] + (if k == key then 1 else 0) <= if k in c.items then 1 else 0
    ensures |keys| < Capacity(c)
  {
    var part, all := multiset(keys)[key := multiset(keys)[key] + 1], multiset(c.items.Keys);
    assert forall k :: part[k] <= all[k];
    assert all == part + (all - part);
    assert |part + (all - part)| == |part| + |all - part|;
    assert |all| == |c.items.Keys| == |c.items|;
  }

  /** A channel that a sender is about to use has room. */
  lemma RoomToProduce(c: Config, s: State, key: Key)
    requires Inv(c, s) && key in s.todo
    ensures |s.jobs| < |c.items| == Capacity(c)
  {
    forall k ensures multiset(s.jobs)[k] + (if k == key then 1 else 0) <= if k in c.items then 1 else 0 {
      assert Work(s, k) <= 1;
    }
    FewerThanItems(c, s.jobs, key);
  }

  lemma RoomToSend(c: Config, s: State, w: nat)
    requires Inv(c, s) && w < |s.workers| && s.workers[w].Working?
    ensures s.workers[w].key in c.items && |s.results| < |c.items| == Capacity(c)
  {
    HeldIsInFlight(s.workers, w);
    var key := s.workers[w].key;
    forall k ensures multiset(KeysOf(s.results))[k] + (if k == key then 1 else 0) <= if k in c.items then 1 else 0 {
      assert Work(s, k) <= 1;
    }
    FewerThanItems(c, KeysOf(s.results), key);
  }

  /** The step a worker can take next. */
  function WorkerStep(c: Config, s: State, w: nat): Step
    requires w < |s.workers| && s.workers[w].Working? ==> s.workers[w].key in c.items
    requires w < |s.workers|
  {
    match s.workers[w]
    case Working(key) => if Matches(c, key) then Send(w) else Skip(w)
    case _ => if s.jobs != [] then Receive(w) else Exit(w)
  }

  lemma WorkerCanStep(c: Config, s: State, w: nat)
    requires Inv(c, s) && s.closed && w < |s.workers| && !s.workers[w].Exited?
    ensures s.workers[w].Working? ==> s.workers[w].key in c.items
    ensures Enabled(c, s, WorkerStep(c, s, w))
  {
    HeldIsInFlight(s.workers, w);
    if s.workers[w].Working? {
      RoomToSend(c, s, w);
    }
  }

  lemma InItems(c: Config, s: State, key: Key)
    requires Conserved(c, s) && key in s.todo
    ensures key in c.items
  {
  }

  /** No deadlock: until the wait returns, some step is possible. */
  lemma Progress(c: Config, s: State) returns (step: Step)
    requires Inv(c, s) && !s.waited
    ensures Enabled(c, s, step)
  {
    if |s.workers| < c.numWorkers {
      step := Spawn;
    } else if key :| key in s.todo {
      InItems(c, s, key);
      RoomToProduce(c, s, key);
      step := Produce(key);
    } else if !s.closed {
      step := CloseJobs;
    } else if w :| 0 <= w < |s.workers| && !s.workers[w].Exited? {
      WorkerCanStep(c, s, w);
      step := WorkerStep(c, s, w);
    } else {
      AllExited(s.workers);
      step := WaitReturns;
    }
  }

  lemma {:induction false} AllExited(workers: seq<Worker>)
    requires forall w :: 0 <= w < |workers| ==> workers[w].Exited?
    ensures Active(workers) == 0 && forall key :: InFlight(workers, key) == 0
  {
    if workers != [] {
      AllExited(workers[..|workers| - 1]);
    }
  }

  lemma {:induction false} NoneActive(workers: seq<Worker>)
    requires Active(workers) == 0
    ensures forall w :: 0 <= w < |workers| ==> workers[w].Exited?
  {
    forall w | 0 <= w < |workers| ensures workers[w].Exited? {
      HeldIsInFlight(workers, w);
    }
  }

  // ---------- every run ends ----------

  /** The steps a run can still take. */
  ghost function Measure(c: Config, s: State): nat
    requires |s.workers| <= c.numWorkers
  {
    2 * (c.numWorkers - |s.workers|) + Pending(s.workers) + 4 * |s.todo| + 3 * |s.jobs|
      + (if s.closed then 0 else 1) + (if s.waited then 0 else 1)
  }

  ghost function Pending(workers: seq<Worker>): nat {
    if workers == [] then 0 else Pending(workers[..|workers| - 1]) + PendingOne(workers[|workers| - 1])
  }

  ghost function PendingOne(w: Worker): nat {
    match w case Working(_) => 2 case Waiting => 1 case Exited => 0
  }

  lemma {:induction false} PendingChanges(workers: seq<Worker>, w: nat, x: Worker)
    requires w < |workers|
    ensures Pending(workers[w := x]) + PendingOne(workers[w]) == Pending(workers) + PendingOne(x)
  {
    var n := |workers| - 1;
    var front, changed := workers[..n], workers[w := x];
    assert Pending(changed) == Pending(changed[..n]) + PendingOne(changed[n]);
    if w < n {
      PendingChanges(front, w, x);
      assert changed[..n] == front[w := x];
    } else {
      assert changed[..n] == front;
    }
  }

  lemma Decreases(c: Config, s: State, step: Step)
    requires Inv(c, s) && Enabled(c, s, step)
    ensures |Apply(c, s, step).workers| <= c.numWorkers
    ensures Measure(c, Apply(c, s, step)) < Measure(c, s)
  {
    var s' := Apply(c, s, step);
    match step
    case Spawn =>
      assert s'.workers[..|s.workers|] == s.workers;
      assert Pending(s'.workers) == Pending(s.workers) + 1;
    case Receive(w) => PendingChanges(s.workers, w, s'.workers[w]);
    case Skip(w) => PendingChanges(s.workers, w, Waiting);
    case Send(w) => PendingChanges(s.workers, w, Waiting);
    case Exit(w) => PendingChanges(s.workers, w, Exited);
    case _ =>
  }

  /** The steps, taken one after the other, lead from s to s'. */
  ghost predicate Leads(c: Config, s: State, steps: seq<Step>, s': State)
    decreases |steps|
  {
    if steps == [] then s == s'
    else Enabled(c, s, steps[0]) && Leads(c, Apply(c, s, steps[0]), steps[1..], s')
  }

  lemma {:induction false} LeadsSafely(c: Config, s: State, steps: seq<Step>, s': State)
    requires |c.query| > 0 && Inv(c, s) && Leads(c, s, steps, s')
    ensures Inv(c, s') && |steps| + Measure(c, s') <= Measure(c, s)
    decreases |steps|
  {
    if steps != [] {
      InvStep(c, s, steps[0]);
      Decreases(c, s, steps[0]);
      LeadsSafely(c, Apply(c, s, steps[0]), steps[1..], s');
    }
  }

  /** Any interleaving keeps the invariant and ends; if it cannot go on, the search is over. */
  lemma EveryRun(c: Config, steps: seq<Step>, s: State)
    requires |c.query| > 0 && c.numWorkers >= 1 && Leads(c, Initial(c), steps, s)
    ensures Inv(c, s) && |steps| <= 2 * c.numWorkers + 4 * |c.items| + 2
    ensures (forall step :: !Enabled(c, s, step)) ==> s.waited && Lists(s.results, Scan(c)) && DistinctKeys(s.results)
  {
    InitialInv(c);
    LeadsSafely(c, Initial(c), steps, s);
    if !s.waited {
      var step := Progress(c, s);
    } else {
      AllDelivered(c, s);
    }
  }

  // ---------- what a run delivers ----------

  /** The sequential scan over the items whose vector has the dimension of the query. */
  ghost function Scan(c: Config): map<Key, real> {
    map key | key in c.items && Matches(c, key) :: Scored(c, key).score
  }

  /** When the wait returns, all work is delivered. */
  lemma NothingElsewhere(c: Config, s: State, key: Key)
    requires Inv(c, s) && s.waited && c.numWorkers >= 1
    ensures Work(s, key) == Delivered(s.results, key)
  {
    NoneActive(s.workers);
    AllExited(s.workers);
    assert s.workers[0].Exited?;
  }

  lemma DeliveredIn(results: seq<ScoredKey>, key: Key)
    ensures Delivered(results, key) >= 1 <==> exists x :: x in results && x.key == key
  {
  }

  /** Every matching item has then been delivered exactly once, with its score. */
  lemma AllDelivered(c: Config, s: State)
    requires Inv(c, s) && s.waited && c.numWorkers >= 1
    ensures Lists(s.results, Scan(c)) && DistinctKeys(s.results)
  {
    forall x ensures x in s.results <==> x.key in Scan(c) && Scan(c)[x.key] == x.score {
      NothingElsewhere(c, s, x.key);
      DeliveredIn(s.results, x.key);
    }
    forall i, j | 0 <= i < j < |s.results| ensures s.results[i].key != s.results[j].key {
      NothingElsewhere(c, s, s.results[i].key);
      TwiceCounted(KeysOf(s.results), i, j);
    }
  }

  lemma TwiceCounted(keys: seq<Key>, i: nat, j: nat)
    requires i < j < |keys|
    ensures keys[i] == keys[j] ==> multiset(keys)[keys[i]] >= 2
  {
    assert keys == keys[..j] + keys[j..];
    assert keys[i] in keys[..j] && keys[j] in keys[j..];
  }

  /** A scheduler picks an enabled step, knowing the state and how many steps have been taken. */
  ghost predicate Schedules(choose: (nat, State) -> Step, c: Config) {
    forall i, s :: Inv(c, s) && !s.waited ==> Enabled(c, s, choose(i, s))
  }

  /** There is one: some step is always enabled. */
  ghost function AnyStep(c: Config, s: State): Step {
    if Inv(c, s) && !s.waited then
      assert exists step :: Enabled(c, s, step) by { var step := Progress(c, s); }
      var step :| Enabled(c, s, step);
      step
    else WaitReturns
  }

  ghost function AnyChoice(c: Config): (nat, State) -> Step { (i, s) => AnyStep(c, s) }

  lemma AnyChoiceSchedules(c: Config)
    ensures Schedules(AnyChoice(c), c)
  {
  }

  /** A run under any scheduler. */
  method RunPool(c: Config, choose: (nat, State) -> Step) returns (s: State, steps: nat)
    requires |c.query| > 0 && Schedules(choose, c)
    ensures Inv(c, s) && s.waited
    ensures steps <= 2 * c.numWorkers + 4 * |c.items| + 2
  {
    InitialInv(c);
    s, steps := Initial(c), 0;
    while !s.waited
      invariant Inv(c, s) && steps + Measure(c, s) <= Measure(c, Initial(c))
      decreases Measure(c, s)
    {
      var step := choose(steps, s);
      InvStep(c, s, step);
      Decreases(c, s, step);
      s, steps := Apply(c, s, step), steps + 1;
    }
  }

  function Workers(gomaxprocs: int): nat { if gomaxprocs < 1 then 1 else gomaxprocs }

  /** What a search ought to return. */
  ghost function Results(queryVec: seq<real>, items: map<Key, Item>, topK: int, sqrt: real -> real): seq<ScoredKey> {
    if |queryVec| == 0 then [] else Truncate(Ranked(Scan(Config(items, queryVec, 1, sqrt))), topK)
  }

  lemma ScanIsSequential(c: Config)
    ensures Scan(c) == Scan(c.(numWorkers := 1))
  {
  }

  lemma NothingToScan(c: Config)
    requires c.items == map[]
    ensures Ranked(Scan(c)) == []
  {
    RankedNothing();
    assert Scan(c) == map[];
  }

  /** Once the pool is done, the results are ranked. */
  method RankResults(c: Config, s: State, topK: int) returns (ranked: seq<ScoredKey>)
    requires Inv(c, s) && s.waited && c.numWorkers >= 1
    ensures ranked == Truncate(Ranked(Scan(c)), topK)
  {
    AllDelivered(c, s);
    ranked := SortScores(s.results, Scan(c));
    if topK > 0 && |ranked| > topK {
      ranked := ranked[..topK];
    }
  }

  /** A search finds the items whose vector is as long as the query's, unless the query has none; their scores are
      the cosines. */
  lemma ResultsAre(queryVec: seq<real>, items: map<Key, Item>, topK: int, sqrt: real -> real)
    ensures forall x :: x in Results(queryVec, items, topK, sqrt) ==>
      && x.key in items && |queryVec| > 0 && |items[x.key].vector| == |queryVec|
      && x.score == Similarity(sqrt, items[x.key].vector, queryVec)
    ensures topK <= 0 ==> forall key :: key in items && |queryVec| > 0 && |items[key].vector| == |queryVec| ==>
      exists x :: x in Results(queryVec, items, topK, sqrt) && x.key == key
  {
    var m := Scan(Config(items, queryVec, 1, sqrt));
    assert forall x :: x in Truncate(Ranked(m), topK) ==> x in Ranked(m);
    forall key | topK <= 0 && key in items && |queryVec| > 0 && |items[key].vector| == |queryVec|
      ensures exists x :: x in Results(queryVec, items, topK, sqrt) && x.key == key
    {
      assert key in m;
      assert ScoredKey(key, m[key]) in Ranked(m);
    }
  }

  /** The result depends neither on the number of workers nor on the schedule. */
  method VectorSearch(queryVec: seq<real>, items: map<Key, Item>, topK: int, gomaxprocs: int, sqrt: real -> real,
                      choose: (nat, State) -> Step)
    returns (ranked: seq<ScoredKey>)
    requires Schedules(choose, Config(items, queryVec, Workers(gomaxprocs), sqrt))
    ensures ranked == Results(queryVec, items, topK, sqrt)
    ensures forall x :: x in ranked ==>
      && x.key in items && |queryVec| > 0 && |items[x.key].vector| == |queryVec|
      && x.score == Similarity(sqrt, items[x.key].vector, queryVec)
    ensures topK <= 0 ==> forall key :: key in items && |queryVec| > 0 && |items[key].vector| == |queryVec| ==>
      exists x :: x in ranked && x.key == key
  {
    ResultsAre(queryVec, items, topK, sqrt);
    var c := Config(items, queryVec, Workers(gomaxprocs), sqrt);
    if |items| == 0 || |queryVec| == 0 {
      if |items| == 0 {
        NothingToScan(c.(numWorkers := 1));
      }
      return [];
    }
    var s, _ := RunPool(c, choose);
    ScanIsSequential(c);
    ranked := RankResults(c, s, topK);
  }

  lemma ResultsDistinct(queryVec: seq<real>, items: map<Key, Item>, topK: int, sqrt: real -> real)
    ensures DistinctKeys(Results(queryVec, items, topK, sqrt))
    ensures forall x :: x in Results(queryVec, items, topK, sqrt) ==> x.key in items
  {
    var m := Scan(Config(items, queryVec, 1, sqrt));
    TruncatedDistinct(m, topK);
    assert forall x :: x in Truncate(Ranked(m), topK) ==> x in Ranked(m);
  }
}
