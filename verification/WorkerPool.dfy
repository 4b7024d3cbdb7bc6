/**
 The adaptive worker pool before Stop: workers and concurrent Submit calls as interleaved atomic
 steps. A Submit call reads the worker counter once and acts on that snapshot until it returns.
 */
module WorkerPool {
  import opened Basics

  type Job = int

  /** Where a client is inside Submit. */
  datatype Client =
    | Idle
    | Entered(job: Job)
    | Loaded(job: Job, current: int)     // snapshot of activeWorkers taken
    | Scaling(job: Job, current: int)    // queue was filling up: about to spawn
    | Trying(job: Job, current: int)     // at the non-blocking send
    | Overflow(job: Job, current: int)   // the queue was full
    | Pushing(job: Job)                  // at the blocking send after the transient spawn
    | Inline(job: Job)                   // executing the job itself

  datatype Config = Config(minWorkers: nat, maxWorkers: nat, queueSize: nat, clients: nat) {
    predicate Valid() {
      0 < minWorkers <= maxWorkers && 0 < queueSize
    }
  }

  /** The bounds that the constructor settles on; `cpus` is the number of processors. */
  function NewConfig(minWorkers: int, maxWorkers: int, queueSize: int, cpus: nat, clients: nat): (c: Config)
    requires cpus > 0
    ensures c.Valid() && c.clients == clients
    ensures 0 < minWorkers <= maxWorkers && 0 < queueSize ==> c == Config(minWorkers, maxWorkers, queueSize, clients)
    ensures minWorkers <= 0 ==> c.minWorkers == cpus
    ensures maxWorkers < c.minWorkers ==> c.maxWorkers == 4 * c.minWorkers
    ensures queueSize <= 0 ==> c.queueSize == 1000
  {
    var min := if minWorkers <= 0 then cpus else minWorkers;
    var max := if maxWorkers < min then min * 4 else maxWorkers;
    Config(min, max, if queueSize <= 0 then 1000 else queueSize, clients)
  }

  datatype State = State(
    active: int,                         // the atomic counter
    queue: seq<Job>,
    workers: seq<Option<Job>>,           // the job each spawned worker is executing
    clients: seq<Client>,
    finished: seq<Job>)

  datatype Action =
    | Submit(k: nat, job: Job)
    | Load(k: nat)
    | Check(k: nat)
    | Spawn(k: nat)
    | Try(k: nat)
    | RunInline(k: nat)
    | FinishInline(k: nat)
    | Push(k: nat)
    | Take(w: nat)
    | Finish(w: nat)

  function Initial(c: Config): State {
    State(c.minWorkers, [], seq(c.minWorkers, _ => None), seq(c.clients, _ => Idle), [])
  }

  function At(s: State, k: nat, client: Client): State
    requires k < |s.clients|
  {
    s.(clients := s.clients[k := client])
  }

  function SpawnWorker(s: State): State {
    s.(active := s.active + 1, workers := s.workers + [None])
  }

  function Enqueue(s: State, job: Job): State {
    s.(queue := s.queue + [job])
  }

  /** A step of client k inside Submit. */
  function ClientStep(c: Config, s: State, k: nat, a: Action): Option<State>
    requires k < |s.clients|
  {
    match (a, s.clients[k])
    case (Submit(_, job), Idle) => Some(At(s, k, Entered(job)))
    case (Load(_), Entered(job)) => Some(At(s, k, Loaded(job, s.active)))
    case (Check(_), Loaded(job, current)) =>
      var grows := |s.queue| > current / 2 && current < c.maxWorkers;
      Some(At(s, k, if grows then Scaling(job, current) else Trying(job, current)))
    case (Spawn(_), Scaling(job, current)) => Some(At(SpawnWorker(s), k, Trying(job, current)))
    case (Try(_), Trying(job, current)) =>
      if |s.queue| < c.queueSize then Some(At(Enqueue(s, job), k, Idle)) else Some(At(s, k, Overflow(job, current)))
    case (Spawn(_), Overflow(job, current)) =>
      if current < c.maxWorkers then Some(At(SpawnWorker(s), k, Pushing(job))) else None
    case (Push(_), Pushing(job)) =>
      if |s.queue| < c.queueSize then Some(At(Enqueue(s, job), k, Idle)) else None
    case (RunInline(_), Overflow(job, current)) =>
      if current < c.maxWorkers then None else Some(At(s, k, Inline(job)))
    case (FinishInline(_), Inline(job)) => Some(At(s.(finished := s.finished + [job]), k, Idle))
    case _ => None
  }

  function WorkerStep(s: State, w: nat, a: Action): Option<State>
    requires w < |s.workers|
  {
    match (a, s.workers[w])
    case (Take(_), None) =>
      if s.queue == [] then None
      else Some(s.(queue := s.queue[1..], workers := s.workers[w := Some(s.queue[0])]))
    case (Finish(_), Some(job)) => Some(s.(finished := s.finished + [job], workers := s.workers[w := None]))
    case _ => None
  }

  /** The state after an action, or None when the action is blocked or not next in its goroutine. */
  function Step(c: Config, s: State, a: Action): Option<State> {
    match a
    case Take(w) => if w < |s.workers| then WorkerStep(s, w, a) else None
    case Finish(w) => if w < |s.workers| then WorkerStep(s, w, a) else None
    case _ => if a.k < |s.clients| then ClientStep(c, s, a.k, a) else None
  }

  function Run(c: Config, run: seq<Action>): Option<State> {
    if run == [] then Some(Initial(c))
    else
      var before := Run(c, run[..|run| - 1]);
      if before.None? then None else Step(c, before.value, run[|run| - 1])
  }

  lemma Extend(c: Config, run: seq<Action>, a: Action)
    requires Run(c, run).Some?
    ensures Run(c, run + [a]) == Step(c, Run(c, run).value, a)
  {
    assert (run + [a])[..|run|] == run;
  }

  ghost predicate Reachable(c: Config, s: State) {
    exists run :: Run(c, run) == Some(s)
  }

  /** What a state looks like to the submitters. */
  datatype Outline = Outline(active: int, spawned: nat, queued: nat, clients: seq<Client>)

  function OutlineOf(s: State): Outline {
    Outline(s.active, |s.workers|, |s.queue|, s.clients)
  }

  /** The first n clients in the given state, all others idle. */
  function Row(c: Config, n: nat, client: Client): seq<Client> {
    seq(c.clients, k => if k < n then client else Idle)
  }

  ghost predicate Together(c: Config, s: State, active: int, queued: nat, n: nat, client: Client) {
    Reachable(c, s) && active >= 0 && OutlineOf(s) == Outline(active, active, queued, Row(c, n, client))
  }

  /** All clients are idle. */
  ghost predicate Calm(c: Config, s: State, active: int, queued: nat) {
    Together(c, s, active, queued, 0, Idle)
  }

  // ---------------------------------------------------------------- bound on the workers

  /** Spawns that a client may still perform on the snapshot it holds. */
  function SpawnsLeft(c: Config, client: Client): nat {
    match client
    case Loaded(_, current) => if current < c.maxWorkers then 2 else 0
    case Scaling(_, current) => 2
    case Trying(_, current) => if current < c.maxWorkers then 1 else 0
    case Overflow(_, current) => if current < c.maxWorkers then 1 else 0
    case _ => 0
  }

  function TotalSpawnsLeft(c: Config, cs: seq<Client>): nat {
    if cs == [] then 0 else TotalSpawnsLeft(c, cs[..|cs| - 1]) + SpawnsLeft(c, cs[|cs| - 1])
  }

  lemma {:induction false} UpdateSpawns(c: Config, cs: seq<Client>, k: nat, client: Client)
    requires k < |cs|
    ensures TotalSpawnsLeft(c, cs[k := client]) + SpawnsLeft(c, cs[k]) == TotalSpawnsLeft(c, cs) + SpawnsLeft(c, client)
    ensures TotalSpawnsLeft(c, cs) - SpawnsLeft(c, cs[k]) <= 2 * (|cs| - 1)
  {
    var n := |cs| - 1;
    SpawnsBound(c, cs[..n]);
    if k == n {
      assert cs[k := client][..n] == cs[..n];
    } else {
      assert cs[k := client][..n] == cs[..n][k := client];
      UpdateSpawns(c, cs[..n], k, client);
    }
  }

  lemma {:induction false} SpawnsBound(c: Config, cs: seq<Client>)
    ensures TotalSpawnsLeft(c, cs) <= 2 * |cs|
  {
    if cs != [] { SpawnsBound(c, cs[..|cs| - 1]); }
  }

  lemma {:induction false} IdleClients(c: Config, n: nat)
    ensures TotalSpawnsLeft(c, seq(n, _ => Idle)) == 0
  {
    if n > 0 {
      IdleClients(c, n - 1);
      assert seq(n, _ => Idle)[..n - 1] == seq(n - 1, _ => Idle);
    }
  }

  /** A client can only be about to scale when its snapshot was below the maximum. */
  predicate Sensible(c: Config, client: Client) {
    client.Scaling? ==> client.current < c.maxWorkers
  }

  predicate Bounded(c: Config, s: State) {
    && |s.clients| == c.clients
    && s.active == |s.workers| >= c.minWorkers
    && |s.queue| <= c.queueSize
    && (forall k :: 0 <= k < |s.clients| ==> Sensible(c, s.clients[k]))
    && (c.clients == 0 ==> s.active == c.minWorkers)
    && (c.clients > 0 ==> s.active + TotalSpawnsLeft(c, s.clients) <= c.maxWorkers - 1 + 2 * c.clients)
  }

  lemma WorkerStepKeepsBound(c: Config, s: State, a: Action)
    requires Bounded(c, s) && (a.Take? || a.Finish?) && Step(c, s, a).Some?
    ensures Bounded(c, Step(c, s, a).value)
  {
  }

  /** What a client step does to the counts, and to nobody but the client. */
  lemma ClientStepCounts(c: Config, s: State, a: Action)
    requires Bounded(c, s) && !a.Take? && !a.Finish? && Step(c, s, a).Some?
    ensures var t := Step(c, s, a).value;
      && |t.clients| == |s.clients| && a.k < |s.clients| && t.clients == s.clients[a.k := t.clients[a.k]]
      && s.active <= t.active == |t.workers| && |t.queue| <= c.queueSize && Sensible(c, t.clients[a.k])
      && (t.active + SpawnsLeft(c, t.clients[a.k]) <= s.active + SpawnsLeft(c, s.clients[a.k])
          || (a.Load? && s.active == t.active < c.maxWorkers))
  {
    assert Sensible(c, s.clients[a.k]);
  }

  lemma StepKeepsBound(c: Config, s: State, a: Action)
    requires c.Valid() && Bounded(c, s) && Step(c, s, a).Some?
    ensures Bounded(c, Step(c, s, a).value)
  {
    if a.Take? || a.Finish? {
      WorkerStepKeepsBound(c, s, a);
    } else {
      var t := Step(c, s, a).value;
      ClientStepCounts(c, s, a);
      UpdateSpawns(c, s.clients, a.k, t.clients[a.k]);
    }
  }

  lemma {:induction false} RunIsBounded(c: Config, run: seq<Action>)
    requires c.Valid() && Run(c, run).Some?
    ensures Bounded(c, Run(c, run).value)
  {
    if run == [] {
      IdleClients(c, c.clients);
    } else {
      RunIsBounded(c, run[..|run| - 1]);
      StepKeepsBound(c, Run(c, run[..|run| - 1]).value, run[|run| - 1]);
    }
  }

  /**
   A bound for every pool: with k concurrent submitters, maxWorkers - 1 + 2k. WorkerPoolLimits says when it is met.
   */
  lemma WorkerBound(c: Config, run: seq<Action>)
    requires c.Valid() && Run(c, run).Some?
    ensures var s := Run(c, run).value;
      && s.active == |s.workers| && c.minWorkers <= s.active
      && s.active <= (if c.clients == 0 then c.minWorkers else c.maxWorkers - 1 + 2 * c.clients)
  {
    RunIsBounded(c, run);
  }

  // ---------------------------------------------------------------- no job is lost or run twice

  function Count(js: seq<Job>, j: Job): nat {
    if js == [] then 0 else Count(js[..|js| - 1], j) + (if js[|js| - 1] == j then 1 else 0)
  }

  function Executing(ws: seq<Option<Job>>, j: Job): nat {
    if ws == [] then 0 else Executing(ws[..|ws| - 1], j) + (if ws[|ws| - 1] == Some(j) then 1 else 0)
  }

  function ExecutingInline(cs: seq<Client>, j: Job): nat {
    if cs == [] then 0 else ExecutingInline(cs[..|cs| - 1], j) + (if cs[|cs| - 1] == Inline(j) then 1 else 0)
  }

  /** Inside Submit, before the job is queued or executed. */
  predicate Carries(client: Client, j: Job) {
    match client
    case Idle => false
    case Inline(_) => false
    case Entered(job) => job == j
    case Loaded(job, _) => job == j
    case Scaling(job, _) => job == j
    case Trying(job, _) => job == j
    case Overflow(job, _) => job == j
    case Pushing(job) => job == j
  }

  function Carried(cs: seq<Client>, j: Job): nat {
    if cs == [] then 0 else Carried(cs[..|cs| - 1], j) + (if Carries(cs[|cs| - 1], j) then 1 else 0)
  }

  /** How many times the run submits job j. */
  function Submits(run: seq<Action>, j: Job): nat {
    if run == [] then 0
    else
      var a := run[|run| - 1];
      Submits(run[..|run| - 1], j) + (if a.Submit? && a.job == j then 1 else 0)
  }

  lemma {:induction false} UpdateExecuting(ws: seq<Option<Job>>, w: nat, v: Option<Job>, j: Job)
    requires w < |ws|
    ensures Executing(ws[w := v], j) + (if ws[w] == Some(j) then 1 else 0) ==
      Executing(ws, j) + (if v == Some(j) then 1 else 0)
  {
    var n := |ws| - 1;
    if w == n {
      assert ws[w := v][..n] == ws[..n];
    } else {
      assert ws[w := v][..n] == ws[..n][w := v];
      UpdateExecuting(ws[..n], w, v, j);
    }
  }

  lemma {:induction false} UpdateInline(cs: seq<Client>, k: nat, client: Client, j: Job)
    requires k < |cs|
    ensures ExecutingInline(cs[k := client], j) + (if cs[k] == Inline(j) then 1 else 0) ==
      ExecutingInline(cs, j) + (if client == Inline(j) then 1 else 0)
    ensures Carried(cs[k := client], j) + (if Carries(cs[k], j) then 1 else 0) ==
      Carried(cs, j) + (if Carries(client, j) then 1 else 0)
  {
    var n := |cs| - 1;
    if k == n {
      assert cs[k := client][..n] == cs[..n];
    } else {
      assert cs[k := client][..n] == cs[..n][k := client];
      UpdateInline(cs[..n], k, client, j);
    }
  }

  lemma {:induction false} CountPop(js: seq<Job>, j: Job)
    requires js != []
    ensures Count(js, j) == Count(js[1..], j) + (if js[0] == j then 1 else 0)
  {
    if |js| > 1 {
      CountPop(js[..|js| - 1], j);
      assert js[1..][..|js| - 2] == js[..|js| - 1][1..];
    }
  }

  lemma {:induction false} NothingExecutes(n: nat, m: nat, j: Job)
    ensures Executing(seq(n, _ => None), j) == 0
    ensures ExecutingInline(seq(m, _ => Idle), j) == 0 && Carried(seq(m, _ => Idle), j) == 0
    decreases n + m
  {
    if n > 0 {
      NothingExecutes(n - 1, m, j);
      assert seq<Option<Job>>(n, _ => None)[..n - 1] == seq(n - 1, _ => None);
    } else if m > 0 {
      NothingExecutes(n, m - 1, j);
      assert seq(m, _ => Idle)[..m - 1] == seq(m - 1, _ => Idle);
    }
  }

  /** Occurrences of job j inside Submit, queued, executing or finished. */
  function InPlay(s: State, j: Job): nat {
    Carried(s.clients, j)
    + Count(s.queue, j) + Executing(s.workers, j) + ExecutingInline(s.clients, j) + Count(s.finished, j)
  }

  lemma WorkerStepConservesJobs(c: Config, s: State, a: Action, j: Job)
    requires Step(c, s, a).Some? && (a.Take? || a.Finish?)
    ensures InPlay(Step(c, s, a).value, j) == InPlay(s, j)
  {
    var t := Step(c, s, a).value;
    UpdateExecuting(s.workers, a.w, t.workers[a.w], j);
    if a.Take? { CountPop(s.queue, j); }
  }

  lemma ClientStepConservesJobs(c: Config, s: State, a: Action, j: Job)
    requires Step(c, s, a).Some? && !a.Take? && !a.Finish?
    ensures InPlay(Step(c, s, a).value, j) == InPlay(s, j) + (if a.Submit? && a.job == j then 1 else 0)
  {
    var t := Step(c, s, a).value;
    if a.Spawn? { NewWorkerExecutesNothing(s, j); }
    UpdateInline(s.clients, a.k, t.clients[a.k], j);
    assert t.clients == s.clients[a.k := t.clients[a.k]];
  }

  lemma NewWorkerExecutesNothing(s: State, j: Job)
    ensures Executing(SpawnWorker(s).workers, j) == Executing(s.workers, j)
  {
    assert (s.workers + [None])[..|s.workers|] == s.workers;
  }

  lemma StepConservesJobs(c: Config, s: State, a: Action, j: Job)
    requires Step(c, s, a).Some?
    ensures InPlay(Step(c, s, a).value, j) == InPlay(s, j) + (if a.Submit? && a.job == j then 1 else 0)
  {
    if a.Take? || a.Finish? {
      WorkerStepConservesJobs(c, s, a, j);
    } else {
      ClientStepConservesJobs(c, s, a, j);
    }
  }

  /**
   In every interleaving each submitted job is still inside Submit, queued, executing on a worker or in its
   client, or finished, with its multiplicity.
   */
  lemma {:induction false} JobsAreConserved(c: Config, run: seq<Action>, j: Job)
    requires Run(c, run).Some?
    ensures var s := Run(c, run).value;
      Submits(run, j) ==
        Carried(s.clients, j)
        + Count(s.queue, j) + Executing(s.workers, j) + ExecutingInline(s.clients, j) + Count(s.finished, j)
  {
    if run == [] {
      NothingExecutes(c.minWorkers, c.clients, j);
    } else {
      JobsAreConserved(c, run[..|run| - 1], j);
      StepConservesJobs(c, Run(c, run[..|run| - 1]).value, run[|run| - 1], j);
    }
  }

  // ---------------------------------------------------------------- the queue is first in, first out

  /** The job that client k brings to a send. */
  function JobAt(s: State, k: nat): seq<Job> {
    if k >= |s.clients| then []
    else
      match s.clients[k]
      case Trying(job, _) => [job]
      case Pushing(job) => [job]
      case _ => []
  }

  /** The job of a send that returned, which is one after which the call is over. */
  function QueuedBy(s: State, a: Action, t: State): seq<Job> {
    if (a.Try? || a.Push?) && a.k < |t.clients| && t.clients[a.k].Idle? then JobAt(s, a.k) else []
  }

  /** The job that a worker took. */
  function TakenBy(a: Action, t: State): seq<Job> {
    if a.Take? && a.w < |t.workers| && t.workers[a.w].Some? then [t.workers[a.w].value] else []
  }

  function Queued(c: Config, run: seq<Action>): seq<Job>
    requires Run(c, run).Some?
  {
    if run == [] then []
    else
      var init, a := run[..|run| - 1], run[|run| - 1];
      Queued(c, init) + QueuedBy(Run(c, init).value, a, Run(c, run).value)
  }

  function Taken(c: Config, run: seq<Action>): seq<Job>
    requires Run(c, run).Some?
  {
    if run == [] then []
    else
      Taken(c, run[..|run| - 1]) + TakenBy(run[|run| - 1], Run(c, run).value)
  }

  lemma StepKeepsOrder(c: Config, s: State, a: Action)
    requires Step(c, s, a).Some?
    ensures var t := Step(c, s, a).value;
      s.queue + QueuedBy(s, a, t) == TakenBy(a, t) + t.queue
  {
    var t := Step(c, s, a).value;
    if a.Take? {
      assert s.queue == [s.queue[0]] + t.queue;
    }
  }

  /** Workers take the jobs in the order in which they were sent to the queue. */
  lemma {:induction false} FirstInFirstOut(c: Config, run: seq<Action>)
    requires Run(c, run).Some?
    ensures Queued(c, run) == Taken(c, run) + Run(c, run).value.queue
  {
    if run != [] {
      var init, a := run[..|run| - 1], run[|run| - 1];
      var s := Run(c, init).value;
      FirstInFirstOut(c, init);
      StepKeepsOrder(c, s, a);
      var t := Step(c, s, a).value;
      Regroup(Taken(c, init), s.queue, QueuedBy(s, a, t), TakenBy(a, t), t.queue);
    }
  }

  lemma Regroup(taken: seq<Job>, queue: seq<Job>, more: seq<Job>, gone: seq<Job>, rest: seq<Job>)
    requires queue + more == gone + rest
    ensures taken + queue + more == taken + gone + rest
  {
    assert taken + queue + more == taken + (queue + more);
  }

  // ---------------------------------------------------------------- every submitted job can finish

  function ClientWork(client: Client): nat {
    match client
    case Idle => 0
    case Entered(_) => 9
    case Loaded(_, _) => 8
    case Scaling(_, _) => 7
    case Trying(_, _) => 6
    case Overflow(_, _) => 5
    case Pushing(_) => 4
    case Inline(_) => 1
  }

  function TotalClientWork(cs: seq<Client>): nat {
    if cs == [] then 0 else TotalClientWork(cs[..|cs| - 1]) + ClientWork(cs[|cs| - 1])
  }

  function Busy(ws: seq<Option<Job>>): nat {
    if ws == [] then 0 else Busy(ws[..|ws| - 1]) + (if ws[|ws| - 1].Some? then 1 else 0)
  }

  /** Steps left until everything is settled when nobody submits any more; each takes some. */
  function Remaining(s: State): nat {
    TotalClientWork(s.clients) + 2 * |s.queue| + Busy(s.workers)
  }

  lemma {:induction false} UpdateClientWork(cs: seq<Client>, k: nat, client: Client)
    requires k < |cs|
    ensures TotalClientWork(cs[k := client]) + ClientWork(cs[k]) == TotalClientWork(cs) + ClientWork(client)
  {
    var n := |cs| - 1;
    if k == n {
      assert cs[k := client][..n] == cs[..n];
    } else {
      assert cs[k := client][..n] == cs[..n][k := client];
      UpdateClientWork(cs[..n], k, client);
    }
  }

  lemma {:induction false} UpdateBusy(ws: seq<Option<Job>>, w: nat, v: Option<Job>)
    requires w < |ws|
    ensures Busy(ws[w := v]) + (if ws[w].Some? then 1 else 0) == Busy(ws) + (if v.Some? then 1 else 0)
  {
    var n := |ws| - 1;
    if w == n {
      assert ws[w := v][..n] == ws[..n];
    } else {
      assert ws[w := v][..n] == ws[..n][w := v];
      UpdateBusy(ws[..n], w, v);
    }
  }

  lemma StepMakesProgress(c: Config, s: State, a: Action)
    requires Step(c, s, a).Some? && !a.Submit?
    ensures Remaining(Step(c, s, a).value) < Remaining(s)
  {
    var t := Step(c, s, a).value;
    if a.Take? || a.Finish? {
      UpdateBusy(s.workers, a.w, t.workers[a.w]);
    } else {
      assert (s.workers + [None])[..|s.workers|] == s.workers;
      UpdateClientWork(s.clients, a.k, t.clients[a.k]);
      assert t.clients == s.clients[a.k := t.clients[a.k]];
    }
  }

  /** Nothing queued, nothing executing, nobody inside Submit. */
  predicate Settled(s: State) {
    && s.queue == []
    && (forall w :: 0 <= w < |s.workers| ==> s.workers[w].None?)
    && (forall k :: 0 <= k < |s.clients| ==> s.clients[k].Idle?)
  }

  /** What client k does next when the queue has room. */
  function ClientMove(c: Config, s: State, k: nat): Action
    requires k < |s.clients|
  {
    match s.clients[k]
    case Idle => Submit(k, 0)
    case Entered(_) => Load(k)
    case Loaded(_, _) => Check(k)
    case Scaling(_, _) => Spawn(k)
    case Trying(_, _) => Try(k)
    case Overflow(_, current) => if current < c.maxWorkers then Spawn(k) else RunInline(k)
    case Pushing(_) => Push(k)
    case Inline(_) => FinishInline(k)
  }

  /** Until everything is settled, some step other than a new submission is possible. */
  lemma NeverStuck(c: Config, s: State) returns (a: Action)
    requires c.Valid() && Bounded(c, s) && !Settled(s)
    ensures !a.Submit? && Step(c, s, a).Some?
  {
    if w :| 0 <= w < |s.workers| && s.workers[w].Some? {
      a := Finish(w);
    } else if s.queue != [] {
      a := Take(0);
    } else {
      var k :| 0 <= k < |s.clients| && !s.clients[k].Idle?;
      a := ClientMove(c, s, k);
    }
  }

  lemma {:induction false} NothingInPlay(s: State, j: Job)
    requires Settled(s)
    ensures InPlay(s, j) == Count(s.finished, j)
  {
    AllIdle(s.clients, j);
    AllFree(s.workers, j);
  }

  lemma {:induction false} AllIdle(cs: seq<Client>, j: Job)
    requires forall k :: 0 <= k < |cs| ==> cs[k].Idle?
    ensures Carried(cs, j) == 0 && ExecutingInline(cs, j) == 0
  {
    if cs != [] { AllIdle(cs[..|cs| - 1], j); }
  }

  lemma {:induction false} AllFree(ws: seq<Option<Job>>, j: Job)
    requires forall w :: 0 <= w < |ws| ==> ws[w].None?
    ensures Executing(ws, j) == 0
  {
    if ws != [] { AllFree(ws[..|ws| - 1], j); }
  }

  /** From every reachable state the pool can settle without another submission. */
  lemma {:induction false} CanSettle(c: Config, run: seq<Action>) returns (whole: seq<Action>)
    requires c.Valid() && Run(c, run).Some?
    ensures run <= whole && Run(c, whole).Some? && Settled(Run(c, whole).value)
    ensures forall i :: |run| <= i < |whole| ==> !whole[i].Submit?
    decreases Remaining(Run(c, run).value)
  {
    RunIsBounded(c, run);
    var s := Run(c, run).value;
    if Settled(s) {
      whole := run;
    } else {
      var a := NeverStuck(c, s);
      Extend(c, run, a);
      StepMakesProgress(c, s, a);
      whole := CanSettle(c, run + [a]);
    }
  }

  lemma {:induction false} NoMoreSubmits(run: seq<Action>, whole: seq<Action>, j: Job)
    requires run <= whole && forall i :: |run| <= i < |whole| ==> !whole[i].Submit?
    ensures Submits(whole, j) == Submits(run, j)
  {
    if whole != run { NoMoreSubmits(run, whole[..|whole| - 1], j); }
  }

  /** From every reachable state each job submitted so far can finish, exactly as often as it was submitted. */
  lemma EveryJobCanFinish(c: Config, run: seq<Action>) returns (whole: seq<Action>)
    requires c.Valid() && Run(c, run).Some?
    ensures run <= whole && Run(c, whole).Some? && Settled(Run(c, whole).value)
    ensures forall j :: Count(Run(c, whole).value.finished, j) == Submits(run, j)
  {
    whole := CanSettle(c, run);
    forall j ensures Count(Run(c, whole).value.finished, j) == Submits(run, j) {
      NoMoreSubmits(run, whole, j);
      JobsAreConserved(c, whole, j);
      NothingInPlay(Run(c, whole).value, j);
    }
  }

  // ---------------------------------------------------------------- a blocked Submit is served

  /** When the blocking send after a transient spawn has no room, one or two worker steps make room. */
  lemma BlockedPushIsServed(c: Config, run: seq<Action>, k: nat) returns (more: seq<Action>)
    requires c.Valid() && Run(c, run).Some?
    requires k < |Run(c, run).value.clients| && Run(c, run).value.clients[k].Pushing?
    ensures |more| <= 2 && forall a :: a in more ==> a.Take? || a.Finish?
    ensures Run(c, run + more).Some? && Step(c, Run(c, run + more).value, Push(k)).Some?
  {
    RunIsBounded(c, run);
    var s := Run(c, run).value;
    if |s.queue| < c.queueSize {
      more := [];
      assert run + more == run;
    } else if s.workers[0].None? {
      more := [Take(0)];
      TakeServes(c, run, k);
    } else {
      more := [Finish(0), Take(0)];
      Extend(c, run, Finish(0));
      TakeServes(c, run + [Finish(0)], k);
      assert run + more == run + [Finish(0)] + [Take(0)];
    }
  }

  lemma TakeServes(c: Config, run: seq<Action>, k: nat)
    requires c.Valid() && Run(c, run).Some?
    requires var s := Run(c, run).value;
      && k < |s.clients| && s.clients[k].Pushing? && 0 < |s.queue| <= c.queueSize
      && 0 < |s.workers| && s.workers[0].None?
    ensures Run(c, run + [Take(0)]).Some? && Step(c, Run(c, run + [Take(0)]).value, Push(k)).Some?
  {
    Extend(c, run, Take(0));
  }
}
