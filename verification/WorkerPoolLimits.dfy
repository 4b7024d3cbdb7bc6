/** Exactly which pools exceed maxWorkers, and exactly which meet the bound maxWorkers - 1 + 2k. */
module WorkerPoolLimits {
  import opened Basics
  import opened WorkerPool

  /** Workers beyond which no pool with this maximum and this number of submitters goes. */
  function Bound(c: Config): int {
    c.maxWorkers - 1 + 2 * c.clients
  }

  /**
   The queue is long enough to look half full to the last worker below the maximum, and short enough to
   be filled before the maximum is met.
   */
  predicate MeetsBound(c: Config) {
    && c.clients > 0 && c.minWorkers < c.maxWorkers
    && (c.maxWorkers - 1) / 2 < c.queueSize <= c.maxWorkers - (c.minWorkers + 1) / 2 + c.clients - 1
  }

  predicate ExceedsMaximum(c: Config) {
    c.minWorkers < c.maxWorkers && (c.clients >= 2 || MeetsBound(c))
  }

  // ---------------------------------------------------------------- reachable states

  lemma InitialIsReachable(c: Config)
    ensures Reachable(c, Initial(c))
  {
    assert Run(c, []) == Some(Initial(c));
  }

  lemma StepReaches(c: Config, s: State, a: Action)
    requires Reachable(c, s) && Step(c, s, a).Some?
    ensures Reachable(c, Step(c, s, a).value)
  {
    var run :| Run(c, run) == Some(s);
    Extend(c, run, a);
  }

  // ---------------------------------------------------------------- how full the queue gets below the maximum

  /** Clients that have decided whether to scale and not yet returned. */
  function Deciding(client: Client): nat {
    if client.Trying? || client.Overflow? || client.Pushing? then 1 else 0
  }

  function TotalDeciding(cs: seq<Client>): nat {
    if cs == [] then 0 else TotalDeciding(cs[..|cs| - 1]) + Deciding(cs[|cs| - 1])
  }

  lemma {:induction false} UpdateDeciding(cs: seq<Client>, k: nat, client: Client)
    requires k < |cs|
    ensures TotalDeciding(cs[k := client]) + Deciding(cs[k]) == TotalDeciding(cs) + Deciding(client)
  {
    var n := |cs| - 1;
    if k == n {
      assert cs[k := client][..n] == cs[..n];
    } else {
      assert cs[k := client][..n] == cs[..n][k := client];
      UpdateDeciding(cs[..n], k, client);
    }
  }

  lemma {:induction false} DecidingBound(cs: seq<Client>)
    ensures TotalDeciding(cs) <= |cs|
  {
    if cs != [] { DecidingBound(cs[..|cs| - 1]); }
  }

  lemma {:induction false} IdleDeciding(n: nat)
    ensures TotalDeciding(seq(n, _ => Idle)) == 0
  {
    if n > 0 {
      IdleDeciding(n - 1);
      assert seq(n, _ => Idle)[..n - 1] == seq(n - 1, _ => Idle);
    }
  }

  /** Queued jobs and deciding clients that are possible with this many workers. */
  function Room(c: Config, active: int): int {
    active - (c.minWorkers + 1) / 2 + c.clients
  }

  /** Below the maximum each job beyond the first minWorkers / 2 + k has cost a worker. */
  ghost predicate Paced(c: Config, s: State) {
    && Bounded(c, s)
    && (forall k :: 0 <= k < |s.clients| && s.clients[k].Loaded? ==> c.minWorkers <= s.clients[k].current <= s.active)
    && (s.active < c.maxWorkers ==> |s.queue| + TotalDeciding(s.clients) <= Room(c, s.active))
  }

  lemma WorkerStepIsPaced(c: Config, s: State, a: Action)
    requires c.Valid() && Paced(c, s) && (a.Take? || a.Finish?) && Step(c, s, a).Some?
    ensures Paced(c, Step(c, s, a).value)
  {
    StepKeepsBound(c, s, a);
  }

  lemma ClientStepIsPaced(c: Config, s: State, a: Action)
    requires c.Valid() && Paced(c, s) && !a.Take? && !a.Finish? && Step(c, s, a).Some?
    ensures Paced(c, Step(c, s, a).value)
  {
    var t := Step(c, s, a).value;
    StepKeepsBound(c, s, a);
    UpdateDeciding(s.clients, a.k, t.clients[a.k]);
    assert t.clients == s.clients[a.k := t.clients[a.k]];
    DecidingBound(t.clients);
  }

  lemma {:induction false} RunIsPaced(c: Config, run: seq<Action>)
    requires c.Valid() && Run(c, run).Some?
    ensures Paced(c, Run(c, run).value)
  {
    if run == [] {
      RunIsBounded(c, run);
      IdleDeciding(c.clients);
    } else {
      var init, a := run[..|run| - 1], run[|run| - 1];
      RunIsPaced(c, init);
      if a.Take? || a.Finish? {
        WorkerStepIsPaced(c, Run(c, init).value, a);
      } else {
        ClientStepIsPaced(c, Run(c, init).value, a);
      }
    }
  }

  // ---------------------------------------------------------------- when the bound is out of reach

  /** Everything that could still be spawned would meet the bound. */
  predicate Tight(c: Config, s: State) {
    s.active + TotalSpawnsLeft(c, s.clients) == Bound(c)
  }

  lemma {:induction false} AllHaveTwo(c: Config, cs: seq<Client>, k: nat)
    requires TotalSpawnsLeft(c, cs) >= 2 * |cs| && k < |cs|
    ensures SpawnsLeft(c, cs[k]) == 2
  {
    var n := |cs| - 1;
    SpawnsBound(c, cs[..n]);
    if k < n { AllHaveTwo(c, cs[..n], k); }
  }

  lemma {:induction false} LeftOf(c: Config, cs: seq<Client>, k: nat)
    requires k < |cs|
    ensures TotalSpawnsLeft(c, cs) >= SpawnsLeft(c, cs[k])
  {
    if k < |cs| - 1 { LeftOf(c, cs[..|cs| - 1], k); }
  }

  /** Only a snapshot of maxWorkers - 1 workers, with two spawns left to everyone, makes a state tight. */
  lemma TightensAtLoad(c: Config, s: State, a: Action)
    requires c.Valid() && Bounded(c, s) && Step(c, s, a).Some?
    requires c.clients > 0 && !Tight(c, s) && Tight(c, Step(c, s, a).value)
    ensures var t := Step(c, s, a).value;
      && a.Load? && t.clients[a.k].Loaded? && t.clients[a.k].current == t.active == c.maxWorkers - 1
      && TotalSpawnsLeft(c, t.clients) == 2 * c.clients && t.queue == s.queue
  {
    var t := Step(c, s, a).value;
    StepKeepsBound(c, s, a);
    if !a.Take? && !a.Finish? {
      UpdateSpawns(c, s.clients, a.k, t.clients[a.k]);
      assert t.clients == s.clients[a.k := t.clients[a.k]];
      SpawnsBound(c, t.clients);
    }
  }

  /** The client that will not see a half full queue. */
  ghost predicate Unhurried(c: Config, s: State) {
    exists k :: 0 <= k < |s.clients| && s.clients[k].Loaded? && s.clients[k].current == c.maxWorkers - 1
  }

  lemma ShortQueueStep(c: Config, s: State, a: Action)
    requires c.Valid() && Bounded(c, s) && Step(c, s, a).Some? && c.clients > 0
    requires c.queueSize <= (c.maxWorkers - 1) / 2 && (Tight(c, s) ==> Unhurried(c, s))
    ensures var t := Step(c, s, a).value; Tight(c, t) ==> Unhurried(c, t)
  {
    var t := Step(c, s, a).value;
    if Tight(c, t) {
      if Tight(c, s) {
        var k :| 0 <= k < |s.clients| && s.clients[k].Loaded? && s.clients[k].current == c.maxWorkers - 1;
        if !a.Take? && !a.Finish? {
          UpdateSpawns(c, s.clients, a.k, t.clients[a.k]);
          assert t.clients == s.clients[a.k := t.clients[a.k]];
          assert a.k != k;
        }
        assert t.clients[k] == s.clients[k];
      } else {
        TightensAtLoad(c, s, a);
        assert t.clients[a.k].Loaded?;
      }
    }
  }

  lemma {:induction false} ShortQueueRun(c: Config, run: seq<Action>)
    requires c.Valid() && Run(c, run).Some? && c.clients > 0 && c.queueSize <= (c.maxWorkers - 1) / 2
    ensures var s := Run(c, run).value; Tight(c, s) ==> Unhurried(c, s)
  {
    if run == [] {
      IdleClients(c, c.clients);
    } else {
      var init := run[..|run| - 1];
      RunIsBounded(c, init);
      ShortQueueRun(c, init);
      ShortQueueStep(c, Run(c, init).value, run[|run| - 1]);
    }
  }

  /** Nobody has met a full queue yet. */
  ghost predicate Spacious(c: Config, s: State) {
    && |s.queue| < c.queueSize
    && forall k :: 0 <= k < |s.clients| ==> IsSpacious(c, s.clients[k])
  }

  predicate IsSpacious(c: Config, client: Client) {
    (client.Loaded? || client.Scaling? || client.Trying?) && client.current < c.maxWorkers
  }

  lemma LongQueueLoad(c: Config, s: State, a: Action)
    requires c.Valid() && Paced(c, s) && Step(c, s, a).Some? && c.clients > 0
    requires c.queueSize > Room(c, c.maxWorkers - 1)
    requires !Tight(c, s) && Tight(c, Step(c, s, a).value)
    ensures Spacious(c, Step(c, s, a).value)
  {
    var t := Step(c, s, a).value;
    TightensAtLoad(c, s, a);
    StepKeepsBound(c, s, a);
    forall k | 0 <= k < |t.clients| ensures IsSpacious(c, t.clients[k]) {
      AllHaveTwo(c, t.clients, k);
    }
  }

  lemma LongQueueStep(c: Config, s: State, a: Action)
    requires c.Valid() && Bounded(c, s) && Step(c, s, a).Some?
    requires Tight(c, s) && Spacious(c, s) && Tight(c, Step(c, s, a).value)
    ensures Spacious(c, Step(c, s, a).value)
  {
    var t := Step(c, s, a).value;
    if !a.Take? && !a.Finish? {
      UpdateSpawns(c, s.clients, a.k, t.clients[a.k]);
      assert t.clients == s.clients[a.k := t.clients[a.k]];
      assert IsSpacious(c, s.clients[a.k]);
    }
  }

  lemma {:induction false} LongQueueRun(c: Config, run: seq<Action>)
    requires c.Valid() && Run(c, run).Some? && c.clients > 0 && c.queueSize > Room(c, c.maxWorkers - 1)
    ensures var s := Run(c, run).value; Tight(c, s) ==> Spacious(c, s)
  {
    if run == [] {
      IdleClients(c, c.clients);
    } else {
      var init, a := run[..|run| - 1], run[|run| - 1];
      var s := Run(c, init).value;
      RunIsPaced(c, init);
      LongQueueRun(c, init);
      if Tight(c, Run(c, run).value) {
        if Tight(c, s) { LongQueueStep(c, s, a); } else { LongQueueLoad(c, s, a); }
      }
    }
  }

  /** Without room to grow nobody ever sees a snapshot below the maximum. */
  ghost predicate Fixed(c: Config, s: State) {
    && s.active == c.maxWorkers
    && forall k :: 0 <= k < |s.clients| ==> IsFixed(c, s.clients[k])
  }

  predicate IsFixed(c: Config, client: Client) {
    match client
    case Loaded(_, current) => current >= c.maxWorkers
    case Trying(_, current) => current >= c.maxWorkers
    case Overflow(_, current) => current >= c.maxWorkers
    case Scaling(_, _) => false
    case _ => true
  }

  lemma {:induction false} FixedRun(c: Config, run: seq<Action>)
    requires c.minWorkers == c.maxWorkers && Run(c, run).Some?
    ensures Fixed(c, Run(c, run).value)
  {
    if run != [] {
      var init, a := run[..|run| - 1], run[|run| - 1];
      FixedRun(c, init);
      FixedStep(c, Run(c, init).value, a);
    }
  }

  lemma FixedStep(c: Config, s: State, a: Action)
    requires Fixed(c, s) && Step(c, s, a).Some?
    ensures Fixed(c, Step(c, s, a).value)
  {
    if !a.Take? && !a.Finish? {
      assert IsFixed(c, s.clients[a.k]);
    }
  }

  /** A run that meets the bound needs such a queue. */
  lemma BoundNeedsQueue(c: Config, run: seq<Action>)
    requires c.Valid() && c.clients > 0 && Run(c, run).Some? && Run(c, run).value.active == Bound(c)
    ensures MeetsBound(c)
  {
    var s := Run(c, run).value;
    RunIsBounded(c, run);
    assert Tight(c, s);
    if c.minWorkers == c.maxWorkers {
      FixedRun(c, run);
    } else if c.queueSize <= (c.maxWorkers - 1) / 2 {
      ShortQueueRun(c, run);
      var k :| 0 <= k < |s.clients| && s.clients[k].Loaded? && s.clients[k].current == c.maxWorkers - 1;
      LeftOf(c, s.clients, k);
    } else if c.queueSize > Room(c, c.maxWorkers - 1) {
      LongQueueRun(c, run);
      LeftOf(c, s.clients, 0);
    }
  }

  // ---------------------------------------------------------------- steps of one submitter

  lemma Enter(c: Config, s: State, k: nat) returns (t: State)
    requires Reachable(c, s) && k < |s.clients| && s.clients[k] == Idle
    ensures Reachable(c, t) && t == s.(clients := s.clients[k := Loaded(0, s.active)])
  {
    StepReaches(c, s, Submit(k, 0));
    var u := Step(c, s, Submit(k, 0)).value;
    StepReaches(c, u, Load(k));
    t := Step(c, u, Load(k)).value;
    assert t.clients == s.clients[k := Loaded(0, s.active)];
  }

  lemma Scale(c: Config, s: State, k: nat, current: int) returns (t: State)
    requires Reachable(c, s) && k < |s.clients| && s.clients[k] == Loaded(0, current)
    requires |s.queue| > current / 2 && current < c.maxWorkers
    ensures Reachable(c, t) && t == SpawnWorker(s.(clients := s.clients[k := Trying(0, current)]))
  {
    StepReaches(c, s, Check(k));
    var u := Step(c, s, Check(k)).value;
    StepReaches(c, u, Spawn(k));
    t := Step(c, u, Spawn(k)).value;
    assert t.clients == s.clients[k := Trying(0, current)];
  }

  lemma Pass(c: Config, s: State, k: nat, current: int) returns (t: State)
    requires Reachable(c, s) && k < |s.clients| && s.clients[k] == Loaded(0, current)
    requires |s.queue| <= current / 2
    ensures Reachable(c, t) && t == s.(clients := s.clients[k := Trying(0, current)])
  {
    StepReaches(c, s, Check(k));
    t := Step(c, s, Check(k)).value;
  }

  lemma Send(c: Config, s: State, k: nat, current: int) returns (t: State)
    requires Reachable(c, s) && k < |s.clients| && s.clients[k] == Trying(0, current) && |s.queue| < c.queueSize
    ensures Reachable(c, t) && t == Enqueue(s.(clients := s.clients[k := Idle]), 0)
  {
    StepReaches(c, s, Try(k));
    t := Step(c, s, Try(k)).value;
  }

  lemma SpawnTransient(c: Config, s: State, k: nat, current: int) returns (t: State)
    requires Reachable(c, s) && k < |s.clients| && s.clients[k] == Trying(0, current)
    requires |s.queue| >= c.queueSize && current < c.maxWorkers
    ensures Reachable(c, t) && t == SpawnWorker(s.(clients := s.clients[k := Pushing(0)]))
  {
    StepReaches(c, s, Try(k));
    var u := Step(c, s, Try(k)).value;
    StepReaches(c, u, Spawn(k));
    t := Step(c, u, Spawn(k)).value;
    assert t.clients == s.clients[k := Pushing(0)];
  }

  /** The blocking send after the transient spawn. */
  lemma Deliver(c: Config, s: State, k: nat) returns (t: State)
    requires Reachable(c, s) && k < |s.clients| && s.clients[k] == Pushing(0) && |s.queue| < c.queueSize
    ensures Reachable(c, t) && t == Enqueue(s.(clients := s.clients[k := Idle]), 0)
  {
    StepReaches(c, s, Push(k));
    t := Step(c, s, Push(k)).value;
  }

  /** The worker spawned last takes a job. */
  lemma TakeLast(c: Config, s: State) returns (t: State)
    requires Reachable(c, s) && s.workers != [] && s.workers[|s.workers| - 1].None? && s.queue != []
    ensures Reachable(c, t) && t == s.(queue := s.queue[1..], workers := t.workers) && |t.workers| == |s.workers|
  {
    var w := |s.workers| - 1;
    StepReaches(c, s, Take(w));
    t := Step(c, s, Take(w)).value;
  }

  // ---------------------------------------------------------------- filling the queue and growing by one worker

  /** One more job is queued without a spawn. */
  lemma FillOne(c: Config, s: State, active: int, queued: nat) returns (t: State)
    requires c.clients > 0 && Calm(c, s, active, queued) && queued <= active / 2 && queued < c.queueSize
    ensures Calm(c, t, active, queued + 1)
  {
    t := Enter(c, s, 0);
    t := Pass(c, t, 0, active);
    t := Send(c, t, 0, active);
    assert t.clients == s.clients;
  }

  lemma {:induction false} Fill(c: Config, s: State, active: int, queued: nat, target: nat) returns (t: State)
    requires c.clients > 0 && Calm(c, s, active, queued)
    requires queued <= target <= active / 2 + 1 && target <= c.queueSize
    ensures Calm(c, t, active, target)
    decreases target - queued
  {
    if queued == target {
      t := s;
    } else {
      t := FillOne(c, s, active, queued);
      t := Fill(c, t, active, queued + 1, target);
    }
  }

  /** A call that finds the queue filling up spawns, and finds or is given room for its job. */
  lemma GrowScaling(c: Config, s: State, active: int, queued: nat) returns (t: State)
    requires c.Valid() && c.clients > 0 && Calm(c, s, active, queued) && active < c.maxWorkers
    requires active / 2 < queued <= c.queueSize
    ensures Calm(c, t, active + 1, if queued < c.queueSize then queued + 1 else queued)
  {
    t := Enter(c, s, 0);
    t := Scale(c, t, 0, active);
    if queued == c.queueSize {
      t := TakeLast(c, t);
    }
    t := Send(c, t, 0, active);
    assert t.clients == s.clients;
  }

  /** A call that finds the queue full spawns a transient worker, which makes room. */
  lemma GrowFull(c: Config, s: State, active: int) returns (t: State)
    requires c.Valid() && c.clients > 0 && Calm(c, s, active, c.queueSize) && active < c.maxWorkers
    requires c.queueSize <= active / 2
    ensures Calm(c, t, active + 1, c.queueSize)
  {
    t := Enter(c, s, 0);
    t := Pass(c, t, 0, active);
    t := SpawnTransient(c, t, 0, active);
    t := TakeLast(c, t);
    t := Deliver(c, t, 0);
    assert t.clients == s.clients;
  }

  function Min(a: int, b: int): int {
    if a < b then a else b
  }

  /** One worker at a time up to one below the maximum, with a job more each time until the queue is full. */
  lemma {:induction false} Grow(c: Config, s: State, active: int, queued: nat) returns (t: State)
    requires c.Valid() && c.clients > 0 && 0 <= active < c.maxWorkers && Calm(c, s, active, queued)
    requires queued == c.queueSize || active / 2 < queued < c.queueSize
    ensures var q := Min(c.queueSize, queued + (c.maxWorkers - 1 - active));
      Calm(c, t, c.maxWorkers - 1, q) && (q == c.queueSize || (c.maxWorkers - 1) / 2 < q)
    decreases c.maxWorkers - active
  {
    if active == c.maxWorkers - 1 {
      t := s;
    } else {
      if queued > active / 2 {
        t := GrowScaling(c, s, active, queued);
      } else {
        t := GrowFull(c, s, active);
      }
      t := Grow(c, t, active + 1, if queued < c.queueSize then queued + 1 else queued);
    }
  }

  // ---------------------------------------------------------------- submitters that decide together

  /** The first n clients have decided not to scale. */
  lemma {:induction false} PassTogether(c: Config, s: State, active: int, queued: nat, n: nat) returns (t: State)
    requires Calm(c, s, active, queued) && queued <= active / 2 && n <= c.clients
    ensures Together(c, t, active, queued, n, Trying(0, active))
  {
    if n == 0 {
      t := s;
      assert Row(c, 0, Trying(0, active)) == Row(c, 0, Idle);
    } else {
      t := PassTogether(c, s, active, queued, n - 1);
      t := Enter(c, t, n - 1);
      t := Pass(c, t, n - 1, active);
      assert t.clients == Row(c, n, Trying(0, active));
    }
  }

  lemma {:induction false} SendTogether(c: Config, s: State, active: int, queued: nat, n: nat) returns (t: State)
    requires Together(c, s, active, queued, n, Trying(0, active)) && n <= c.clients && queued + n <= c.queueSize
    ensures Calm(c, t, active, queued + n)
    decreases n
  {
    if n == 0 {
      t := s;
      assert Row(c, 0, Trying(0, active)) == Row(c, 0, Idle);
    } else {
      t := Send(c, s, n - 1, active);
      assert t.clients == Row(c, n - 1, Trying(0, active));
      t := SendTogether(c, t, active, queued + 1, n - 1);
    }
  }

  /** With n of the clients the queue holds half of the workers plus n jobs before anyone scales. */
  lemma Prepare(c: Config, n: nat) returns (t: State)
    requires c.Valid() && 0 < n <= c.clients
    ensures Calm(c, t, c.minWorkers, Min(c.queueSize, c.minWorkers / 2 + n))
  {
    InitialIsReachable(c);
    var half := Min(c.queueSize, c.minWorkers / 2);
    assert Initial(c).clients == Row(c, 0, Idle);
    t := Fill(c, Initial(c), c.minWorkers, 0, half);
    var more := Min(c.queueSize - half, n);
    t := PassTogether(c, t, c.minWorkers, half, more);
    t := SendTogether(c, t, c.minWorkers, half, more);
  }

  // ---------------------------------------------------------------- exceeding the maximum

  /** A call spawns on its snapshot at least once when the queue is half full or full. */
  lemma SpawnOnce(c: Config, s: State, k: nat, current: int) returns (t: State)
    requires Reachable(c, s) && k < |s.clients| && s.clients[k] == Loaded(0, current) && current < c.maxWorkers
    requires |s.queue| > current / 2 || |s.queue| == c.queueSize
    ensures Reachable(c, t) && t.active == s.active + 1 && t.queue == s.queue
    ensures |t.clients| == |s.clients| && forall j :: 0 <= j < |s.clients| && j != k ==> t.clients[j] == s.clients[j]
  {
    if |s.queue| > current / 2 {
      t := Scale(c, s, k, current);
    } else {
      t := Pass(c, s, k, current);
      t := SpawnTransient(c, t, k, current);
    }
  }

  lemma TwoSubmittersExceed(c: Config) returns (t: State)
    requires c.Valid() && c.minWorkers < c.maxWorkers && c.clients >= 2
    ensures Reachable(c, t) && t.active == c.maxWorkers + 1
  {
    t := Prepare(c, 1);
    t := Grow(c, t, c.minWorkers, Min(c.queueSize, c.minWorkers / 2 + 1));
    t := Enter(c, t, 0);
    t := Enter(c, t, 1);
    t := SpawnOnce(c, t, 0, c.maxWorkers - 1);
    t := SpawnOnce(c, t, 1, c.maxWorkers - 1);
  }

  // ---------------------------------------------------------------- meeting the bound

  lemma {:induction false} LoadTogether(c: Config, s: State, active: int, queued: nat, n: nat) returns (t: State)
    requires Calm(c, s, active, queued) && n <= c.clients
    ensures Together(c, t, active, queued, n, Loaded(0, active))
  {
    if n == 0 {
      t := s;
      assert Row(c, 0, Loaded(0, active)) == Row(c, 0, Idle);
    } else {
      t := LoadTogether(c, s, active, queued, n - 1);
      t := Enter(c, t, n - 1);
      assert t.clients == Row(c, n, Loaded(0, active));
    }
  }

  /** The first n clients each spawn twice on the same snapshot. */
  lemma {:induction false} SpawnTwiceEach(c: Config, s: State, current: int, n: nat) returns (t: State)
    requires Reachable(c, s) && n <= |s.clients| && current < c.maxWorkers
    requires |s.queue| == c.queueSize > current / 2
    requires forall k :: 0 <= k < n ==> s.clients[k] == Loaded(0, current)
    ensures Reachable(c, t) && t.active == s.active + 2 * n
    decreases n
  {
    if n == 0 {
      t := s;
    } else {
      t := Scale(c, s, n - 1, current);
      t := SpawnTransient(c, t, n - 1, current);
      t := SpawnTwiceEach(c, t, current, n - 1);
    }
  }

  lemma BoundIsMet(c: Config) returns (t: State)
    requires c.Valid() && MeetsBound(c)
    ensures Reachable(c, t) && t.active == Bound(c)
  {
    t := Prepare(c, c.clients);
    t := Grow(c, t, c.minWorkers, Min(c.queueSize, c.minWorkers / 2 + c.clients));
    t := LoadTogether(c, t, c.maxWorkers - 1, c.queueSize, c.clients);
    t := SpawnTwiceEach(c, t, c.maxWorkers - 1, c.clients);
  }

  // ---------------------------------------------------------------- the exact conditions

  /** Some interleaving meets the bound exactly for these queue sizes. */
  lemma BoundIsReached(c: Config)
    requires c.Valid() && c.clients > 0
    ensures (exists s :: Reachable(c, s) && s.active == Bound(c)) <==> MeetsBound(c)
  {
    if MeetsBound(c) {
      var t := BoundIsMet(c);
    }
    forall s | Reachable(c, s) && s.active == Bound(c) ensures MeetsBound(c) {
      var run :| Run(c, run) == Some(s);
      BoundNeedsQueue(c, run);
    }
  }

  /**
   maxWorkers is a bound exactly for the pools without room to grow or without submitters, and for those with
   one submitter whose queue is too short, or too long, for it to spawn twice on its last snapshot below the
   maximum.
   */
  lemma MaximumIsExceeded(c: Config)
    requires c.Valid()
    ensures (exists s :: Reachable(c, s) && s.active > c.maxWorkers) <==> ExceedsMaximum(c)
  {
    if c.minWorkers < c.maxWorkers && c.clients >= 2 {
      var t := TwoSubmittersExceed(c);
    } else if MeetsBound(c) {
      var t := BoundIsMet(c);
    }
    forall s | Reachable(c, s) && s.active > c.maxWorkers ensures ExceedsMaximum(c) {
      var run :| Run(c, run) == Some(s);
      RunIsBounded(c, run);
      if c.minWorkers == c.maxWorkers {
        FixedRun(c, run);
      } else if c.clients == 1 {
        BoundNeedsQueue(c, run);
      }
    }
  }

  /** A queue can be too long for a single submitter to go beyond the maximum: it never fills up in time. */
  lemma LongQueueKeepsMaximum(s: State)
    requires Reachable(Config(1, 2, 2, 1), s)
    ensures s.active <= 2
  {
    MaximumIsExceeded(Config(1, 2, 2, 1));
  }
}
