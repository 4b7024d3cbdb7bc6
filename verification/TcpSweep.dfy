/**
 The TCP connect sweep: one producer, a bounded set of workers, a wait group, an unbuffered job
 channel and a buffered result channel, as interleaved atomic steps. Misuses that make the Go
 runtime panic (send on a closed channel, second close, negative wait group) lead to `panicked`.
 */
module TcpSweep {
  import opened Basics
  import opened Digraph

  /** Result of one connect probe; everything but the port is an arbitrary observation. */
  datatype ScanResult = ScanResult(port: int, open: bool, latency: nat, timeout: nat)

  datatype Worker =
    | Receiving                     // blocked on the job channel
    | Probing(port: int)
    | Sending(result: ScanResult)   // about to send on the result channel
    | Exited

  datatype Producer =
    | Offering(next: nat)           // in the loop, at ports[next], or past its end
    | Waiting                       // jobs closed, blocked in wg.Wait
    | Finished                      // results closed

  datatype Config = Config(ports: seq<int>, maxConcurrentPorts: nat) {
    function Workers(): nat {
      if maxConcurrentPorts > |ports| then |ports| else maxConcurrentPorts
    }
  }

  datatype State = State(
    producer: Producer,
    handed: nat,                    // ports received by workers so far
    workers: seq<Worker>,
    waitGroup: int,
    jobsClosed: bool,
    results: seq<ScanResult>,       // contents of the result channel
    resultsClosed: bool,
    collected: seq<ScanResult>,
    collectorDone: bool,
    cancelled: bool,
    panicked: bool)

  datatype Action =
    | Cancel
    | HandOff(w: nat)               // rendezvous on the job channel
    | CloseJobs                     // either exit of the producer's loop
    | StopWorker(w: nat)            // range over a closed channel ends, deferred Done runs
    | FinishProbe(w: nat, result: ScanResult)
    | SendResult(w: nat)
    | CloseResults
    | Collect
    | FinishCollecting

  function Initial(c: Config): State {
    State(Offering(0), 0, seq(c.Workers(), _ => Receiving), c.Workers(), false, [], false, [], false, false, false)
  }

  function Panic(s: State): State {
    s.(panicked := true)
  }

  /** The state after an action, or None when the action is blocked or not next in its goroutine. */
  function Step(c: Config, s: State, a: Action): Option<State> {
    if s.panicked then None
    else match a
      case Cancel =>
        if s.cancelled then None else Some(s.(cancelled := true))
      case HandOff(w) =>
        if !(s.producer.Offering? && s.producer.next < |c.ports|) then None
        else if s.jobsClosed then Some(Panic(s))
        else if !(w < |s.workers| && s.workers[w] == Receiving) then None
        else Some(s.(producer := Offering(s.producer.next + 1), handed := s.handed + 1,
                     workers := s.workers[w := Probing(c.ports[s.producer.next])]))
      case CloseJobs =>
        if !(s.producer.Offering? && (s.cancelled || s.producer.next >= |c.ports|)) then None
        else if s.jobsClosed then Some(Panic(s))
        else Some(s.(producer := Waiting, jobsClosed := true))
      case StopWorker(w) =>
        if !(w < |s.workers| && s.workers[w] == Receiving && s.jobsClosed) then None
        else if s.waitGroup <= 0 then Some(Panic(s))
        else Some(s.(workers := s.workers[w := Exited], waitGroup := s.waitGroup - 1))
      case FinishProbe(w, result) =>
        if !(w < |s.workers| && s.workers[w].Probing? && s.workers[w].port == result.port) then None
        else Some(s.(workers := s.workers[w := Sending(result)]))
      case SendResult(w) =>
        if !(w < |s.workers| && s.workers[w].Sending?) then None
        else if s.resultsClosed then Some(Panic(s))
        else if |s.results| >= |c.ports| then None
        else Some(s.(workers := s.workers[w := Receiving], results := s.results + [s.workers[w].result]))
      case CloseResults =>
        if !(s.producer.Waiting? && s.waitGroup == 0) then None
        else if s.resultsClosed then Some(Panic(s))
        else Some(s.(producer := Finished, resultsClosed := true))
      case Collect =>
        if s.results == [] || s.collectorDone then None
        else Some(s.(results := s.results[1..], collected := s.collected + [s.results[0]]))
      case FinishCollecting =>
        if !(s.results == [] && s.resultsClosed && !s.collectorDone) then None
        else Some(s.(collectorDone := true))
  }

  /** The state after a whole interleaving, if every action in it was possible. */
  function Run(c: Config, run: seq<Action>): Option<State> {
    if run == [] then Some(Initial(c))
    else
      var before := Run(c, run[..|run| - 1]);
      if before.None? then None else Step(c, before.value, run[|run| - 1])
  }

  // ---------------------------------------------------------------- counting over the workers

  function Holds(w: Worker): bool {
    w.Probing? || w.Sending?
  }

  function PortOf(w: Worker): int
    requires Holds(w)
  {
    if w.Probing? then w.port else w.result.port
  }

  function Busy(ws: seq<Worker>): nat {
    if ws == [] then 0 else Busy(ws[..|ws| - 1]) + (if Holds(ws[|ws| - 1]) then 1 else 0)
  }

  function HeldCount(ws: seq<Worker>, p: int): nat {
    if ws == [] then 0
    else HeldCount(ws[..|ws| - 1], p) + (if Holds(ws[|ws| - 1]) && PortOf(ws[|ws| - 1]) == p then 1 else 0)
  }

  function ResultCount(rs: seq<ScanResult>, p: int): nat {
    if rs == [] then 0 else ResultCount(rs[..|rs| - 1], p) + (if rs[|rs| - 1].port == p then 1 else 0)
  }

  function PortCount(ps: seq<int>, p: int): nat {
    if ps == [] then 0 else PortCount(ps[..|ps| - 1], p) + (if ps[|ps| - 1] == p then 1 else 0)
  }

  function Running(ws: seq<Worker>): nat {
    if ws == [] then 0 else Running(ws[..|ws| - 1]) + (if ws[|ws| - 1].Exited? then 0 else 1)
  }

  function InFlight(ws: seq<Worker>): nat {
    if ws == [] then 0 else InFlight(ws[..|ws| - 1]) + (if ws[|ws| - 1].Probing? then 1 else 0)
  }

  function Work(w: Worker): nat {
    match w
    case Exited => 0
    case Receiving => 1
    case Sending(_) => 3
    case Probing(_) => 4
  }

  function TotalWork(ws: seq<Worker>): nat {
    if ws == [] then 0 else TotalWork(ws[..|ws| - 1]) + Work(ws[|ws| - 1])
  }

  lemma {:induction false} UpdateCounts(ws: seq<Worker>, i: nat, w: Worker)
    requires i < |ws|
    ensures Running(ws[i := w]) + (if ws[i].Exited? then 0 else 1) == Running(ws) + (if w.Exited? then 0 else 1)
    ensures TotalWork(ws[i := w]) + Work(ws[i]) == TotalWork(ws) + Work(w)
    ensures Busy(ws[i := w]) + (if Holds(ws[i]) then 1 else 0) == Busy(ws) + (if Holds(w) then 1 else 0)
  {
    var n := |ws| - 1;
    if i == n {
      assert ws[i := w][..n] == ws[..n];
    } else {
      assert ws[i := w][..n] == ws[..n][i := w];
      UpdateCounts(ws[..n], i, w);
    }
  }

  lemma {:induction false} UpdateHeld(ws: seq<Worker>, i: nat, w: Worker, p: int)
    requires i < |ws|
    ensures HeldCount(ws[i := w], p) + (if Holds(ws[i]) && PortOf(ws[i]) == p then 1 else 0)
         == HeldCount(ws, p) + (if Holds(w) && PortOf(w) == p then 1 else 0)
  {
    var n := |ws| - 1;
    if i == n {
      assert ws[i := w][..n] == ws[..n];
    } else {
      assert ws[i := w][..n] == ws[..n][i := w];
      UpdateHeld(ws[..n], i, w, p);
    }
  }

  lemma {:induction false} AllReceiving(n: nat, p: int)
    ensures var ws := seq(n, _ => Receiving);
      Busy(ws) == 0 && HeldCount(ws, p) == 0 && Running(ws) == n && TotalWork(ws) == n
  {
    if n > 0 {
      AllReceiving(n - 1, p);
      assert seq(n, _ => Receiving)[..n - 1] == seq(n - 1, _ => Receiving);
    }
  }

  lemma {:induction false} WorkerCounts(ws: seq<Worker>, p: int)
    ensures InFlight(ws) <= Busy(ws) <= |ws|
    ensures Running(ws) == 0 ==> HeldCount(ws, p) == 0 && Busy(ws) == 0 && forall w :: w in ws ==> w.Exited?
  {
    if ws != [] {
      WorkerCounts(ws[..|ws| - 1], p);
      assert ws == ws[..|ws| - 1] + [ws[|ws| - 1]];
    }
  }

  lemma {:induction false} WorkerIsCounted(ws: seq<Worker>, i: nat)
    requires i < |ws|
    ensures Holds(ws[i]) ==> Busy(ws) > 0
    ensures !ws[i].Exited? ==> Running(ws) > 0
  {
    if i < |ws| - 1 { WorkerIsCounted(ws[..|ws| - 1], i); }
  }

  lemma {:induction false} ResultCountPop(rs: seq<ScanResult>, p: int)
    requires rs != []
    ensures ResultCount(rs, p) == ResultCount(rs[1..], p) + (if rs[0].port == p then 1 else 0)
  {
    if |rs| > 1 {
      ResultCountPop(rs[..|rs| - 1], p);
      assert rs[1..][..|rs| - 2] == rs[..|rs| - 1][1..];
    }
  }

  // ---------------------------------------------------------------- the invariant

  /** Occurrences of p held by a worker, waiting in the result channel or collected. */
  function InPlay(s: State, p: int): nat {
    HeldCount(s.workers, p) + ResultCount(s.results, p) + ResultCount(s.collected, p)
  }

  predicate ChannelOrder(c: Config, s: State) {
    match s.producer
    case Offering(i) => !s.jobsClosed && !s.resultsClosed && i == s.handed <= |c.ports| && s.waitGroup == |s.workers|
    case Waiting => s.jobsClosed && !s.resultsClosed
    case Finished => s.jobsClosed && s.resultsClosed && s.waitGroup == 0
  }

  predicate Invariant(c: Config, s: State) {
    && !s.panicked
    && |s.workers| == c.Workers()
    && s.waitGroup == Running(s.workers)
    && ChannelOrder(c, s)
    && s.handed <= |c.ports|
    && (!s.cancelled && !s.producer.Offering? ==> s.handed == |c.ports|)
    && (s.collectorDone ==> s.results == [] && s.resultsClosed)
    && s.handed == Busy(s.workers) + |s.results| + |s.collected|
  }

  lemma InitialHolds(c: Config)
    ensures Invariant(c, Initial(c))
  {
    AllReceiving(c.Workers(), 0);
  }

  /** Every port that was handed out is in exactly one place, so the result channel cannot be full for a sender. */
  lemma RoomForSender(c: Config, s: State, w: nat)
    requires Invariant(c, s) && w < |s.workers| && s.workers[w].Sending?
    ensures |s.results| < |c.ports| && !s.resultsClosed
  {
    WorkerIsCounted(s.workers, w);
  }

  /** Nobody ever sends on a closed channel, closes twice or drives the wait group negative. */
  lemma NoMisuse(c: Config, s: State, a: Action)
    requires Invariant(c, s) && Step(c, s, a).Some?
    ensures !Step(c, s, a).value.panicked
  {
    match a
    case StopWorker(w) => WorkerIsCounted(s.workers, w);
    case SendResult(w) => RoomForSender(c, s, w);
    case _ =>
  }

  /** Only a rendezvous adds a port to the ones in play, and no step loses or doubles one. */
  lemma StepConservesPorts(c: Config, s: State, a: Action, p: int)
    requires Invariant(c, s) && Step(c, s, a).Some?
    ensures InPlay(Step(c, s, a).value, p) == InPlay(s, p) + (if a.HandOff? && c.ports[s.handed] == p then 1 else 0)
  {
    NoMisuse(c, s, a);
    match a
    case HandOff(w) => UpdateHeld(s.workers, w, Probing(c.ports[s.handed]), p);
    case StopWorker(w) => UpdateHeld(s.workers, w, Exited, p);
    case FinishProbe(w, result) => UpdateHeld(s.workers, w, Sending(result), p);
    case SendResult(w) => UpdateHeld(s.workers, w, Receiving, p);
    case Collect => ResultCountPop(s.results, p);
    case _ =>
  }

  lemma StepCountsWorkers(c: Config, s: State, a: Action)
    requires Invariant(c, s) && Step(c, s, a).Some?
    ensures var t := Step(c, s, a).value;
      && t.waitGroup == Running(t.workers) && |t.workers| == |s.workers|
      && t.handed == Busy(t.workers) + |t.results| + |t.collected|
    ensures var t := Step(c, s, a).value;
      TotalWork(t.workers) - TotalWork(s.workers) ==
        match a
        case HandOff(_) => 3
        case FinishProbe(_, _) => -1
        case SendResult(_) => -2
        case StopWorker(_) => -1
        case _ => 0
  {
    NoMisuse(c, s, a);
    match a
    case HandOff(w) => UpdateCounts(s.workers, w, Probing(c.ports[s.handed]));
    case StopWorker(w) => UpdateCounts(s.workers, w, Exited);
    case FinishProbe(w, result) => UpdateCounts(s.workers, w, Sending(result));
    case SendResult(w) => UpdateCounts(s.workers, w, Receiving);
    case _ =>
  }

  lemma StepKeepsInvariant(c: Config, s: State, a: Action)
    requires Invariant(c, s) && Step(c, s, a).Some?
    ensures Invariant(c, Step(c, s, a).value)
  {
    NoMisuse(c, s, a);
    StepCountsWorkers(c, s, a);
  }

  lemma {:induction false} RunKeepsInvariant(c: Config, run: seq<Action>)
    requires Run(c, run).Some?
    ensures Invariant(c, Run(c, run).value)
  {
    if run == [] {
      InitialHolds(c);
    } else {
      var before := run[..|run| - 1];
      RunKeepsInvariant(c, before);
      StepKeepsInvariant(c, Run(c, before).value, run[|run| - 1]);
    }
  }

  lemma StepKeepsAccount(c: Config, s: State, a: Action, p: int)
    requires Invariant(c, s) && Step(c, s, a).Some?
    requires InPlay(s, p) == PortCount(c.ports[..s.handed], p)
    ensures var t := Step(c, s, a).value; t.handed <= |c.ports| && InPlay(t, p) == PortCount(c.ports[..t.handed], p)
  {
    StepConservesPorts(c, s, a, p);
    StepKeepsInvariant(c, s, a);
    if a.HandOff? {
      assert c.ports[..s.handed + 1][..s.handed] == c.ports[..s.handed];
    }
  }

  /** Conservation over whole runs: the ports in play are exactly the ports handed out so far. */
  lemma {:induction false} RunConservesPorts(c: Config, run: seq<Action>, p: int)
    requires Run(c, run).Some?
    ensures var s := Run(c, run).value; s.handed <= |c.ports| && InPlay(s, p) == PortCount(c.ports[..s.handed], p)
  {
    if run == [] {
      AllReceiving(c.Workers(), p);
    } else {
      var before := run[..|run| - 1];
      RunConservesPorts(c, before, p);
      RunKeepsInvariant(c, before);
      StepKeepsAccount(c, Run(c, before).value, run[|run| - 1], p);
    }
  }

  // ---------------------------------------------------------------- conservation of results

  /** What the probes of a run reported, in the order in which they finished. */
  function Probed(run: seq<Action>): seq<ScanResult> {
    if run == [] then []
    else
      var a := run[|run| - 1];
      Probed(run[..|run| - 1]) + (if a.FinishProbe? then [a.result] else [])
  }

  /** Occurrences of r among the results that workers are about to send. */
  function Unsent(ws: seq<Worker>, r: ScanResult): nat {
    if ws == [] then 0 else Unsent(ws[..|ws| - 1], r) + (if ws[|ws| - 1] == Sending(r) then 1 else 0)
  }

  function Times(rs: seq<ScanResult>, r: ScanResult): nat {
    if rs == [] then 0 else Times(rs[..|rs| - 1], r) + (if rs[|rs| - 1] == r then 1 else 0)
  }

  lemma {:induction false} TimesIsMultiplicity(rs: seq<ScanResult>, r: ScanResult)
    ensures Times(rs, r) == multiset(rs)[r]
  {
    if rs != [] {
      TimesIsMultiplicity(rs[..|rs| - 1], r);
      assert rs == rs[..|rs| - 1] + [rs[|rs| - 1]];
    }
  }

  lemma {:induction false} TimesPop(rs: seq<ScanResult>, r: ScanResult)
    requires rs != []
    ensures Times(rs, r) == Times(rs[1..], r) + (if rs[0] == r then 1 else 0)
  {
    if |rs| > 1 {
      TimesPop(rs[..|rs| - 1], r);
      assert rs[1..][..|rs| - 2] == rs[..|rs| - 1][1..];
    }
  }

  lemma {:induction false} UpdateUnsent(ws: seq<Worker>, i: nat, w: Worker, r: ScanResult)
    requires i < |ws|
    ensures Unsent(ws[i := w], r) + (if ws[i] == Sending(r) then 1 else 0) ==
      Unsent(ws, r) + (if w == Sending(r) then 1 else 0)
  {
    var n := |ws| - 1;
    if i == n {
      assert ws[i := w][..n] == ws[..n];
    } else {
      assert ws[i := w][..n] == ws[..n][i := w];
      UpdateUnsent(ws[..n], i, w, r);
    }
  }

  lemma {:induction false} NothingUnsent(ws: seq<Worker>, r: ScanResult)
    requires forall w :: w in ws ==> !w.Sending?
    ensures Unsent(ws, r) == 0
  {
    if ws != [] {
      assert ws[|ws| - 1] in ws;
      NothingUnsent(ws[..|ws| - 1], r);
    }
  }

  /** Occurrences of the result r held by a worker, waiting in the result channel or collected. */
  function ResultInPlay(s: State, r: ScanResult): nat {
    Unsent(s.workers, r) + Times(s.results, r) + Times(s.collected, r)
  }

  lemma StepConservesResults(c: Config, s: State, a: Action, r: ScanResult)
    requires Invariant(c, s) && Step(c, s, a).Some?
    ensures ResultInPlay(Step(c, s, a).value, r) ==
      ResultInPlay(s, r) + (if a.FinishProbe? && a.result == r then 1 else 0)
  {
    NoMisuse(c, s, a);
    match a
    case HandOff(w) => UpdateUnsent(s.workers, w, Probing(c.ports[s.handed]), r);
    case StopWorker(w) => UpdateUnsent(s.workers, w, Exited, r);
    case FinishProbe(w, result) => UpdateUnsent(s.workers, w, Sending(result), r);
    case SendResult(w) => UpdateUnsent(s.workers, w, Receiving, r);
    case Collect => TimesPop(s.results, r);
    case _ =>
  }

  lemma OneMoreProbe(run: seq<Action>, r: ScanResult)
    requires run != []
    ensures var a := run[|run| - 1];
      Times(Probed(run), r) == Times(Probed(run[..|run| - 1]), r) + (if a.FinishProbe? && a.result == r then 1 else 0)
  {
    var before, a := Probed(run[..|run| - 1]), run[|run| - 1];
    if a.FinishProbe? {
      assert (before + [a.result])[..|before|] == before;
    } else {
      assert before + [] == before;
    }
  }

  /** In every interleaving, what the probes reported is about to be sent, in the channel or collected, unchanged. */
  lemma {:induction false} RunConservesResults(c: Config, run: seq<Action>, r: ScanResult)
    requires Run(c, run).Some?
    ensures var s := Run(c, run).value;
      ResultInPlay(s, r) == Times(Probed(run), r)
  {
    if run == [] {
      NothingUnsent(Initial(c).workers, r);
    } else {
      var before := run[..|run| - 1];
      RunConservesResults(c, before, r);
      RunKeepsInvariant(c, before);
      OneMoreProbe(run, r);
      StepConservesResults(c, Run(c, before).value, run[|run| - 1], r);
    }
  }

  // ---------------------------------------------------------------- main results

  /** In every interleaving: no runtime panic, bounded probes, and a worker with a result can always send it. */
  lemma SweepIsSafe(c: Config, run: seq<Action>)
    requires Run(c, run).Some?
    ensures var s := Run(c, run).value;
      && !s.panicked
      && InFlight(s.workers) <= c.Workers() <= c.maxConcurrentPorts
      && forall w :: 0 <= w < |s.workers| && s.workers[w].Sending? ==> Step(c, s, SendResult(w)).Some?
  {
    RunKeepsInvariant(c, run);
    var s := Run(c, run).value;
    WorkerCounts(s.workers, 0);
    forall w | 0 <= w < |s.workers| && s.workers[w].Sending? ensures Step(c, s, SendResult(w)).Some? {
      RoomForSender(c, s, w);
    }
  }

  /** The first n ports handed to the first n workers. */
  function HandOffs(n: nat): seq<Action> {
    seq(n, (i: nat) => HandOff(i))
  }

  function FirstBusy(c: Config, n: nat): seq<Worker>
    requires n <= |c.ports|
  {
    seq(c.Workers(), i requires 0 <= i < c.Workers() => if i < n then Probing(c.ports[i]) else Receiving)
  }

  lemma {:induction false} HandOffsRun(c: Config, n: nat)
    requires n <= c.Workers()
    ensures Run(c, HandOffs(n)) == Some(Initial(c).(producer := Offering(n), handed := n, workers := FirstBusy(c, n)))
  {
    if n == 0 {
      assert FirstBusy(c, 0) == Initial(c).workers;
    } else {
      HandOffsRun(c, n - 1);
      assert HandOffs(n)[..n - 1] == HandOffs(n - 1);
      assert FirstBusy(c, n) == FirstBusy(c, n - 1)[n - 1 := Probing(c.ports[n - 1])];
    }
  }

  lemma {:induction false} AllInFlight(ws: seq<Worker>)
    requires forall w :: w in ws ==> w.Probing?
    ensures InFlight(ws) == |ws|
  {
    if ws != [] {
      assert ws[|ws| - 1] in ws;
      AllInFlight(ws[..|ws| - 1]);
    }
  }

  /** The bound on the probes in flight is met: by as many probes as the limit and the ports allow. */
  lemma ProbesRunTogether(c: Config) returns (run: seq<Action>)
    ensures Run(c, run).Some?
    ensures InFlight(Run(c, run).value.workers) ==
      if |c.ports| <= c.maxConcurrentPorts then |c.ports| else c.maxConcurrentPorts
  {
    run := HandOffs(c.Workers());
    HandOffsRun(c, c.Workers());
    AllInFlight(FirstBusy(c, c.Workers()));
  }

  /** Work left in a state: every step strictly lowers it. */
  function Remaining(c: Config, s: State): int {
    5 * (|c.ports| - s.handed) + TotalWork(s.workers) + |s.results|
    + (match s.producer case Offering(_) => 2 case Waiting => 1 case Finished => 0)
    + (if s.collectorDone then 0 else 1) + (if s.cancelled then 0 else 1)
  }

  lemma StepMakesProgress(c: Config, s: State, a: Action)
    requires Invariant(c, s) && Step(c, s, a).Some?
    ensures 0 <= Remaining(c, Step(c, s, a).value) < Remaining(c, s)
  {
    NoMisuse(c, s, a);
    StepCountsWorkers(c, s, a);
  }

  /** Every interleaving is finite: at most five steps a port, one per worker and four more. */
  lemma {:induction false} RunsAreBounded(c: Config, run: seq<Action>)
    requires Run(c, run).Some?
    ensures |run| + Remaining(c, Run(c, run).value) <= 5 * |c.ports| + c.Workers() + 4
    ensures |run| <= 5 * |c.ports| + c.Workers() + 4
  {
    if run == [] {
      AllReceiving(c.Workers(), 0);
    } else {
      var before := run[..|run| - 1];
      RunsAreBounded(c, before);
      RunKeepsInvariant(c, before);
      StepMakesProgress(c, Run(c, before).value, run[|run| - 1]);
    }
  }

  lemma {:induction false} SomeoneRuns(ws: seq<Worker>) returns (w: nat)
    requires Running(ws) > 0
    ensures w < |ws| && !ws[w].Exited?
  {
    if ws[|ws| - 1].Exited? {
      w := SomeoneRuns(ws[..|ws| - 1]);
    } else {
      w := |ws| - 1;
    }
  }

  /** Which step a worker that has not exited can take, once no port is left to offer or while one is. */
  function WorkerMove(s: State, w: nat): Action
    requires w < |s.workers|
  {
    match s.workers[w]
    case Probing(p) => FinishProbe(w, ScanResult(p, false, 0, 0))
    case Sending(_) => SendResult(w)
    case _ => if s.jobsClosed then StopWorker(w) else HandOff(w)
  }

  /** No deadlock: until the collector is done, some goroutine can move without any cancellation. */
  lemma NeverStuck(c: Config, s: State) returns (a: Action)
    requires Invariant(c, s) && !s.collectorDone
    requires c.maxConcurrentPorts > 0
    ensures a != Cancel && Step(c, s, a).Some? && (s.cancelled ==> !a.HandOff?)
  {
    match s.producer {
      case Offering(i) =>
        if i == |c.ports| || s.cancelled {
          a := CloseJobs;
        } else {
          var w := SomeoneRuns(s.workers);
          if s.workers[w].Sending? { RoomForSender(c, s, w); }
          a := WorkerMove(s, w);
        }
      case Waiting =>
        if s.waitGroup == 0 {
          a := CloseResults;
        } else {
          var w := SomeoneRuns(s.workers);
          if s.workers[w].Sending? { RoomForSender(c, s, w); }
          a := WorkerMove(s, w);
        }
      case Finished =>
        a := if s.results == [] then FinishCollecting else Collect;
    }
  }

  /** From every reachable state the sweep can be finished, whatever happened before. */
  lemma {:induction false} CanFinish(c: Config, run: seq<Action>) returns (whole: seq<Action>)
    requires Run(c, run).Some? && c.maxConcurrentPorts > 0
    ensures run <= whole && Run(c, whole).Some? && Run(c, whole).value.collectorDone
    ensures Run(c, whole).value.cancelled == Run(c, run).value.cancelled
    ensures Run(c, run).value.cancelled ==> Run(c, whole).value.handed == Run(c, run).value.handed
    decreases 5 * |c.ports| + c.Workers() + 4 - |run|
  {
    RunKeepsInvariant(c, run);
    var s := Run(c, run).value;
    if s.collectorDone {
      whole := run;
    } else {
      var a := NeverStuck(c, s);
      var longer := run + [a];
      assert longer[..|longer| - 1] == run;
      RunsAreBounded(c, longer);
      whole := CanFinish(c, longer);
    }
  }

  /** The sweep can be cancelled at any time, and then finished without handing out another port. */
  lemma CanStop(c: Config, run: seq<Action>) returns (whole: seq<Action>)
    requires Run(c, run).Some? && c.maxConcurrentPorts > 0
    ensures run <= whole && Run(c, whole).Some? && Run(c, whole).value.collectorDone
    ensures Run(c, whole).value.cancelled && Run(c, whole).value.handed == Run(c, run).value.handed
  {
    RunKeepsInvariant(c, run);
    var stopped := if Run(c, run).value.cancelled then run else run + [Cancel];
    assert (run + [Cancel])[..|run|] == run;
    whole := CanFinish(c, stopped);
  }

  // ---------------------------------------------------------------- what the caller gets

  /** Any outcome of sorting the collected results by port. */
  predicate SortedByPort(collected: seq<ScanResult>, all: seq<ScanResult>) {
    && multiset(all) == multiset(collected)
    && forall i, j :: 0 <= i < j < |all| ==> all[i].port <= all[j].port
  }

  lemma {:induction false} CountedPorts(ps: seq<int>, p: int)
    ensures PortCount(ps, p) > 0 <==> p in ps
    ensures NoDuplicates(ps) ==> PortCount(ps, p) <= 1
  {
    if ps != [] {
      var init := ps[..|ps| - 1];
      assert ps == init + [ps[|ps| - 1]];
      CountedPorts(init, p);
    }
  }

  lemma {:induction false} CountedResults(rs: seq<ScanResult>, p: int)
    ensures ResultCount(rs, p) > 0 <==> exists r :: r in rs && r.port == p
  {
    if rs != [] {
      var init := rs[..|rs| - 1];
      assert rs == init + [rs[|rs| - 1]];
      CountedResults(init, p);
    }
  }

  lemma {:induction false} CountedTwice(rs: seq<ScanResult>, i: nat, j: nat)
    requires i < j < |rs| && rs[i].port == rs[j].port
    ensures ResultCount(rs, rs[i].port) >= 2
  {
    var init := rs[..|rs| - 1];
    if j < |rs| - 1 {
      CountedTwice(init, i, j);
    } else {
      assert init[i] in init;
      CountedResults(init, rs[i].port);
    }
  }

  lemma {:induction false} ProbedMembers(run: seq<Action>, r: ScanResult)
    ensures r in Probed(run) <==> exists w :: FinishProbe(w, r) in run
  {
    if run != [] {
      var init, a := run[..|run| - 1], run[|run| - 1];
      assert run == init + [a];
      ProbedMembers(init, r);
      if a.FinishProbe? && a.result == r { assert a == FinishProbe(a.w, r); }
    }
  }

  /** Without a worker that holds a result, everything the probes reported is collected. */
  lemma CollectedIsProbed(c: Config, run: seq<Action>)
    requires Run(c, run).Some? && Run(c, run).value.collectorDone
    ensures multiset(Run(c, run).value.collected) == multiset(Probed(run))
  {
    RunKeepsInvariant(c, run);
    var s := Run(c, run).value;
    WorkerCounts(s.workers, 0);
    forall r ensures multiset(s.collected)[r] == multiset(Probed(run))[r] {
      NothingUnsent(s.workers, r);
      RunConservesResults(c, run, r);
      TimesIsMultiplicity(s.collected, r);
      TimesIsMultiplicity(Probed(run), r);
    }
  }

  ghost predicate DistinctPorts(rs: seq<ScanResult>) {
    forall i, j :: 0 <= i < j < |rs| ==> rs[i].port != rs[j].port
  }

  lemma {:induction false} Multiplicity(rs: seq<ScanResult>, r: ScanResult)
    requires DistinctPorts(rs)
    ensures multiset(rs)[r] <= 1
  {
    if rs != [] {
      var init := rs[..|rs| - 1];
      assert rs == init + [rs[|rs| - 1]];
      Multiplicity(init, r);
      if r == rs[|rs| - 1] { assert r !in init; }
    }
  }

  lemma Repeated(rs: seq<ScanResult>, i: nat, j: nat)
    requires i < j < |rs| && rs[i] == rs[j]
    ensures multiset(rs)[rs[i]] >= 2
  {
    assert rs == rs[..j] + rs[j..];
    assert rs[i] in rs[..j] && rs[j] in rs[j..];
  }

  /** Sorting permutes, so it keeps the ports distinct and puts them in strictly ascending order. */
  lemma SortedIsStrict(collected: seq<ScanResult>, all: seq<ScanResult>)
    requires DistinctPorts(collected) && SortedByPort(collected, all)
    ensures forall i, j :: 0 <= i < j < |all| ==> all[i].port < all[j].port
    ensures forall r :: r in all <==> r in collected
  {
    forall r ensures r in all <==> r in collected {
      assert r in multiset(all) <==> r in multiset(collected);
    }
    forall i, j | 0 <= i < j < |all| ensures all[i].port < all[j].port {
      if all[i].port == all[j].port {
        assert all[i] in collected && all[j] in collected;
        Multiplicity(collected, all[i]);
        if all[i] == all[j] { Repeated(all, i, j); }
        assert false;
      }
    }
  }

  /**
   When the collector is done, the sorted results are strictly ascending by port, are exactly what the probes
   reported, and hold exactly one result for each port handed out; those form a prefix of the configuration,
   and all of it when there was no cancellation. Every worker has exited.
   */
  lemma SweepResult(c: Config, run: seq<Action>, all: seq<ScanResult>)
    requires NoDuplicates(c.ports)
    requires Run(c, run).Some? && Run(c, run).value.collectorDone
    requires SortedByPort(Run(c, run).value.collected, all)
    ensures forall i, j :: 0 <= i < j < |all| ==> all[i].port < all[j].port
    ensures multiset(all) == multiset(Probed(run))
    ensures forall r :: r in all <==> exists w :: FinishProbe(w, r) in run
    ensures var s := Run(c, run).value;
      && s.handed <= |c.ports|
      && (forall p :: (exists r :: r in all && r.port == p) <==> p in c.ports[..s.handed])
      && (!s.cancelled ==> s.handed == |c.ports|)
      && forall w :: w in s.workers ==> w == Exited
  {
    RunKeepsInvariant(c, run);
    var s := Run(c, run).value;
    forall p ensures ResultCount(s.collected, p) == PortCount(c.ports[..s.handed], p) {
      WorkerCounts(s.workers, p);
      RunConservesPorts(c, run, p);
    }
    WorkerCounts(s.workers, 0);
    forall i, j | 0 <= i < j < |s.collected| ensures s.collected[i].port != s.collected[j].port {
      if s.collected[i].port == s.collected[j].port {
        CountedTwice(s.collected, i, j);
        CountedPorts(c.ports[..s.handed], s.collected[i].port);
        assert false;
      }
    }
    SortedIsStrict(s.collected, all);
    CollectedIsProbed(c, run);
    forall r ensures r in all <==> exists w :: FinishProbe(w, r) in run {
      assert r in multiset(all) <==> r in multiset(Probed(run));
      ProbedMembers(run, r);
    }
    forall p ensures (exists r :: r in all && r.port == p) <==> p in c.ports[..s.handed] {
      CountedResults(s.collected, p);
      CountedPorts(c.ports[..s.handed], p);
      assert (exists r :: r in all && r.port == p) <==> (exists r :: r in s.collected && r.port == p);
    }
  }
}
