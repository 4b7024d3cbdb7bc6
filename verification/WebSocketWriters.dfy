/**
 Concurrent text writers on one connection as interleaved steps: each takes the mutex, writes the header,
 writes the payload and releases. A write may fail after any number of its bytes, all of them included; from
 then on the connection lets nothing through.
 */
module WebSocketWriters {
  import opened Basics
  import opened WebSocketFrames

  datatype Writer =
    | Idle
    | Waiting(data: seq<Byte>)            // at the mutex
    | Holding(data: seq<Byte>)            // about to write the header
    | HeaderWritten(data: seq<Byte>)      // about to write the payload
    | Returning                           // about to release the mutex

  /** The frame whose writing failed, and how many of its bytes got through. */
  datatype Torn = Torn(data: seq<Byte>, bytes: nat)

  datatype State = State(
    stream: seq<Byte>,
    holder: Option<nat>,
    writers: seq<Writer>,
    taken: seq<seq<Byte>>,                // messages in the order in which their writers took the mutex
    sent: seq<seq<Byte>>,                 // messages whose payload write returned no error
    torn: Option<Torn>)

  /** What a write comes to: whether it returns no error, and how many bytes the connection lets through. */
  datatype Write = Write(ok: bool, through: nat)

  datatype Action =
    | Call(k: nat, data: seq<Byte>)
    | Lock(k: nat)
    | WriteHeader(k: nat, write: Write)
    | WritePayload(k: nat, write: Write)
    | Unlock(k: nat)

  function Initial(n: nat): State {
    State([], None, seq(n, _ => Idle), [], [], None)
  }

  function At(s: State, k: nat, w: Writer): State
    requires k < |s.writers|
  {
    s.(writers := s.writers[k := w])
  }

  /** A failed write of `bytes`, which follow `before` bytes of the frame of `data`. */
  function Fail(s: State, k: nat, data: seq<Byte>, before: nat, bytes: seq<Byte>, write: Write): Option<State>
    requires k < |s.writers|
  {
    var through := write.through;
    if write.ok || through > |bytes| then None
    else if s.torn.None? then
      Some(At(s.(stream := s.stream + bytes[..through], torn := Some(Torn(data, before + through))), k, Returning))
    else if through == 0 then Some(At(s, k, Returning))
    else None
  }

  function Step(s: State, a: Action): Option<State> {
    if a.k >= |s.writers| then None
    else
      match (a, s.writers[a.k])
      case (Call(k, data), Idle) => if |data| < TWO_63 then Some(At(s, k, Waiting(data))) else None
      case (Lock(k), Waiting(data)) =>
        if s.holder.Some? then None
        else Some(At(s.(holder := Some(k), taken := s.taken + [data]), k, Holding(data)))
      case (WriteHeader(k, write), Holding(data)) =>
        var header := Header(|data|);
        if s.torn.None? && write == Write(true, |header|) then
          Some(At(s.(stream := s.stream + header), k, HeaderWritten(data)))
        else Fail(s, k, data, 0, header, write)
      case (WritePayload(k, write), HeaderWritten(data)) =>
        if s.torn.None? && write == Write(true, |data|) then
          Some(At(s.(stream := s.stream + data, sent := s.sent + [data]), k, Returning))
        else Fail(s, k, data, |Header(|data|)|, data, write)
      case (Unlock(k), Returning) => Some(At(s.(holder := None), k, Idle))
      case _ => None
  }

  function Run(n: nat, run: seq<Action>): Option<State> {
    if run == [] then Some(Initial(n))
    else
      var before := Run(n, run[..|run| - 1]);
      if before.None? then None else Step(before.value, run[|run| - 1])
  }

  // ---------------------------------------------------------------- what is on the connection

  /** The part of a frame behind the frames that were sent. */
  function Part(s: State): seq<Byte> {
    if s.torn.Some? then
      var frame := Frame(s.torn.value.data);
      if s.torn.value.bytes <= |frame| then frame[..s.torn.value.bytes] else frame
    else if s.holder.Some? && s.holder.value < |s.writers| && s.writers[s.holder.value].HeaderWritten? then
      Header(|s.writers[s.holder.value].data|)
    else []
  }

  predicate Outside(w: Writer) {
    w.Idle? || w.Waiting?
  }

  /** Only the holder of the mutex is between taking and releasing it. */
  ghost predicate Exclusive(s: State) {
    && (s.holder.Some? ==> s.holder.value < |s.writers| && !Outside(s.writers[s.holder.value]))
    && forall k :: 0 <= k < |s.writers| && s.holder != Some(k) ==> Outside(s.writers[k])
  }

  ghost predicate Short(m: seq<Byte>) {
    |m| < TWO_63
  }

  ghost predicate HasShort(w: Writer) {
    !w.Idle? && !w.Returning? ==> Short(w.data)
  }

  ghost predicate AllShort(s: State) {
    && (forall k :: 0 <= k < |s.writers| ==> HasShort(s.writers[k]))
    && (forall i :: 0 <= i < |s.sent| ==> Short(s.sent[i]))
    && (s.torn.Some? ==> Short(s.torn.value.data) && s.torn.value.bytes <= |Frame(s.torn.value.data)|)
  }

  /** The message of the holder that is not sent yet. */
  function InProgress(s: State): seq<seq<Byte>> {
    match s.holder
    case Some(k) =>
      if k < |s.writers| && (s.writers[k].Holding? || s.writers[k].HeaderWritten?) then [s.writers[k].data] else []
    case None => []
  }

  /** The sent messages are the first taken ones, followed by the one in progress or the one that failed. */
  ghost predicate InLockOrder(s: State) {
    if s.torn.Some? then s.sent + [s.torn.value.data] <= s.taken else s.taken == s.sent + InProgress(s)
  }

  ghost predicate Sound(s: State) {
    Exclusive(s) && AllShort(s) && InLockOrder(s) && s.stream == Stream(s.sent) + Part(s)
  }

  lemma StepIsExclusive(s: State, a: Action)
    requires Exclusive(s) && AllShort(s) && Step(s, a).Some?
    ensures Exclusive(Step(s, a).value) && AllShort(Step(s, a).value)
  {
  }

  lemma StepKeepsOrder(s: State, a: Action)
    requires Exclusive(s) && InLockOrder(s) && Step(s, a).Some?
    ensures InLockOrder(Step(s, a).value)
  {
  }

  lemma OtherStepKeepsStream(s: State, a: Action)
    requires Exclusive(s) && Step(s, a).Some? && !a.WriteHeader? && !a.WritePayload?
    ensures var t := Step(s, a).value; t.stream == s.stream && t.sent == s.sent && Part(t) == Part(s)
  {
  }

  lemma HeaderKeepsStream(s: State, a: Action)
    requires Exclusive(s) && Step(s, a).Some? && a.WriteHeader? && s.stream == Stream(s.sent) + Part(s)
    ensures var t := Step(s, a).value; t.stream == Stream(t.sent) + Part(t)
  {
    var t := Step(s, a).value;
    var header := Header(|s.writers[a.k].data|);
    if s.torn.None? {
      assert Part(s) == [] && s.stream == Stream(s.sent);
      assert Part(t) == header[..a.write.through] == Frame(s.writers[a.k].data)[..a.write.through];
    } else {
      assert Part(t) == Part(s);
    }
  }

  lemma PayloadKeepsStream(s: State, a: Action)
    requires Exclusive(s) && Step(s, a).Some? && a.WritePayload? && s.stream == Stream(s.sent) + Part(s)
    ensures var t := Step(s, a).value; t.stream == Stream(t.sent) + Part(t)
  {
    var t := Step(s, a).value;
    var data := s.writers[a.k].data;
    var header := Header(|data|);
    if s.torn.Some? {
      assert Part(t) == Part(s);
    } else if a.write.ok {
      StreamAppend(s.sent, data);
      assert Part(t) == [] && Part(s) == header;
      assert Stream(s.sent) + header + data == Stream(s.sent) + Frame(data);
    } else {
      assert Part(s) == header;
      assert Part(t) == Frame(data)[..|header| + a.write.through] == header + data[..a.write.through];
    }
  }

  lemma StepKeepsStream(s: State, a: Action)
    requires Exclusive(s) && Step(s, a).Some? && s.stream == Stream(s.sent) + Part(s)
    ensures var t := Step(s, a).value; t.stream == Stream(t.sent) + Part(t)
  {
    if a.WriteHeader? {
      HeaderKeepsStream(s, a);
    } else if a.WritePayload? {
      PayloadKeepsStream(s, a);
    } else {
      OtherStepKeepsStream(s, a);
    }
  }

  lemma {:induction false} RunIsSound(n: nat, run: seq<Action>)
    requires Run(n, run).Some?
    ensures Sound(Run(n, run).value)
  {
    if run != [] {
      var s, a := Run(n, run[..|run| - 1]).value, run[|run| - 1];
      RunIsSound(n, run[..|run| - 1]);
      StepIsExclusive(s, a);
      StepKeepsOrder(s, a);
      StepKeepsStream(s, a);
    }
  }

  // ---------------------------------------------------------------- what the receiver gets

  /** Behind complete frames, part of another one delivers nothing. */
  lemma {:induction false} PartDeliversNothing(messages: seq<seq<Byte>>, data: seq<Byte>, t: nat)
    requires (forall i :: 0 <= i < |messages| ==> Short(messages[i])) && Short(data) && t < |Frame(data)|
    ensures ReceiveAll(Stream(messages) + Frame(data)[..t]).messages == messages
  {
    var part := Frame(data)[..t];
    if messages == [] {
      assert Stream([]) + part == part;
      PartIsIncomplete(data, t);
    } else {
      var rest := Stream(messages[1..]) + part;
      assert Stream(messages) + part == Frame(messages[0]) + rest;
      PartDeliversNothing(messages[1..], data, t);
      ReceiveOneMore(messages[0], rest);
      assert messages == [messages[0]] + messages[1..];
    }
  }

  /**
   The message whose frame is complete although its writer has not been told of success: an empty one whose
   header is written, or one whose last write failed with all bytes through.
   */
  function Unreported(s: State): seq<seq<Byte>> {
    if s.torn.Some? then
      (if s.torn.value.bytes == |Frame(s.torn.value.data)| then [s.torn.value.data] else [])
    else if InProgress(s) == [[]] && s.writers[s.holder.value].HeaderWritten? then [[]]
    else []
  }

  lemma WholeFrame(messages: seq<seq<Byte>>, data: seq<Byte>)
    requires (forall i :: 0 <= i < |messages| ==> Short(messages[i])) && Short(data)
    ensures ReceiveAll(Stream(messages) + Frame(data)).messages == messages + [data]
  {
    StreamAppend(messages, data);
    OneMoreIsShort(messages, data);
    WholeStreamIsReceived(messages + [data]);
  }

  lemma OneMoreIsShort(messages: seq<seq<Byte>>, data: seq<Byte>)
    requires (forall i :: 0 <= i < |messages| ==> Short(messages[i])) && Short(data)
    ensures forall m :: m in messages + [data] ==> |m| < TWO_63
  {
    var all := messages + [data];
    forall i | 0 <= i < |all| ensures Short(all[i]) {
      if i < |messages| { assert all[i] == messages[i]; }
    }
  }

  lemma HeaderDeliversNothing(messages: seq<seq<Byte>>, data: seq<Byte>)
    requires (forall i :: 0 <= i < |messages| ==> Short(messages[i])) && Short(data) && data != []
    ensures ReceiveAll(Stream(messages) + Header(|data|)).messages == messages
  {
    assert Frame(data)[..|Header(|data|)|] == Header(|data|);
    PartDeliversNothing(messages, data, |Header(|data|)|);
  }

  /**
   In every interleaving, whatever writes fail, the receiver has at any time got the messages whose writers
   were told of success and at most one more, whose frame is complete; they are the first messages in the order
   in which the writers took the mutex.
   */
  lemma ReceiverGetsSentMessages(n: nat, run: seq<Action>)
    requires Run(n, run).Some?
    ensures var s := Run(n, run).value;
      && ReceiveAll(s.stream).messages == s.sent + Unreported(s) <= s.taken
      && (s.torn.None? && s.holder.None? ==> s.sent == s.taken)
  {
    RunIsSound(n, run);
    var s := Run(n, run).value;
    if s.torn.Some? {
      var frame := Frame(s.torn.value.data);
      if s.torn.value.bytes < |frame| {
        PartDeliversNothing(s.sent, s.torn.value.data, s.torn.value.bytes);
      } else {
        assert Part(s) == frame;
        WholeFrame(s.sent, s.torn.value.data);
      }
    } else if s.holder.Some? && s.writers[s.holder.value].HeaderWritten? {
      var data := s.writers[s.holder.value].data;
      if data == [] {
        assert Frame([]) == Header(0);
        WholeFrame(s.sent, []);
      } else {
        HeaderDeliversNothing(s.sent, data);
      }
    } else {
      PartDeliversNothing(s.sent, [], 0);
    }
  }

  // ---------------------------------------------------------------- no message is lost without an error

  function Times(messages: seq<seq<Byte>>, m: seq<Byte>): nat {
    if messages == [] then 0
    else Times(messages[..|messages| - 1], m) + (if messages[|messages| - 1] == m then 1 else 0)
  }

  /** Inside a call, before the payload write is over. */
  predicate Carries(w: Writer, m: seq<Byte>) {
    (w.Waiting? || w.Holding? || w.HeaderWritten?) && w.data == m
  }

  function Carried(ws: seq<Writer>, m: seq<Byte>): nat {
    if ws == [] then 0 else Carried(ws[..|ws| - 1], m) + (if Carries(ws[|ws| - 1], m) then 1 else 0)
  }

  /** How many calls of the run are for the message m. */
  function Calls(run: seq<Action>, m: seq<Byte>): nat {
    if run == [] then 0
    else
      var a := run[|run| - 1];
      Calls(run[..|run| - 1], m) + (if a.Call? && a.data == m then 1 else 0)
  }

  predicate IsWrite(a: Action) {
    a.WriteHeader? || a.WritePayload?
  }

  /** Whether the step is a write for m that returns an error. */
  predicate FailsFor(s: State, a: Action, m: seq<Byte>) {
    IsWrite(a) && !a.write.ok && a.k < |s.writers| && Carries(s.writers[a.k], m)
  }

  /** How many writes for m returned an error. */
  function Failures(n: nat, run: seq<Action>, m: seq<Byte>): nat
    requires Run(n, run).Some?
  {
    if run == [] then 0
    else
      var init := run[..|run| - 1];
      Failures(n, init, m) + (if FailsFor(Run(n, init).value, run[|run| - 1], m) then 1 else 0)
  }

  lemma {:induction false} UpdateCarried(ws: seq<Writer>, k: nat, w: Writer, m: seq<Byte>)
    requires k < |ws|
    ensures Carried(ws[k := w], m) + (if Carries(ws[k], m) then 1 else 0) ==
      Carried(ws, m) + (if Carries(w, m) then 1 else 0)
  {
    var n := |ws| - 1;
    if k == n {
      assert ws[k := w][..n] == ws[..n];
    } else {
      assert ws[k := w][..n] == ws[..n][k := w];
      UpdateCarried(ws[..n], k, w, m);
    }
  }

  lemma {:induction false} NothingCarried(ws: seq<Writer>, m: seq<Byte>)
    requires forall k :: 0 <= k < |ws| ==> ws[k].Idle?
    ensures Carried(ws, m) == 0
  {
    if ws != [] { NothingCarried(ws[..|ws| - 1], m); }
  }

  lemma OneMoreSent(s: State, data: seq<Byte>, m: seq<Byte>)
    ensures Times(s.sent + [data], m) == Times(s.sent, m) + (if data == m then 1 else 0)
  {
    assert (s.sent + [data])[..|s.sent|] == s.sent;
  }

  lemma StepConservesMessages(s: State, a: Action, m: seq<Byte>)
    requires Step(s, a).Some?
    ensures var t := Step(s, a).value;
      Carried(t.writers, m) + Times(t.sent, m) + (if FailsFor(s, a, m) then 1 else 0) ==
        Carried(s.writers, m) + Times(s.sent, m) + (if a.Call? && a.data == m then 1 else 0)
  {
    var t := Step(s, a).value;
    UpdateCarried(s.writers, a.k, t.writers[a.k], m);
    assert t.writers == s.writers[a.k := t.writers[a.k]];
    if a.WritePayload? && a.write.ok { OneMoreSent(s, s.writers[a.k].data, m); }
  }

  /** In every interleaving each message is still inside its call, or was sent, or a write for it returned an error. */
  lemma {:induction false} MessagesAreConserved(n: nat, run: seq<Action>, m: seq<Byte>)
    requires Run(n, run).Some?
    ensures var s := Run(n, run).value;
      Calls(run, m) == Carried(s.writers, m) + Times(s.sent, m) + Failures(n, run, m)
  {
    if run == [] {
      NothingCarried(Initial(n).writers, m);
    } else {
      MessagesAreConserved(n, run[..|run| - 1], m);
      StepConservesMessages(Run(n, run[..|run| - 1]).value, run[|run| - 1], m);
    }
  }

  lemma {:induction false} NoFailures(n: nat, run: seq<Action>, m: seq<Byte>)
    requires Run(n, run).Some? && Run(n, run).value.torn.None?
    ensures Failures(n, run, m) == 0
  {
    if run != [] { NoFailures(n, run[..|run| - 1], m); }
  }

  // ---------------------------------------------------------------- every call can return

  function Work(w: Writer): nat {
    match w
    case Idle => 0
    case Returning => 1
    case HeaderWritten(_) => 2
    case Holding(_) => 3
    case Waiting(_) => 4
  }

  function TotalWork(ws: seq<Writer>): nat {
    if ws == [] then 0 else TotalWork(ws[..|ws| - 1]) + Work(ws[|ws| - 1])
  }

  lemma {:induction false} UpdateWork(ws: seq<Writer>, k: nat, w: Writer)
    requires k < |ws|
    ensures TotalWork(ws[k := w]) + Work(ws[k]) == TotalWork(ws) + Work(w)
  {
    var n := |ws| - 1;
    if k == n {
      assert ws[k := w][..n] == ws[..n];
    } else {
      assert ws[k := w][..n] == ws[..n][k := w];
      UpdateWork(ws[..n], k, w);
    }
  }

  /** The next step of writer k when the connection is sound. */
  function Move(s: State, k: nat): Action
    requires k < |s.writers|
  {
    match s.writers[k]
    case Waiting(_) => Lock(k)
    case Holding(data) => WriteHeader(k, Write(true, |Header(|data|)|))
    case HeaderWritten(data) => WritePayload(k, Write(true, |data|))
    case Returning => Unlock(k)
    case Idle => Call(k, [])
  }

  /** The holder can always go on, and without one anybody who waits. */
  lemma NeverStuck(s: State) returns (a: Action)
    requires Exclusive(s) && s.torn.None? && exists k :: 0 <= k < |s.writers| && !s.writers[k].Idle?
    ensures !a.Call? && Step(s, a).Some? && Step(s, a).value.torn.None?
    ensures TotalWork(Step(s, a).value.writers) < TotalWork(s.writers)
  {
    var k: nat :| k < |s.writers| && !s.writers[k].Idle?;
    var j := if s.holder.Some? then s.holder.value else k;
    a := Move(s, j);
    var t := Step(s, a).value;
    UpdateWork(s.writers, j, t.writers[j]);
    assert t.writers == s.writers[j := t.writers[j]];
  }

  lemma {:induction false} NoMoreCalls(run: seq<Action>, whole: seq<Action>, m: seq<Byte>)
    requires run <= whole && forall i :: |run| <= i < |whole| ==> !whole[i].Call?
    ensures Calls(whole, m) == Calls(run, m)
  {
    if whole != run { NoMoreCalls(run, whole[..|whole| - 1], m); }
  }

  /** As long as no write failed, all calls can return. */
  lemma {:induction false} CanReturn(n: nat, run: seq<Action>) returns (whole: seq<Action>)
    requires Run(n, run).Some? && Run(n, run).value.torn.None?
    ensures run <= whole && Run(n, whole).Some? && Run(n, whole).value.torn.None?
    ensures forall k :: 0 <= k < |Run(n, whole).value.writers| ==> Run(n, whole).value.writers[k].Idle?
    ensures forall i :: |run| <= i < |whole| ==> !whole[i].Call?
    decreases TotalWork(Run(n, run).value.writers)
  {
    RunIsSound(n, run);
    var s := Run(n, run).value;
    if forall k :: 0 <= k < |s.writers| ==> s.writers[k].Idle? {
      whole := run;
    } else {
      var a := NeverStuck(s);
      assert (run + [a])[..|run|] == run;
      whole := CanReturn(n, run + [a]);
    }
  }

  /** As long as no write failed, the receiver can get every message exactly as often as it was called for. */
  lemma EveryMessageCanArrive(n: nat, run: seq<Action>) returns (whole: seq<Action>)
    requires Run(n, run).Some? && Run(n, run).value.torn.None?
    ensures run <= whole && Run(n, whole).Some?
    ensures forall m :: Times(ReceiveAll(Run(n, whole).value.stream).messages, m) == Calls(run, m)
  {
    whole := CanReturn(n, run);
    var s := Run(n, whole).value;
    RunIsSound(n, whole);
    ReceiverGetsSentMessages(n, whole);
    assert Unreported(s) == [] && s.sent + [] == s.sent;
    forall m ensures Times(s.sent, m) == Calls(run, m) {
      NoMoreCalls(run, whole, m);
      MessagesAreConserved(n, whole, m);
      NoFailures(n, whole, m);
      NothingCarried(s.writers, m);
    }
  }
}
