/**
 The asynchronous logger: callers enqueue, one writer thread drains the queue. Every
 critical section is one event, and events come in any order.
*/
module Logger {

  datatype Entry = Entry(level: int, text: string)

  /** What has reached the output: from the queue, or written directly after shutdown. */
  datatype Line = FromQueue(entry: Entry) | Direct(entry: Entry)

  /** The writer waits for entries, holds a batch it is to write, or one it has written
      and not counted yet, or has ended. */
  datatype Writer = Waiting | Holding(batch: seq<Entry>) | Wrote(batch: seq<Entry>) | Exited

  /** `accepted` records every entry ever enqueued. */
  datatype State = State(
    queue: seq<Entry>,
    enqueued: nat,
    written: nat,
    running: bool,
    stopRequested: bool,
    writer: Writer,
    output: seq<Line>,
    accepted: seq<Entry>)

  const START := State([], 0, 0, true, false, Waiting, [], [])

  datatype Event =
    | Log(entry: Entry)      // log, while the writer is running: enqueue
    | LogDirect(entry: Entry) // log, after shutdown has begun: write
    | Take                   // the writer swaps the queue out
    | WriteBatch             // and writes it, without the lock
    | CountBatch             // and counts it
    | EndWriter              // stop requested and nothing left
    | StopRunning            // shutdown's first section
    | RequestStop            // shutdown stops the writer

  function Lines(entries: seq<Entry>): seq<Line> {
    seq(|entries|, i requires 0 <= i < |entries| => FromQueue(entries[i]))
  }

  predicate Enabled(s: State, e: Event) {
    match e
    case Log(_) => s.running
    case LogDirect(_) => !s.running
    case Take => s.writer == Waiting && s.queue != []
    case WriteBatch => s.writer.Holding?
    case CountBatch => s.writer.Wrote?
    case EndWriter => s.writer == Waiting && s.queue == [] && s.stopRequested
    case StopRunning => s.running
    case RequestStop => !s.running
  }

  function Apply(s: State, e: Event): State
    requires Enabled(s, e)
  {
    match e
    case Log(entry) =>
      s.(queue := s.queue + [entry], enqueued := s.enqueued + 1, accepted := s.accepted + [entry])
    case LogDirect(entry) => s.(output := s.output + [Direct(entry)])
    case Take => s.(queue := [], writer := Holding(s.queue))
    case WriteBatch => s.(output := s.output + Lines(s.writer.batch), writer := Wrote(s.writer.batch))
    case CountBatch => s.(written := s.written + |s.writer.batch|, writer := Waiting)
    case EndWriter => s.(writer := Exited)
    case StopRunning => s.(running := false)
    case RequestStop => s.(stopRequested := true)
  }

  // ---- Conservation ----

  /** The entries of the output that came through the queue, in order. */
  function Queued(output: seq<Line>): seq<Entry> {
    if output == [] then []
    else
      var last := output[|output| - 1];
      Queued(output[..|output| - 1]) + if last.FromQueue? then [last.entry] else []
  }

  lemma {:induction false} QueuedOfBatch(output: seq<Line>, batch: seq<Entry>)
    ensures Queued(output + Lines(batch)) == Queued(output) + batch
  {
    if batch == [] {
      assert output + Lines(batch) == output;
    } else {
      var n := |batch| - 1;
      assert (output + Lines(batch))[..|output| + n] == output + Lines(batch[..n]);
      QueuedOfBatch(output, batch[..n]);
      assert batch == batch[..n] + [batch[n]];
    }
  }

  /** The batch the writer has taken and not written, and not counted. */
  function Unwritten(w: Writer): seq<Entry> {
    if w.Holding? then w.batch else []
  }

  function Uncounted(w: Writer): nat {
    if w.Holding? || w.Wrote? then |w.batch| else 0
  }

  /** Nothing is lost, doubled or reordered on the way from the queue to the output. */
  ghost predicate Inv(s: State) {
    && Split(s)
    && s.enqueued == |s.accepted|
    && s.enqueued == s.written + |s.queue| + Uncounted(s.writer)
    && (s.stopRequested ==> !s.running)
    && (s.writer == Exited ==> !s.running && s.queue == [])
  }

  /** What was accepted, split where it stands now. */
  ghost predicate Split(s: State) {
    s.accepted == Queued(s.output) + Unwritten(s.writer) + s.queue
  }

  lemma EventKeepsSplit(s: State, e: Event)
    requires Split(s) && Enabled(s, e)
    ensures Split(Apply(s, e))
  {
    match e
    case Log(entry) =>
      assert s.accepted + [entry] == Queued(s.output) + Unwritten(s.writer) + (s.queue + [entry]);
    case LogDirect(entry) =>
      assert (s.output + [Direct(entry)])[..|s.output|] == s.output;
    case Take => assert Queued(s.output) + [] + s.queue == Queued(s.output) + s.queue + [];
    case WriteBatch => QueuedOfBatch(s.output, s.writer.batch);
    case _ =>
  }

  lemma EventKeepsInv(s: State, e: Event)
    requires Inv(s) && Enabled(s, e)
    ensures Inv(Apply(s, e))
  {
    EventKeepsSplit(s, e);
  }

  /** The states that events lead through from the start. */
  ghost predicate IsRun(events: seq<Event>, states: seq<State>) {
    && |states| == |events| + 1 && states[0] == START
    && forall k :: 0 <= k < |events| ==> IsStep(states[k], events[k], states[k + 1])
  }

  predicate IsStep(s: State, e: Event, s': State) {
    Enabled(s, e) && s' == Apply(s, e)
  }

  lemma {:induction false} RunKeepsInv(events: seq<Event>, states: seq<State>, k: nat)
    requires IsRun(events, states) && k < |states|
    ensures Inv(states[k])
  {
    if k > 0 {
      RunKeepsInv(events, states, k - 1);
      assert IsStep(states[k - 1], events[k - 1], states[k - 1 + 1]);
      EventKeepsInv(states[k - 1], events[k - 1]);
    }
  }

  /** In every reachable state: the counters add up, and what has come through the queue
      is what was enqueued, in order, each entry once, up to what is still on its way. */
  lemma Conservation(events: seq<Event>, states: seq<State>, k: nat)
    requires IsRun(events, states) && k < |states|
    ensures var s := states[k];
      && s.enqueued == s.written + |s.queue| + Uncounted(s.writer)
      && Queued(s.output) <= s.accepted
  {
    RunKeepsInv(events, states, k);
    var s := states[k];
    assert s.accepted == Queued(s.output) + (Unwritten(s.writer) + s.queue);
  }

  /** The entries of the events that enqueue one, and of those that write one directly. */
  function EntriesLogged(events: seq<Event>): seq<Entry> {
    if events == [] then []
    else
      var last := events[|events| - 1];
      EntriesLogged(events[..|events| - 1]) + if last.Log? then [last.entry] else []
  }

  function EntriesWritten(events: seq<Event>): seq<Entry> {
    if events == [] then []
    else
      var last := events[|events| - 1];
      EntriesWritten(events[..|events| - 1]) + if last.LogDirect? then [last.entry] else []
  }

  /** The entries of the output that were written directly, in order. */
  function Directs(output: seq<Line>): seq<Entry> {
    if output == [] then []
    else
      var last := output[|output| - 1];
      Directs(output[..|output| - 1]) + if last.Direct? then [last.entry] else []
  }

  lemma {:induction false} BatchIsNotDirect(output: seq<Line>, batch: seq<Entry>)
    ensures Directs(output + Lines(batch)) == Directs(output)
  {
    if batch == [] {
      assert output + Lines(batch) == output;
    } else {
      var n := |batch| - 1;
      assert (output + Lines(batch))[..|output| + n] == output + Lines(batch[..n]);
      BatchIsNotDirect(output, batch[..n]);
    }
  }

  lemma OneMoreLine(s: State, e: Event)
    requires Enabled(s, e)
    ensures Directs(Apply(s, e).output) == Directs(s.output) + if e.LogDirect? then [e.entry] else []
    ensures Apply(s, e).accepted == s.accepted + if e.Log? then [e.entry] else []
  {
    match e
    case LogDirect(entry) => assert (s.output + [Direct(entry)])[..|s.output|] == s.output;
    case WriteBatch => BatchIsNotDirect(s.output, s.writer.batch);
    case _ =>
  }

  /** Nothing that is logged is dropped or made up: what has been accepted are the entries of
      the calls that enqueue, and what is written directly those of the other calls, in order. */
  lemma {:induction false} EveryEntryIsKept(events: seq<Event>, states: seq<State>, k: nat)
    requires IsRun(events, states) && k < |states|
    ensures states[k].accepted == EntriesLogged(events[..k])
    ensures Directs(states[k].output) == EntriesWritten(events[..k])
  {
    if k > 0 {
      EveryEntryIsKept(events, states, k - 1);
      assert IsStep(states[k - 1], events[k - 1], states[k - 1 + 1]);
      OneMoreLine(states[k - 1], events[k - 1]);
      assert events[..k][..k - 1] == events[..k - 1];
    }
  }

  lemma {:induction false} AcceptedGrows(events: seq<Event>, states: seq<State>, k: nat, l: nat)
    requires IsRun(events, states) && k <= l < |states|
    ensures states[k].accepted <= states[l].accepted
  {
    if k < l {
      AcceptedGrows(events, states, k, l - 1);
      assert IsStep(states[l - 1], events[l - 1], states[l - 1 + 1]);
    }
  }

  // ---- flush ----

  /** flush's condition for returning. */
  predicate FlushReturns(s: State, target: nat) {
    s.written >= target || !s.running
  }

  /** A flush that returns while the writer is running: every entry enqueued before it was called has been output. */
  lemma FlushMeansOutput(events: seq<Event>, states: seq<State>, called: nat, returned: nat)
    requires IsRun(events, states) && called <= returned < |states|
    requires FlushReturns(states[returned], states[called].enqueued) && states[returned].running
    ensures states[called].accepted <= Queued(states[returned].output)
  {
    RunKeepsInv(events, states, called);
    RunKeepsInv(events, states, returned);
    AcceptedGrows(events, states, called, returned);
    var s := states[returned];
    assert s.accepted == Queued(s.output) + (Unwritten(s.writer) + s.queue);
    assert |Queued(s.output)| >= s.written;
  }

  lemma {:induction false} RunningUntilStopped(events: seq<Event>, states: seq<State>, k: nat)
    requires IsRun(events, states) && k < |states|
    ensures states[k].running <==> StopRunning !in events[..k]
  {
    if k == 0 {
      assert events[..0] == [];
    } else {
      RunningUntilStopped(events, states, k - 1);
      assert IsStep(states[k - 1], events[k - 1], states[k - 1 + 1]);
      assert events[..k] == events[..k - 1] + [events[k - 1]];
    }
  }

  /** The flush called at one point keeps its promise when it returns at another. */
  ghost predicate FlushKept(states: seq<State>, called: nat, returned: nat)
    requires called < |states| && returned < |states|
  {
    FlushReturns(states[returned], states[called].enqueued) ==>
      states[called].accepted <= Queued(states[returned].output)
  }

  /** With no shutdown before it returns, flush keeps its promise. */
  lemma FlushKeptWithoutShutdown(events: seq<Event>, states: seq<State>, called: nat, returned: nat)
    requires IsRun(events, states) && called <= returned < |states|
    requires StopRunning !in events[..returned]
    ensures FlushKept(states, called, returned)
  {
    RunningUntilStopped(events, states, returned);
    if FlushReturns(states[returned], states[called].enqueued) {
      FlushMeansOutput(events, states, called, returned);
    }
  }

  lemma StepOutputs(s: State, e: Event, s': State)
    requires IsStep(s, e, s')
    ensures Queued(s.output) <= Queued(s'.output)
  {
    match e
    case LogDirect(entry) => assert s'.output[..|s.output|] == s.output;
    case WriteBatch => QueuedOfBatch(s.output, s.writer.batch);
    case _ =>
  }

  lemma {:induction false} OutputGrows(events: seq<Event>, states: seq<State>, k: nat, l: nat)
    requires IsRun(events, states) && k <= l < |states|
    ensures Queued(states[k].output) <= Queued(states[l].output)
  {
    if k < l {
      OutputGrows(events, states, k, l - 1);
      assert IsStep(states[l - 1], events[l - 1], states[l - 1 + 1]);
      StepOutputs(states[l - 1], events[l - 1], states[l]);
    }
  }

  lemma Continue(events: seq<Event>, states: seq<State>, e: Event)
    requires IsRun(events, states) && Enabled(states[|events|], e)
    ensures IsRun(events + [e], states + [Apply(states[|events|], e)])
  {
    var more, further := events + [e], states + [Apply(states[|events|], e)];
    forall k | 0 <= k < |more| ensures IsStep(further[k], more[k], further[k + 1]) {
      if k < |events| {
        assert IsStep(states[k], events[k], states[k + 1]);
      }
    }
  }

  /** Whenever an accepted entry has not been output yet, a shutdown can make a flush
      called now return without it. */
  lemma FlushDuringShutdown(events: seq<Event>, states: seq<State>)
    requires IsRun(events, states)
    requires var s := states[|events|]; s.running && !(s.accepted <= Queued(s.output))
    ensures var t := Apply(states[|events|], StopRunning);
      && IsRun(events + [StopRunning], states + [t])
      && FlushReturns(t, states[|events|].enqueued)
      && !(states[|events|].accepted <= Queued(t.output))
  {
    Continue(events, states, StopRunning);
  }

  /** A flush called at the end of this run keeps its promise however the run goes on. */
  ghost predicate FlushAlwaysKept(events: seq<Event>, states: seq<State>)
    requires IsRun(events, states)
  {
    forall more: seq<Event>, further: seq<State>, returned: nat ::
      IsRun(more, further) && events <= more && states <= further && |events| <= returned < |further| ==>
        FlushKept(further, |events|, returned)
  }

  /** flush keeps its promise in every continuation if and only if everything accepted
      when it is called has already been output: else a shutdown may come in between. */
  lemma FlushAlwaysKeptExactly(events: seq<Event>, states: seq<State>)
    requires IsRun(events, states)
    ensures FlushAlwaysKept(events, states) <==> states[|events|].accepted <= Queued(states[|events|].output)
  {
    var k := |events|;
    if states[k].accepted <= Queued(states[k].output) {
      forall more: seq<Event>, further: seq<State>, returned: nat |
        IsRun(more, further) && events <= more && states <= further && k <= returned < |further|
        ensures FlushKept(further, k, returned)
      {
        OutputGrows(more, further, k, returned);
      }
    } else if states[k].running {
      var t := Apply(states[k], StopRunning);
      FlushDuringShutdown(events, states);
      assert IsRun(events + [StopRunning], states + [t]);
      assert (states + [t])[k + 1] == t && (states + [t])[k] == states[k];
      assert !FlushKept(states + [t], k, k + 1);
    } else {
      assert !FlushKept(states, k, k);
    }
  }

  // ---- shutdown ----

  lemma ExitedStays(s: State, e: Event, s': State)
    requires Inv(s) && IsStep(s, e, s') && s.writer == Exited
    ensures s'.writer == Exited && s'.accepted == s.accepted
  {
  }

  lemma {:induction false} ExitedForGood(events: seq<Event>, states: seq<State>, joined: nat, l: nat)
    requires IsRun(events, states) && joined <= l < |states| && states[joined].writer == Exited
    ensures states[l].writer == Exited && states[l].accepted == states[joined].accepted
  {
    if joined < l {
      ExitedForGood(events, states, joined, l - 1);
      RunKeepsInv(events, states, l - 1);
      assert IsStep(states[l - 1], events[l - 1], states[l - 1 + 1]);
      ExitedStays(states[l - 1], events[l - 1], states[l]);
    }
  }

  /** When shutdown has joined the writer, every entry ever enqueued has been output, and no more are enqueued. */
  lemma ShutdownMeansOutput(events: seq<Event>, states: seq<State>, joined: nat, l: nat)
    requires IsRun(events, states) && joined <= l < |states| && states[joined].writer == Exited
    ensures Queued(states[l].output) == states[l].accepted == states[joined].accepted
  {
    ExitedForGood(events, states, joined, l);
    RunKeepsInv(events, states, l);
    assert Queued(states[l].output) + [] + [] == Queued(states[l].output);
  }

  /** How many events the writer still has before it. */
  function WriterWork(s: State): nat {
    (match s.writer
     case Exited => 0
     case Waiting => 1
     case Wrote(_) => 2
     case Holding(_) => 3) + if s.queue != [] then 3 else 0
  }

  predicate IsWriterEvent(e: Event) {
    e.Take? || e.WriteBatch? || e.CountBatch? || e.EndWriter?
  }

  /** Until the writer that shutdown joins has ended, it can go on. */
  lemma WriterCanGoOn(s: State) returns (e: Event)
    requires Inv(s) && s.stopRequested && s.writer != Exited
    ensures IsWriterEvent(e) && Enabled(s, e)
  {
    e := match s.writer
         case Holding(_) => WriteBatch
         case Wrote(_) => CountBatch
         case _ => if s.queue != [] then Take else EndWriter;
  }

  /** Once shutdown has begun, the writer's events bring its end nearer, and nothing moves it away. */
  lemma WriterEndsSooner(s: State, e: Event)
    requires Inv(s) && !s.running && Enabled(s, e)
    ensures !Apply(s, e).running
    ensures WriterWork(Apply(s, e)) <= WriterWork(s) - if IsWriterEvent(e) then 1 else 0
  {
  }

  function WriterEvents(events: seq<Event>, k: nat): nat
    requires k <= |events|
  {
    if k == 0 then 0 else WriterEvents(events, k - 1) + if IsWriterEvent(events[k - 1]) then 1 else 0
  }

  /** Once shutdown has begun, the writer has at most six more events until it has ended. */
  lemma {:induction false} JoinReturns(events: seq<Event>, states: seq<State>, begun: nat, l: nat)
    requires IsRun(events, states) && begun <= l < |states| && !states[begun].running
    ensures !states[l].running
    ensures WriterEvents(events, l) - WriterEvents(events, begun) + WriterWork(states[l]) <= WriterWork(states[begun])
    ensures WriterWork(states[begun]) <= 6
  {
    if begun < l {
      JoinReturns(events, states, begun, l - 1);
      RunKeepsInv(events, states, l - 1);
      assert IsStep(states[l - 1], events[l - 1], states[l - 1 + 1]);
      WriterEndsSooner(states[l - 1], events[l - 1]);
    }
  }

  // ---- The logger's fields ----

  const OFF := 6

  class Logger {
    var minLevel: int
    var queue: seq<Entry>
    var enqueued: nat
    var written: nat
    var running: bool
    var output: seq<Line>

    ghost var stopRequested: bool
    ghost var writer: Writer
    ghost var accepted: seq<Entry>

    ghost function View(): State
      reads this
    {
      State(queue, enqueued, written, running, stopRequested, writer, output, accepted)
    }

    constructor (minLevel: int)
      ensures View() == START && this.minLevel == minLevel
    {
      this.minLevel := minLevel;
      queue, enqueued, written, running, output := [], 0, 0, true, [];
      stopRequested, writer, accepted := false, Waiting, [];
    }

    /** Enqueues the entry, or writes it once shutdown has begun; one below the level is dropped. */
    method Log(level: int, text: string)
      modifies this
      ensures minLevel == old(minLevel)
      ensures View() ==
              if level == OFF || level < minLevel then old(View())
              else if old(running) then Apply(old(View()), Event.Log(Entry(level, text)))
              else Apply(old(View()), LogDirect(Entry(level, text)))
    {
      if level == OFF || level < minLevel {
        return;
      }
      if running {
        queue := queue + [Entry(level, text)];
        enqueued := enqueued + 1;
        accepted := accepted + [Entry(level, text)];
        return;
      }
      output := output + [Direct(Entry(level, text))];
    }

    /** The writer swaps the queue out. */
    method TakeBatch() returns (batch: seq<Entry>)
      requires Enabled(View(), Take)
      modifies this
      ensures View() == Apply(old(View()), Take) && View().writer == Holding(batch)
    {
      batch := queue;
      queue := [];
      writer := Holding(batch);
    }

    /** The writer writes a batch, entry by entry. */
    method WriteEntries(batch: seq<Entry>)
      requires View().writer == Holding(batch)
      modifies this
      ensures View() == Apply(old(View()), WriteBatch)
    {
      writer := Wrote(batch);
      ghost var before := output;
      var i := 0;
      while i < |batch|
        invariant i <= |batch| && output == before + Lines(batch[..i])
        invariant View().(output := before) == old(View()).(writer := Wrote(batch))
      {
        assert Lines(batch[..i + 1]) == Lines(batch[..i]) + [FromQueue(batch[i])];
        output := output + [FromQueue(batch[i])];
        i := i + 1;
      }
      assert batch[..i] == batch;
    }

    /** The writer counts the batch it has written. */
    method CountWritten(batch: seq<Entry>)
      requires View().writer == Wrote(batch)
      modifies this
      ensures View() == Apply(old(View()), CountBatch)
    {
      written := written + |batch|;
      writer := Waiting;
    }

    /** shutdown's first section; false if another call has been there before. */
    method BeginShutdown() returns (first: bool)
      modifies this
      ensures first == old(running)
      ensures View() == if first then Apply(old(View()), StopRunning) else old(View())
    {
      first := running;
      running := false;
    }
  }
}
