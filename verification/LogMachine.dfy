/** The file log appender as a state machine. Producers store messages under a lock, one
    consumer thread swaps the full buffers out and writes them; an event is one region that runs
    without interruption. A step may fail: an assertion aborts the process, or a null pointer is
    dereferenced.

    A buffer behind a unique pointer is a value here: its contents, or `None` for null. */
module LogMachine {
  import opened Common
  import opened Buffers

  type Contents = seq<Byte>
  type Pointer = Option<Contents>

  /** Where the consumer thread stands; `k` buffers of its batch have been written. */
  datatype Pc =
    | NotStarted | Entry
    | Head | ToSwap | Writing(k: nat)
    | ToDrain | LastWriting(k: nat)
    | Exited

  /** `newBuff1`, `newBuff2` and `batch` are the consumer's local variables. `accepted` has the
      bytes of all messages that fit an empty buffer, `drained` those accepted before a consumer
      took what was left for the last time. */
  datatype State = State(
    capacity: nat,
    curr: Pointer, next: Pointer, buffers: seq<Contents>,
    running: bool, file: Contents,
    newBuff1: Pointer, newBuff2: Pointer, batch: seq<Contents>,
    pc: Pc,
    accepted: Contents, drained: Contents)

  function Fresh(capacity: nat): State {
    State(capacity, Some([]), Some([]), [], false, [], None, None, [], NotStarted, [], [])
  }

  /** `Store` is the locked region of log, `Start` and `Stop` are the calls before it and from
      outside, `Consume` is the next step of the consumer. */
  datatype Event = Store(msg: Contents) | Start | Stop | Consume

  // ------------------------------------------------------------------ steps

  function Fitting(capacity: nat, msg: Contents): Contents {
    if |msg| <= capacity then msg else []
  }

  function Stored(s: State, msg: Contents): State
    requires s.curr.Some?
  {
    var curr, accepted := s.curr.value, s.accepted + Fitting(s.capacity, msg);
    if |curr| + |msg| < s.capacity then
      s.(curr := Some(FixedAppend(curr, s.capacity, msg)), accepted := accepted)
    else
      var other := if s.next.Some? then s.next.value else [];
      s.(buffers := s.buffers + [curr], curr := Some(FixedAppend(other, s.capacity, msg)), next := None, accepted := accepted)
  }

  function Started(s: State): State {
    if s.running then s
    else s.(running := true, newBuff1 := Some([]), newBuff2 := Some([]), batch := [], pc := Entry)
  }

  function Swapped(s: State): State
    requires s.curr.Some?
  {
    s.(curr := s.newBuff1, newBuff1 := None,
       next := if s.next.None? then s.newBuff2 else s.next,
       newBuff2 := if s.next.None? then None else s.newBuff2,
       batch := s.buffers + [s.curr.value], buffers := s.batch,
       pc := Writing(0))
  }

  /** The spare buffers that were given away come back out of the batch, of which two are kept. */
  function Refilled(s: State): Option<State> {
    var kept := FirstOf(s.batch, 2);
    if s.newBuff1.None? && kept == [] then None
    else
      var rest := if s.newBuff1.None? then kept[..|kept| - 1] else kept;
      if s.newBuff2.None? && rest == [] then None
      else Some(s.(newBuff1 := if s.newBuff1.None? then Some([]) else s.newBuff1,
                   newBuff2 := if s.newBuff2.None? then Some([]) else s.newBuff2,
                   batch := [], pc := Head))
  }

  function IfFilled(p: Pointer): seq<Contents> {
    if p.Some? && p.value != [] then [p.value] else []
  }

  function Drained(s: State): State {
    s.(batch := s.buffers + IfFilled(s.curr) + IfFilled(s.next), buffers := s.batch,
       curr := if IfFilled(s.curr) != [] then None else s.curr,
       next := if IfFilled(s.next) != [] then None else s.next,
       pc := LastWriting(0), drained := s.accepted)
  }

  /** The spare buffers are there and empty, and nothing is left of the last batch. */
  predicate SparesReady(s: State) {
    s.newBuff1 == Some([]) && s.newBuff2 == Some([]) && s.batch == []
  }

  function Consumed(s: State): Option<State> {
    match s.pc
    case Entry => if s.running then Some(s.(pc := Head)) else None
    case Head =>
      if !s.running then Some(s.(pc := ToDrain))
      else if SparesReady(s) then Some(s.(pc := ToSwap))
      else None
    case ToSwap => if s.curr.Some? then Some(Swapped(s)) else None
    case Writing(k) =>
      if k < |s.batch| then Some(s.(file := s.file + s.batch[k], pc := Writing(k + 1))) else Refilled(s)
    case ToDrain => Some(Drained(s))
    case LastWriting(k) =>
      if k < |s.batch| then Some(s.(file := s.file + s.batch[k], pc := LastWriting(k + 1))) else Some(s.(pc := Exited))
    case NotStarted => Some(s)
    case Exited => Some(s)
  }

  /** A consumer is started only when there is none: stop has joined the one before. */
  predicate Possible(s: State, ev: Event) {
    match ev
    case Store(_) => true
    case Start => s.running || s.pc == NotStarted || s.pc == Exited
    case Stop => true
    case Consume => s.pc != NotStarted && s.pc != Exited
  }

  /** The state after an event, or `None` when the process ends in it. */
  function Step(s: State, ev: Event): Option<State> {
    match ev
    case Store(msg) => if s.curr.Some? then Some(Stored(s, msg)) else None
    case Start => Some(Started(s))
    case Stop => Some(s.(running := false))
    case Consume => Consumed(s)
  }

  datatype Result = Going(state: State) | Crashed | Impossible

  function Run(s: State, evs: seq<Event>): Result
    decreases |evs|
  {
    if evs == [] then Going(s)
    else if !Possible(s, evs[0]) then Impossible
    else
      var after := Step(s, evs[0]);
      if after.Some? then Run(after.value, evs[1..]) else Crashed
  }

  // ------------------------------------------------------------------ nothing is lost

  /** What the consumer still has to write of its batch. */
  function Remaining(s: State): seq<Contents> {
    if (s.pc.Writing? || s.pc.LastWriting?) && s.pc.k <= |s.batch| then s.batch[s.pc.k..] else []
  }

  /** What is stored for later batches, oldest first. */
  function Waiting(s: State): seq<Contents> {
    s.buffers + if s.curr.Some? then [s.curr.value] else []
  }

  /** No byte is lost, duplicated or reordered. */
  ghost predicate Lossless(s: State) {
    s.file + Flattened(Remaining(s)) + Flattened(Waiting(s)) == s.accepted
  }

  predicate Shaped(s: State) {
    && (s.next.Some? ==> s.next.value == [])
    && (s.curr.Some? ==> |s.curr.value| <= s.capacity)
    && match s.pc
       case NotStarted => !s.running && s.batch == []
       case Entry => SparesReady(s)
       case Head => SparesReady(s)
       case ToSwap => SparesReady(s)
       case Writing(k) =>
         && k <= |s.batch| && s.batch != [] && s.newBuff1.None? && s.curr.Some?
         && (s.newBuff2.Some? ==> s.newBuff2.value == [])
       case ToDrain => SparesReady(s) && !s.running
       case LastWriting(k) => k <= |s.batch| && !s.running
       case Exited => !s.running
  }

  /** What was accepted before the drain is written by the time the consumer has exited. */
  ghost predicate DrainWritten(s: State) {
    && (s.pc.LastWriting? ==> s.file + Flattened(Remaining(s)) == s.drained)
    && (s.pc.Exited? ==> s.file == s.drained)
  }

  ghost predicate Inv(s: State) {
    Shaped(s) && Lossless(s) && DrainWritten(s)
  }

  lemma FreshInv(capacity: nat)
    ensures Inv(Fresh(capacity))
  {
    var s := Fresh(capacity);
    assert Waiting(s) == [[]];
    FlattenedOne<Byte>([]);
  }

  /** The buffer at the end of what waits grows, or a new one is put behind it. */
  lemma WaitingMore(s: State, msg: Contents)
    requires Shaped(s) && s.curr.Some?
    ensures Flattened(Waiting(Stored(s, msg))) == Flattened(Waiting(s)) + Fitting(s.capacity, msg)
  {
    var curr := s.curr.value;
    FlattenedSnoc(s.buffers, curr);
    if |curr| + |msg| < s.capacity {
      FlattenedSnoc(s.buffers, curr + msg);
      Regrouped(Flattened(s.buffers), curr, msg);
    } else {
      FixedFitting(s.capacity, msg);
      FlattenedSnoc(s.buffers + [curr], Fitting(s.capacity, msg));
    }
  }

  lemma FixedFitting(capacity: nat, msg: Contents)
    ensures FixedAppend([], capacity, msg) == Fitting(capacity, msg)
  {
    assert [] + msg == msg;
  }

  lemma StoreInv(s: State, msg: Contents)
    requires Inv(s) && s.curr.Some?
    ensures Inv(Stored(s, msg))
  {
    WaitingMore(s, msg);
    SameRemaining(s, msg);
    var done := s.file + Flattened(Remaining(s));
    Regrouped(done, Flattened(Waiting(s)), Fitting(s.capacity, msg));
  }

  lemma SameRemaining(s: State, msg: Contents)
    requires Shaped(s) && s.curr.Some?
    ensures Shaped(Stored(s, msg)) && Remaining(Stored(s, msg)) == Remaining(s)
  {
  }

  lemma StartInv(s: State)
    requires Inv(s) && Possible(s, Start)
    ensures Inv(Started(s))
  {
  }

  lemma StopInv(s: State)
    requires Inv(s)
    ensures Inv(s.(running := false))
  {
  }

  /** Everything that waits becomes the batch. */
  lemma SwapInv(s: State)
    requires Inv(s) && s.pc == ToSwap && s.curr.Some?
    ensures Inv(Swapped(s))
  {
    var t := Swapped(s);
    assert Waiting(t) == [[]] && Remaining(t) == Waiting(s) && Remaining(s) == [];
    FlattenedOne<Byte>([]);
  }

  lemma WriteRest(s: State)
    requires (s.pc.Writing? || s.pc.LastWriting?) && s.pc.k < |s.batch|
    ensures s.file + Flattened(Remaining(s)) == s.file + s.batch[s.pc.k] + Flattened(Remaining(Consumed(s).value))
  {
    var rest := Remaining(Consumed(s).value);
    assert Remaining(s) == [s.batch[s.pc.k]] + rest;
    Regrouped(s.file, s.batch[s.pc.k], Flattened(rest));
  }

  lemma WriteInv(s: State)
    requires Inv(s) && (s.pc.Writing? || s.pc.LastWriting?) && s.pc.k < |s.batch|
    ensures Inv(Consumed(s).value)
  {
    WriteRest(s);
  }

  lemma RefillInv(s: State)
    requires Inv(s) && s.pc.Writing? && s.pc.k == |s.batch|
    ensures Refilled(s).Some? ==> Inv(Refilled(s).value)
  {
    assert Remaining(s) == [];
  }

  lemma DrainWaiting(s: State)
    requires Inv(s) && s.pc == ToDrain
    ensures Flattened(Remaining(Drained(s))) == Flattened(Waiting(s))
    ensures Flattened(Waiting(Drained(s))) == []
  {
    var t := Drained(s);
    assert Remaining(t) == s.buffers + IfFilled(s.curr);
    FlattenedOne<Byte>([]);
    if s.curr == Some([]) {
      FlattenedSnoc(s.buffers, []);
      assert Remaining(t) == s.buffers && Waiting(t) == [[]];
    } else {
      assert Remaining(t) == Waiting(s) && Waiting(t) == [];
    }
  }

  lemma DrainInv(s: State)
    requires Inv(s) && s.pc == ToDrain
    ensures Inv(Drained(s))
  {
    DrainWaiting(s);
    assert Remaining(s) == [];
  }

  lemma ExitInv(s: State)
    requires Inv(s) && s.pc.LastWriting? && s.pc.k == |s.batch|
    ensures Inv(s.(pc := Exited))
  {
    assert Remaining(s) == [];
  }

  /** Every step that does not end the process keeps the invariant. */
  lemma StepInv(s: State, ev: Event)
    requires Inv(s) && Possible(s, ev) && Step(s, ev).Some?
    ensures Inv(Step(s, ev).value)
  {
    match ev
    case Store(msg) => StoreInv(s, msg);
    case Start => StartInv(s);
    case Stop => StopInv(s);
    case Consume => ConsumeInv(s);
  }

  lemma ConsumeInv(s: State)
    requires Inv(s) && Possible(s, Consume) && Consumed(s).Some?
    ensures Inv(Consumed(s).value)
  {
    match s.pc
    case ToSwap => SwapInv(s);
    case Writing(k) => if k < |s.batch| { WriteInv(s); } else { RefillInv(s); }
    case ToDrain => DrainInv(s);
    case LastWriting(k) => if k < |s.batch| { WriteInv(s); } else { ExitInv(s); }
    case Entry => OnlyPc(s, Head);
    case Head => OnlyPc(s, if s.running then ToSwap else ToDrain);
  }

  lemma OnlyPc(s: State, pc: Pc)
    requires Inv(s) && (s.pc == Entry || s.pc == Head)
    requires pc == Head || (pc == ToSwap && SparesReady(s)) || (pc == ToDrain && !s.running)
    ensures Inv(s.(pc := pc))
  {
  }

  /** Every run keeps the invariant, up to the point at which the process ends. */
  lemma {:induction false} RunInv(s: State, evs: seq<Event>)
    requires Inv(s)
    ensures Run(s, evs).Going? ==> Inv(Run(s, evs).state)
    decreases |evs|
  {
    if Run(s, evs).Going? && evs != [] {
      StepInv(s, evs[0]);
      RunInv(Step(s, evs[0]).value, evs[1..]);
    }
  }

  /** Lossless and first in, first out in every state of every run, restarts included, and
      what was accepted before a drain is in the file when that consumer has exited. */
  lemma LosslessAlways(capacity: nat, evs: seq<Event>)
    requires Run(Fresh(capacity), evs).Going?
    ensures var s := Run(Fresh(capacity), evs).state;
      && s.file + Flattened(Remaining(s) + Waiting(s)) == s.accepted
      && (s.pc.Exited? ==> s.file == s.drained)
  {
    FreshInv(capacity);
    RunInv(Fresh(capacity), evs);
    var s := Run(Fresh(capacity), evs).state;
    FlattenedTwo(Remaining(s), Waiting(s));
    Regrouped(s.file, Flattened(Remaining(s)), Flattened(Waiting(s)));
  }

  /** The messages that were stored and fit an empty buffer. */
  function FittingMessages(capacity: nat, evs: seq<Event>): seq<Contents> {
    if evs == [] then []
    else (if evs[0].Store? && |evs[0].msg| <= capacity then [evs[0].msg] else []) + FittingMessages(capacity, evs[1..])
  }

  lemma {:induction false} AcceptedMore(s: State, evs: seq<Event>)
    requires Run(s, evs).Going?
    ensures Run(s, evs).state.accepted == s.accepted + Flattened(FittingMessages(s.capacity, evs))
    decreases |evs|
  {
    if evs == [] {
      assert s.accepted + [] == s.accepted;
    } else {
      var t := Step(s, evs[0]).value;
      AcceptedMore(t, evs[1..]);
      FittingNext(s.capacity, evs);
      AcceptedNext(s, evs[0]);
      Regrouped(s.accepted, if evs[0].Store? then Fitting(s.capacity, evs[0].msg) else [], Flattened(FittingMessages(s.capacity, evs[1..])));
    }
  }

  lemma AcceptedNext(s: State, ev: Event)
    requires Step(s, ev).Some?
    ensures var t := Step(s, ev).value;
      t.capacity == s.capacity && t.accepted == s.accepted + if ev.Store? then Fitting(s.capacity, ev.msg) else []
  {
    assert s.accepted + [] == s.accepted;
  }

  lemma FittingNext(capacity: nat, evs: seq<Event>)
    requires evs != []
    ensures Flattened(FittingMessages(capacity, evs)) ==
      (if evs[0].Store? then Fitting(capacity, evs[0].msg) else []) + Flattened(FittingMessages(capacity, evs[1..]))
  {
    var rest := FittingMessages(capacity, evs[1..]);
    if evs[0].Store? && |evs[0].msg| <= capacity {
      FlattenedTwo([evs[0].msg], rest);
      FlattenedOne(evs[0].msg);
    } else {
      assert [] + rest == rest && [] + Flattened(rest) == Flattened(rest);
    }
  }

  /** The stream is made of the stored messages themselves, all but those longer than a buffer. */
  lemma NothingButTheMessages(capacity: nat, evs: seq<Event>)
    requires Run(Fresh(capacity), evs).Going?
    ensures var s := Run(Fresh(capacity), evs).state;
      s.file + Flattened(Remaining(s) + Waiting(s)) == Flattened(FittingMessages(capacity, evs))
  {
    LosslessAlways(capacity, evs);
    AcceptedMore(Fresh(capacity), evs);
    assert [] + Flattened(FittingMessages(capacity, evs)) == Flattened(FittingMessages(capacity, evs));
  }

  // ------------------------------------------------------------------ when the process survives

  /** The consumer has not taken what is left for good. */
  predicate Working(s: State) {
    !s.pc.LastWriting? && !s.pc.Exited?
  }

  /** There is a current buffer, and a spare one unless full buffers are waiting. */
  predicate Ready(s: State) {
    s.curr.Some? && (s.next.None? ==> s.buffers != [])
  }

  ghost predicate Safe(s: State) {
    && Inv(s)
    && (Working(s) ==> Ready(s))
    && (s.pc == Entry ==> s.running)
    && (s.pc.Writing? && s.newBuff2.None? ==> |s.batch| >= 2)
  }

  /** What a caller has to see to: nothing is stored without a current buffer, no consumer is
      started on buffers that are not ready, and none is stopped before it has entered its loop. */
  predicate Careful(s: State, ev: Event) {
    match ev
    case Store(_) => s.curr.Some?
    case Start => s.running || Ready(s)
    case Stop => s.pc != Entry
    case Consume => true
  }

  lemma SafeStore(s: State, msg: Contents)
    requires Safe(s) && s.curr.Some?
    ensures Safe(Stored(s, msg))
  {
    StoreInv(s, msg);
  }

  lemma SafeStart(s: State)
    requires Safe(s) && Possible(s, Start) && Careful(s, Start)
    ensures Safe(Started(s))
  {
    StartInv(s);
  }

  lemma SafeSwap(s: State)
    requires Safe(s) && s.pc == ToSwap
    ensures s.curr.Some? && Safe(Swapped(s))
  {
    SwapInv(s);
  }

  /** The assertions about the spare buffers hold. */
  lemma SafeRefill(s: State)
    requires Safe(s) && s.pc.Writing? && s.pc.k == |s.batch|
    ensures Refilled(s).Some? && Safe(Refilled(s).value)
  {
    RefillInv(s);
  }

  lemma SafeConsume(s: State)
    requires Safe(s) && Possible(s, Consume)
    ensures Consumed(s).Some? && Safe(Consumed(s).value)
  {
    match s.pc
    case ToSwap => SafeSwap(s);
    case Writing(k) => if k < |s.batch| { WriteInv(s); } else { SafeRefill(s); }
    case _ => ConsumeInv(s);
  }

  lemma SafeStep(s: State, ev: Event)
    requires Safe(s) && Possible(s, ev) && Careful(s, ev)
    ensures Step(s, ev).Some? && Safe(Step(s, ev).value)
  {
    match ev
    case Store(msg) => SafeStore(s, msg);
    case Start => SafeStart(s);
    case Stop => StopInv(s);
    case Consume => SafeConsume(s);
  }

  /** Every event of the run is careful when its turn comes. */
  predicate CarefulRun(s: State, evs: seq<Event>)
    decreases |evs|
  {
    evs != [] && Possible(s, evs[0]) ==>
      Careful(s, evs[0]) && (Step(s, evs[0]).Some? ==> CarefulRun(Step(s, evs[0]).value, evs[1..]))
  }

  /** A careful run never aborts and never dereferences null. */
  lemma {:induction false} CarefulRunsSurvive(s: State, evs: seq<Event>)
    requires Safe(s) && CarefulRun(s, evs)
    ensures Run(s, evs) != Crashed
    decreases |evs|
  {
    if evs != [] && Possible(s, evs[0]) {
      SafeStep(s, evs[0]);
      CarefulRunsSurvive(Step(s, evs[0]).value, evs[1..]);
    }
  }

  lemma FreshSafe(capacity: nat)
    ensures Safe(Fresh(capacity))
  {
    FreshInv(capacity);
  }

  /** Until a consumer takes what is left, every call is careful, except for stopping it before
      it has entered its loop. */
  lemma WorkingIsCareful(s: State, ev: Event)
    requires Safe(s) && Working(s) && Possible(s, ev)
    ensures Careful(s, ev) <==> !(ev.Stop? && s.pc == Entry)
  {
  }

  /** What the last region of a consumer leaves behind is ready for a restart exactly if the
      current buffer was empty and the spare one was there. */
  lemma ReadyAfterDrain(s: State)
    requires Safe(s) && s.pc == ToDrain
    ensures Drained(s).curr.Some? <==> s.curr == Some([])
    ensures Ready(Drained(s)) <==> s.curr == Some([]) && s.next.Some?
  {
  }

  // ------------------------------------------------------------------ and when it does not

  function Consumes(n: nat): seq<Event> {
    if n == 0 then [] else [Consume] + Consumes(n - 1)
  }

  lemma RunFirst(s: State, ev: Event, evs: seq<Event>)
    requires Possible(s, ev)
    ensures Run(s, [ev] + evs) == if Step(s, ev).Some? then Run(Step(s, ev).value, evs) else Crashed
  {
    assert ([ev] + evs)[1..] == evs;
  }

  lemma RunConsume(s: State, n: nat)
    requires Possible(s, Consume) && n > 0
    ensures Run(s, Consumes(n)) == if Consumed(s).Some? then Run(Consumed(s).value, Consumes(n - 1)) else Crashed
  {
    RunFirst(s, Consume, Consumes(n - 1));
  }

  lemma {:induction false} ConsumingSurvives(s: State, n: nat)
    requires Safe(s)
    ensures Run(s, Consumes(n)) != Crashed
    decreases n
  {
    if n > 0 && Possible(s, Consume) {
      RunConsume(s, n);
      SafeConsume(s);
      ConsumingSurvives(Consumed(s).value, n - 1);
    }
  }

  /** A consumer that finds no current buffer puts null into its batch. */
  lemma NoCurrentCrashes(s: State)
    requires s.pc == Entry && s.running && SparesReady(s) && s.curr.None?
    ensures Run(s, Consumes(3)) == Crashed
  {
    RunConsume(s, 3);
    RunConsume(s.(pc := Head), 2);
    RunConsume(s.(pc := ToSwap), 1);
  }

  /** A consumer that finds neither a spare buffer nor a full one gives both its own away and
      gets only one back. */
  lemma NoSpareCrashes(s: State)
    requires s.pc == Entry && s.running && SparesReady(s) && s.curr.Some? && s.next.None? && s.buffers == []
    ensures Run(s, Consumes(5)) == Crashed
  {
    RunConsume(s, 5);
    RunConsume(s.(pc := Head), 4);
    RunConsume(s.(pc := ToSwap), 3);
    var t := Swapped(s.(pc := ToSwap));
    assert t.batch == [s.curr.value];
    RunConsume(t, 2);
    var u := t.(file := t.file + t.batch[0], pc := Writing(1));
    assert FirstOf(u.batch, 2) == u.batch;
    assert Refilled(u) == None;
    RunConsume(u, 1);
  }

  lemma CarelessStart(s: State)
    requires Inv(s) && Possible(s, Start) && !Careful(s, Start)
    ensures Run(Started(s), Consumes(3)) == Crashed || Run(Started(s), Consumes(5)) == Crashed
  {
    if s.curr.None? {
      NoCurrentCrashes(Started(s));
    } else {
      NoSpareCrashes(Started(s));
    }
  }

  lemma CarelessStop(s: State)
    requires s.pc == Entry
    ensures Run(s.(running := false), Consumes(1)) == Crashed
  {
    RunConsume(s.(running := false), 1);
  }

  /** The care is exact: a call is careful if and only if the process survives it and whatever
      the consumer does after it. */
  lemma SurvivesIffCareful(s: State, ev: Event)
    requires Safe(s) && Possible(s, ev)
    ensures Careful(s, ev) <==> forall n: nat :: Run(s, [ev] + Consumes(n)) != Crashed
  {
    if Careful(s, ev) {
      SafeStep(s, ev);
      forall n: nat ensures Run(s, [ev] + Consumes(n)) != Crashed {
        RunFirst(s, ev, Consumes(n));
        ConsumingSurvives(Step(s, ev).value, n);
      }
    } else {
      CarelessCrashes(s, ev);
    }
  }

  lemma CarelessCrashes(s: State, ev: Event)
    requires Safe(s) && Possible(s, ev) && !Careful(s, ev)
    ensures exists n: nat :: Run(s, [ev] + Consumes(n)) == Crashed
  {
    match ev
    case Store(_) =>
      RunFirst(s, ev, Consumes(0));
    case Start =>
      RunFirst(s, ev, Consumes(3));
      RunFirst(s, ev, Consumes(5));
      CarelessStart(s);
    case Stop =>
      RunFirst(s, ev, Consumes(1));
      CarelessStop(s);
  }

  // ------------------------------------------------------------------ such runs

  /** A consumer in its loop, with nothing stored yet. */
  function Idle(capacity: nat): State {
    Fresh(capacity).(running := true, newBuff1 := Some([]), newBuff2 := Some([]), pc := Head)
  }

  lemma ToIdle(capacity: nat, evs: seq<Event>)
    ensures Run(Fresh(capacity), [Start] + ([Consume] + evs)) == Run(Idle(capacity), evs)
  {
    RunFirst(Fresh(capacity), Start, [Consume] + evs);
    RunFirst(Started(Fresh(capacity)), Consume, evs);
  }

  /** The simplest one: a message is stored, the appender is stopped, and the next message
      starts it again and finds no current buffer. */
  lemma LogAfterStopCrashes(capacity: nat, msg: Contents, other: Contents)
    requires 0 < |msg| < capacity
    ensures Run(Fresh(capacity),
                [Start] + ([Consume] + ([Store(msg)] + ([Stop] + (Consumes(4) + ([Start] + [Store(other)])))))) == Crashed
  {
    var rest := [Start] + [Store(other)];
    ToIdle(capacity, [Store(msg)] + ([Stop] + (Consumes(4) + rest)));
    var s := Idle(capacity);
    RunFirst(s, Store(msg), [Stop] + (Consumes(4) + rest));
    var t := s.(curr := Some([] + msg), accepted := [] + msg);
    assert Stored(s, msg) == t;
    RunFirst(t, Stop, Consumes(4) + rest);
    DrainsAndExits(t.(running := false), rest);
    var u := Exiting(t.(running := false));
    RunFirst(u, Start, [Store(other)]);
    assert Run(Started(u), [Store(other)]) == Crashed;
  }

  /** One buffer is drained and written. */
  function Exiting(s: State): State {
    var d := Drained(s);
    d.(file := if d.batch != [] then d.file + d.batch[0] else d.file, pc := Exited)
  }

  lemma DrainsAndExits(s: State, evs: seq<Event>)
    requires s.pc == Head && !s.running && |Drained(s).batch| == 1
    ensures Run(s, Consumes(4) + evs) == Run(Exiting(s), evs)
  {
    var c := [Consume];
    assert Consumes(4) + evs == c + (c + (c + (c + evs)));
    var t := s.(pc := ToDrain);
    RunFirst(s, Consume, c + (c + (c + evs)));
    RunFirst(t, Consume, c + (c + evs));
    var d := Drained(t);
    assert d == Drained(s);
    RunFirst(d, Consume, c + evs);
    var w := d.(file := d.file + d.batch[0], pc := LastWriting(1));
    RunFirst(w, Consume, evs);
    assert w.(pc := Exited) == Exiting(s);
  }

  /** The consumer writes its first batch while a message arrives that fits no buffer. */
  function Oversized(capacity: nat): State {
    Idle(capacity).(curr := Some([]), next := None, buffers := [[]], newBuff1 := None, batch := [[]], pc := Writing(0))
  }

  lemma ToOversized(capacity: nat, long: Contents, evs: seq<Event>)
    requires |long| > capacity
    ensures Run(Idle(capacity), [Consume] + ([Consume] + ([Store(long)] + evs))) == Run(Oversized(capacity), evs)
  {
    var s := Idle(capacity);
    RunFirst(s, Consume, [Consume] + ([Store(long)] + evs));
    RunFirst(s.(pc := ToSwap), Consume, [Store(long)] + evs);
    var t := Swapped(s.(pc := ToSwap));
    RunFirst(t, Store(long), evs);
    assert Stored(t, long) == Oversized(capacity);
  }

  /** Stopped now, the consumer writes its batch and then the empty buffer, and leaves an empty
      current buffer and no spare one. */
  function Spareless(capacity: nat): State {
    Fresh(capacity).(next := None, newBuff1 := Some([]), newBuff2 := Some([]), batch := [[]], pc := Exited)
  }

  lemma ToSpareless(capacity: nat, evs: seq<Event>)
    ensures Run(Oversized(capacity), [Stop] + ([Consume] + ([Consume] + (Consumes(4) + evs)))) == Run(Spareless(capacity), evs)
  {
    var s := Oversized(capacity);
    RunFirst(s, Stop, [Consume] + ([Consume] + (Consumes(4) + evs)));
    var t := s.(running := false);
    RunFirst(t, Consume, [Consume] + (Consumes(4) + evs));
    var u := t.(pc := Writing(1));
    assert t.file + t.batch[0] == t.file;
    RunFirst(u, Consume, Consumes(4) + evs);
    var v := u.(newBuff1 := Some([]), batch := [], pc := Head);
    assert Refilled(u) == Some(v);
    assert Drained(v).batch == [[]];
    DrainsAndExits(v, evs);
    assert Exiting(v) == Spareless(capacity);
  }

  /** The next message starts a consumer whose first batch is that one buffer, too few to give
      both spares back: the second assertion about the batch fails. */
  lemma RestartAborts(capacity: nat, long: Contents, msg: Contents)
    requires |msg| < capacity < |long|
    ensures Run(Fresh(capacity), [Start] + ([Consume] + ([Consume] + ([Consume] + ([Store(long)] +
                ([Stop] + ([Consume] + ([Consume] + (Consumes(4) + ([Start] + ([Store(msg)] + Consumes(5)))))))))))) == Crashed
  {
    var last := [Start] + ([Store(msg)] + Consumes(5));
    var middle := [Stop] + ([Consume] + ([Consume] + (Consumes(4) + last)));
    ToIdle(capacity, [Consume] + ([Consume] + ([Store(long)] + middle)));
    ToOversized(capacity, long, middle);
    ToSpareless(capacity, last);
    var s := Spareless(capacity);
    RunFirst(s, Start, [Store(msg)] + Consumes(5));
    RunFirst(Started(s), Store(msg), Consumes(5));
    NoSpareCrashes(Stored(Started(s), msg));
  }
}
