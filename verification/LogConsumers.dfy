/** The file log appender with any number of consumer threads. Two threads that log for the first
    time, or a log between a stop and its join, can start more than one; a start is two steps, the
    look at the flag and the launch. Each consumer takes the steps of LogMachine.Consumed with its
    own local variables. */
module LogConsumers {
  import opened Common
  import opened Buffers
  import opened LogMachine

  /** What one consumer thread has for itself. */
  datatype Consumer = Consumer(newBuff1: Pointer, newBuff2: Pointer, batch: seq<Contents>, pc: Pc)

  /** `starting` threads have seen the flag down and will launch a consumer. `taken` lists all
      buffers that consumers have taken, `written` all that are in the file, each in order. */
  datatype Log = Log(
    capacity: nat,
    curr: Pointer, next: Pointer, buffers: seq<Contents>,
    running: bool, file: Contents,
    consumers: seq<Consumer>, starting: nat,
    accepted: Contents, taken: seq<Contents>, written: seq<Contents>)

  function FreshLog(capacity: nat): Log {
    Log(capacity, Some([]), Some([]), [], false, [], [], 0, [], [], [])
  }

  datatype Action = Put(msg: Contents) | SeeStopped | Launch | Halt | Advance(i: nat)

  const NEW_CONSUMER := Consumer(Some([]), Some([]), [], Entry)

  /** The appender as one consumer sees it. */
  function Seen(s: Log, c: Consumer): State {
    State(s.capacity, s.curr, s.next, s.buffers, s.running, s.file, c.newBuff1, c.newBuff2, c.batch, c.pc, s.accepted, [])
  }

  function OwnPart(t: State): Consumer {
    Consumer(t.newBuff1, t.newBuff2, t.batch, t.pc)
  }

  /** The buffers that a step takes from the shared list. */
  function Taking(c: Consumer, t: State): seq<Contents> {
    if c.pc == ToSwap || c.pc == ToDrain then t.batch else []
  }

  /** The buffer that a step writes. */
  function WritingNow(c: Consumer): seq<Contents> {
    if (c.pc.Writing? || c.pc.LastWriting?) && c.pc.k < |c.batch| then [c.batch[c.pc.k]] else []
  }

  function AfterStep(s: Log, i: nat, t: State): Log
    requires i < |s.consumers|
  {
    var c := s.consumers[i];
    s.(curr := t.curr, next := t.next, buffers := t.buffers, file := t.file,
       consumers := s.consumers[i := OwnPart(t)],
       taken := s.taken + Taking(c, t), written := s.written + WritingNow(c))
  }

  predicate CanHappen(s: Log, a: Action) {
    match a
    case Put(_) => true
    case SeeStopped => !s.running
    case Launch => s.starting > 0
    case Halt => true
    case Advance(i) => i < |s.consumers| && s.consumers[i].pc != NotStarted && s.consumers[i].pc != Exited
  }

  /** The appender after an action, or `None` when the process ends in it. */
  function After(s: Log, a: Action): Option<Log>
    requires CanHappen(s, a)
  {
    match a
    case Put(msg) =>
      if s.curr.Some? then
        var t := Stored(Seen(s, NEW_CONSUMER), msg);
        Some(s.(curr := t.curr, next := t.next, buffers := t.buffers, accepted := t.accepted))
      else None
    case SeeStopped => Some(s.(starting := s.starting + 1))
    case Launch => Some(s.(running := true, starting := s.starting - 1, consumers := s.consumers + [NEW_CONSUMER]))
    case Halt => Some(s.(running := false))
    case Advance(i) =>
      var t := Consumed(Seen(s, s.consumers[i]));
      if t.Some? then Some(AfterStep(s, i, t.value)) else None
  }

  datatype Outcome = Reached(log: Log) | Aborted | NotPossible

  function Runs(s: Log, acts: seq<Action>): Outcome
    decreases |acts|
  {
    if acts == [] then Reached(s)
    else if !CanHappen(s, acts[0]) then NotPossible
    else
      var after := After(s, acts[0]);
      if after.Some? then Runs(after.value, acts[1..]) else Aborted
  }

  // ------------------------------------------------------------------ every buffer exactly once

  /** What one consumer still has to write. */
  function RestOf(c: Consumer): seq<Contents> {
    if (c.pc.Writing? || c.pc.LastWriting?) && c.pc.k <= |c.batch| then c.batch[c.pc.k..] else []
  }

  function Count(buffers: seq<Contents>, b: Contents): nat {
    if buffers == [] then 0
    else Count(buffers[..|buffers| - 1], b) + if buffers[|buffers| - 1] == b then 1 else 0
  }

  /** How often a buffer occurs in what all of them still have to write. */
  function Unwritten(cs: seq<Consumer>, b: Contents): nat {
    if cs == [] then 0 else Unwritten(cs[..|cs| - 1], b) + Count(RestOf(cs[|cs| - 1]), b)
  }

  function WaitingIn(s: Log): seq<Contents> {
    s.buffers + if s.curr.Some? then [s.curr.value] else []
  }

  predicate InShape(c: Consumer) {
    match c.pc
    case NotStarted => false
    case Entry => Spares(c)
    case Head => Spares(c)
    case ToSwap => Spares(c)
    case Writing(k) => k <= |c.batch| && c.batch != [] && c.newBuff1.None? && (c.newBuff2.Some? ==> c.newBuff2.value == [])
    case ToDrain => Spares(c)
    case LastWriting(k) => k <= |c.batch|
    case Exited => true
  }

  predicate Spares(c: Consumer) {
    c.newBuff1 == Some([]) && c.newBuff2 == Some([]) && c.batch == []
  }

  /** The accepted bytes are those of the buffers taken so far, in order, and of what waits. The
      file consists of buffers that were taken, each of them once; the others are still held by
      the consumer that took them. */
  ghost predicate Whole(s: Log) {
    && (s.next.Some? ==> s.next.value == [])
    && (s.curr.Some? ==> |s.curr.value| <= s.capacity)
    && (forall i {:trigger s.consumers[i]} | 0 <= i < |s.consumers| :: InShape(s.consumers[i]))
    && Flattened(s.taken) + Flattened(WaitingIn(s)) == s.accepted
    && s.file == Flattened(s.written)
    && forall b :: Count(s.written, b) + Unwritten(s.consumers, b) == Count(s.taken, b)
  }

  lemma UnwrittenSnoc(cs: seq<Consumer>, c: Consumer, b: Contents)
    ensures Unwritten(cs + [c], b) == Unwritten(cs, b) + Count(RestOf(c), b)
  {
    assert (cs + [c])[..|cs|] == cs;
  }

  lemma {:induction false} UnwrittenUpdate(cs: seq<Consumer>, i: nat, c: Consumer, b: Contents)
    requires i < |cs|
    ensures Unwritten(cs[i := c], b) + Count(RestOf(cs[i]), b) == Unwritten(cs, b) + Count(RestOf(c), b)
    decreases |cs|
  {
    var n := |cs| - 1;
    var last := cs[n];
    assert cs == cs[..n] + [last];
    UnwrittenSnoc(cs[..n], last, b);
    if i == n {
      assert cs[i := c] == cs[..n] + [c];
      UnwrittenSnoc(cs[..n], c, b);
    } else {
      assert cs[i := c] == cs[..n][i := c] + [last];
      UnwrittenSnoc(cs[..n][i := c], last, b);
      UnwrittenUpdate(cs[..n], i, c, b);
    }
  }

  lemma UnwrittenNew(cs: seq<Consumer>, c: Consumer, b: Contents)
    requires RestOf(c) == []
    ensures Unwritten(cs + [c], b) == Unwritten(cs, b)
  {
    UnwrittenSnoc(cs, c, b);
  }

  lemma FreshWhole(capacity: nat)
    ensures Whole(FreshLog(capacity))
  {
    assert WaitingIn(FreshLog(capacity)) == [[]];
    FlattenedOne<Byte>([]);
  }

  lemma PutWhole(s: Log, msg: Contents)
    requires Whole(s) && s.curr.Some?
    ensures Whole(After(s, Put(msg)).value)
  {
    var t := Seen(s, NEW_CONSUMER);
    WaitingMore(t.(running := false, pc := NotStarted), msg);
    var u := After(s, Put(msg)).value;
    assert WaitingIn(u) == Waiting(Stored(t, msg)) && WaitingIn(s) == Waiting(t);
    Regrouped(Flattened(s.taken), Flattened(WaitingIn(s)), Fitting(s.capacity, msg));
  }

  lemma LaunchWhole(s: Log)
    requires Whole(s) && s.starting > 0
    ensures Whole(After(s, Launch).value)
  {
    forall b ensures Unwritten(s.consumers + [NEW_CONSUMER], b) == Unwritten(s.consumers, b) {
      UnwrittenNew(s.consumers, NEW_CONSUMER, b);
    }
    assert WaitingIn(After(s, Launch).value) == WaitingIn(s);
  }

  lemma {:induction false} Counted(x: seq<Contents>, y: seq<Contents>, b: Contents)
    ensures Count(x + y, b) == Count(x, b) + Count(y, b)
    decreases |y|
  {
    if y == [] {
      assert x + y == x;
    } else {
      var n := |y| - 1;
      Counted(x, y[..n], b);
      assert (x + y)[..|x + y| - 1] == x + y[..n];
    }
  }

  /** The buffers change hands: some are taken, one may be written. */
  lemma StepCounts(s: Log, i: nat, c: Consumer, took: seq<Contents>, wrote: seq<Contents>, b: Contents)
    requires i < |s.consumers| && Count(s.written, b) + Unwritten(s.consumers, b) == Count(s.taken, b)
    requires RestOf(s.consumers[i]) + took == wrote + RestOf(c)
    ensures Count(s.written + wrote, b) + Unwritten(s.consumers[i := c], b) == Count(s.taken + took, b)
  {
    UnwrittenUpdate(s.consumers, i, c, b);
    Counted(RestOf(s.consumers[i]), took, b);
    Counted(wrote, RestOf(c), b);
    Counted(s.written, wrote, b);
    Counted(s.taken, took, b);
  }

  /** What a consumer had and takes, it writes or still has. */
  predicate PassedOn(c: Consumer, t: State) {
    RestOf(c) + Taking(c, t) == WritingNow(c) + RestOf(OwnPart(t))
  }

  /** One step of one consumer, seen from the shared buffers. */
  ghost predicate Handed(s: Log, c: Consumer, t: State) {
    && InShape(OwnPart(t))
    && (t.next.Some? ==> t.next.value == [])
    && (t.curr.Some? ==> |t.curr.value| <= s.capacity)
    && PassedOn(c, t)
    && Flattened(Taking(c, t)) + Flattened(Waiting(t)) == Flattened(WaitingIn(s))
    && t.file == s.file + Flattened(WritingNow(c))
  }

  lemma SwapHanded(s: Log, c: Consumer)
    requires Whole(s) && InShape(c) && c.pc == ToSwap && s.curr.Some?
    ensures Handed(s, c, Consumed(Seen(s, c)).value)
  {
    var t := Consumed(Seen(s, c)).value;
    assert Waiting(t) == [[]] && t.batch == WaitingIn(s);
    FlattenedOne<Byte>([]);
  }

  lemma DrainHanded(s: Log, c: Consumer)
    requires Whole(s) && InShape(c) && c.pc == ToDrain
    ensures Handed(s, c, Consumed(Seen(s, c)).value)
  {
    var t := Consumed(Seen(s, c)).value;
    assert t.batch == s.buffers + IfFilled(s.curr);
    FlattenedOne<Byte>([]);
    if s.curr == Some([]) {
      FlattenedSnoc(s.buffers, []);
      assert t.batch == s.buffers && Waiting(t) == [[]];
    } else {
      assert t.batch == WaitingIn(s) && Waiting(t) == [];
    }
  }

  lemma WriteHanded(s: Log, c: Consumer)
    requires Whole(s) && InShape(c) && WritingNow(c) != []
    ensures Handed(s, c, Consumed(Seen(s, c)).value)
  {
    var t := Consumed(Seen(s, c)).value;
    FlattenedOne(c.batch[c.pc.k]);
    FirstAndRest(c.batch, c.pc.k);
  }

  lemma FirstAndRest(batch: seq<Contents>, k: nat)
    requires k < |batch|
    ensures batch[k..] == [batch[k]] + batch[k + 1..]
  {
  }

  lemma WrittenHanded(s: Log, c: Consumer)
    requires Whole(s) && InShape(c) && (c.pc.Writing? || c.pc.LastWriting?) && WritingNow(c) == []
    requires Consumed(Seen(s, c)).Some?
    ensures Handed(s, c, Consumed(Seen(s, c)).value)
  {
  }

  lemma ConsumeHanded(s: Log, c: Consumer)
    requires Whole(s) && InShape(c) && Consumed(Seen(s, c)).Some?
    ensures Handed(s, c, Consumed(Seen(s, c)).value)
  {
    match c.pc
    case ToSwap => SwapHanded(s, c);
    case ToDrain => DrainHanded(s, c);
    case Writing(_) => if WritingNow(c) != [] { WriteHanded(s, c); } else { WrittenHanded(s, c); }
    case LastWriting(_) => if WritingNow(c) != [] { WriteHanded(s, c); } else { WrittenHanded(s, c); }
    case _ =>
  }

  lemma ConsumeWhole(s: Log, i: nat)
    requires Whole(s) && CanHappen(s, Advance(i)) && After(s, Advance(i)).Some?
    ensures Whole(After(s, Advance(i)).value)
  {
    var c := s.consumers[i];
    var t := Consumed(Seen(s, c)).value;
    ConsumeHanded(s, c);
    forall b
      ensures Count(s.written + WritingNow(c), b) + Unwritten(s.consumers[i := OwnPart(t)], b) == Count(s.taken + Taking(c, t), b)
    {
      StepCounts(s, i, OwnPart(t), Taking(c, t), WritingNow(c), b);
    }
    FlattenedTwo(s.taken, Taking(c, t));
    FlattenedTwo(s.written, WritingNow(c));
    Regrouped(Flattened(s.taken), Flattened(Taking(c, t)), Flattened(Waiting(t)));
    assert WaitingIn(AfterStep(s, i, t)) == Waiting(t);
  }

  /** Every action that does not end the process keeps every buffer whole and in one place. */
  lemma StepWhole(s: Log, a: Action)
    requires Whole(s) && CanHappen(s, a) && After(s, a).Some?
    ensures Whole(After(s, a).value)
  {
    match a
    case Put(msg) => PutWhole(s, msg);
    case Launch => LaunchWhole(s);
    case Advance(i) => ConsumeWhole(s, i);
    case _ => assert WaitingIn(After(s, a).value) == WaitingIn(s);
  }

  lemma {:induction false} RunsWhole(s: Log, acts: seq<Action>)
    requires Whole(s)
    ensures Runs(s, acts).Reached? ==> Whole(Runs(s, acts).log)
    decreases |acts|
  {
    if Runs(s, acts).Reached? && acts != [] {
      StepWhole(s, acts[0]);
      RunsWhole(After(s, acts[0]).value, acts[1..]);
    }
  }

  /** With any number of consumers, in every state of every run: the accepted messages are, in
      order, the buffers that were taken and those that wait; and the file is made of buffers
      that were taken, whole, each once, the missing ones being still in a consumer's hand. */
  lemma NothingLostWithMany(capacity: nat, acts: seq<Action>)
    requires Runs(FreshLog(capacity), acts).Reached?
    ensures var s := Runs(FreshLog(capacity), acts).log;
      && Flattened(s.taken + WaitingIn(s)) == s.accepted
      && s.file == Flattened(s.written)
      && forall b :: Count(s.written, b) + Unwritten(s.consumers, b) == Count(s.taken, b)
  {
    FreshWhole(capacity);
    RunsWhole(FreshLog(capacity), acts);
    var s := Runs(FreshLog(capacity), acts).log;
    FlattenedTwo(s.taken, WaitingIn(s));
  }

  // ------------------------------------------------------------------ when the order is kept

  /** A batch is taken only when no consumer has anything left to write. */
  predicate OneAtATime(s: Log, acts: seq<Action>)
    decreases |acts|
  {
    acts != [] && CanHappen(s, acts[0]) ==>
      && (Takes(s, acts[0]) ==> forall c | c in s.consumers :: RestOf(c) == [])
      && (After(s, acts[0]).Some? ==> OneAtATime(After(s, acts[0]).value, acts[1..]))
  }

  predicate Takes(s: Log, a: Action) {
    a.Advance? && a.i < |s.consumers| && (s.consumers[a.i].pc == ToSwap || s.consumers[a.i].pc == ToDrain)
  }

  function RestAt(cs: seq<Consumer>, j: nat): seq<Contents> {
    if j < |cs| then RestOf(cs[j]) else []
  }

  ghost predicate OnlyRest(cs: seq<Consumer>, j: nat) {
    forall i {:trigger cs[i]} | 0 <= i < |cs| && i != j :: RestOf(cs[i]) == []
  }

  lemma OnlyRestUpdate(cs: seq<Consumer>, j: nat, i: nat, c: Consumer)
    requires OnlyRest(cs, j) && i < |cs| && (i != j ==> RestOf(c) == [])
    ensures OnlyRest(cs[i := c], j) && RestAt(cs[i := c], j) == if i == j then RestOf(c) else RestAt(cs, j)
  {
  }

  /** Only consumer `j` has something left, and that is next in order. */
  ghost predicate InOrder(s: Log, j: nat) {
    OnlyRest(s.consumers, j) && s.written + RestAt(s.consumers, j) == s.taken
  }

  /** The consumer whose buffers come next: it stays, or another one takes when nothing is left. */
  function NextInLine(s: Log, a: Action, j: nat): nat {
    if Takes(s, a) then a.i else j
  }

  lemma StepInOrder(s: Log, a: Action, j: nat)
    requires Whole(s) && InOrder(s, j) && CanHappen(s, a) && After(s, a).Some?
    requires Takes(s, a) ==> forall c | c in s.consumers :: RestOf(c) == []
    ensures InOrder(After(s, a).value, NextInLine(s, a, j))
  {
    if a.Advance? {
      var c := s.consumers[a.i];
      var t := Consumed(Seen(s, c)).value;
      ConsumeHanded(s, c);
      if Takes(s, a) {
        TakeInOrder(s, a.i, j, t);
      } else {
        WriteInOrder(s, a.i, j, t);
      }
    } else if a.Launch? {
      assert RestOf(NEW_CONSUMER) == [];
    }
  }

  lemma TakeInOrder(s: Log, i: nat, j: nat, t: State)
    requires i < |s.consumers| && InOrder(s, j) && Takes(s, Advance(i))
    requires forall c | c in s.consumers :: RestOf(c) == []
    requires PassedOn(s.consumers[i], t)
    ensures InOrder(AfterStep(s, i, t), i)
  {
    var c, d := s.consumers[i], OwnPart(t);
    assert c in s.consumers && WritingNow(c) == [];
    assert j < |s.consumers| ==> s.consumers[j] in s.consumers;
    Moved([], [], RestOf(d), Taking(c, t));
    NothingLeft(s.consumers, i);
    OnlyRestUpdate(s.consumers, i, i, d);
    assert s.written + [] == s.written;
  }

  lemma NothingLeft(cs: seq<Consumer>, j: nat)
    requires forall c | c in cs :: RestOf(c) == []
    ensures OnlyRest(cs, j)
  {
    forall i | 0 <= i < |cs| ensures RestOf(cs[i]) == [] {
      assert cs[i] in cs;
    }
  }

  lemma WriteInOrder(s: Log, i: nat, j: nat, t: State)
    requires i < |s.consumers| && InOrder(s, j) && !Takes(s, Advance(i))
    requires PassedOn(s.consumers[i], t)
    ensures InOrder(AfterStep(s, i, t), j)
  {
    var c, d := s.consumers[i], OwnPart(t);
    Moved(if i == j then s.written else [], WritingNow(c), RestOf(d), RestOf(c));
    OnlyRestUpdate(s.consumers, j, i, d);
    assert s.taken + [] == s.taken && s.written + [] == s.written;
  }

  lemma Moved(written: seq<Contents>, wrote: seq<Contents>, rest: seq<Contents>, before: seq<Contents>)
    requires before + [] == wrote + rest
    ensures written + wrote + rest == written + before
    ensures before == [] ==> wrote == [] && rest == []
  {
    Regrouped(written, wrote, rest);
    assert before + [] == before;
    assert |before| == |wrote| + |rest|;
  }

  lemma {:induction false} RunsInOrder(s: Log, acts: seq<Action>, j: nat) returns (last: nat)
    requires Whole(s) && InOrder(s, j) && OneAtATime(s, acts) && Runs(s, acts).Reached?
    ensures InOrder(Runs(s, acts).log, last)
    decreases |acts|
  {
    last := j;
    if acts != [] {
      StepWhole(s, acts[0]);
      StepInOrder(s, acts[0], j);
      last := RunsInOrder(After(s, acts[0]).value, acts[1..], NextInLine(s, acts[0], j));
    }
  }

  /** If batches are taken one at a time, the file is a beginning of what was accepted, however
      many consumers there are. */
  lemma OrderKeptOneAtATime(capacity: nat, acts: seq<Action>)
    requires Runs(FreshLog(capacity), acts).Reached? && OneAtATime(FreshLog(capacity), acts)
    ensures Runs(FreshLog(capacity), acts).log.file <= Runs(FreshLog(capacity), acts).log.accepted
  {
    var s := Runs(FreshLog(capacity), acts).log;
    FreshWhole(capacity);
    RunsWhole(FreshLog(capacity), acts);
    var j := RunsInOrder(FreshLog(capacity), acts, 0);
    var rest := RestAt(s.consumers, j);
    FlattenedTwo(s.written, rest);
    Regrouped(Flattened(s.written), Flattened(rest), Flattened(WaitingIn(s)));
  }

  lemma {:induction false} UnwrittenAtLeast(cs: seq<Consumer>, j: nat, b: Contents)
    requires j < |cs|
    ensures Unwritten(cs, b) >= Count(RestOf(cs[j]), b)
    decreases |cs|
  {
    if j < |cs| - 1 {
      UnwrittenAtLeast(cs[..|cs| - 1], j, b);
    }
  }

  lemma SomeUnwritten(s: Log, j: nat)
    requires Whole(s) && s.written <= s.taken && j < |s.consumers| && RestOf(s.consumers[j]) != []
    ensures |s.written| < |s.taken|
  {
    var rest := RestOf(s.consumers[j]);
    var b := rest[|rest| - 1];
    UnwrittenAtLeast(s.consumers, j, b);
    assert Count(s.written, b) + Unwritten(s.consumers, b) == Count(s.taken, b);
    assert Count(rest, b) > 0;
    assert s.written == s.taken || |s.written| < |s.taken|;
  }

  /** And if one takes a batch while another has buffers left, and then writes first, the order is
      lost, unless its buffer happens to look like the one whose turn it is. */
  lemma OverlapLosesOrder(s: Log, i: nat, j: nat)
    requires Whole(s) && s.written <= s.taken && Takes(s, Advance(i)) && CanHappen(s, Advance(i))
    requires j < |s.consumers| && RestOf(s.consumers[j]) != []
    requires After(s, Advance(i)).Some? && After(s, Advance(i)).value.consumers[i].batch != []
    ensures |s.written| < |s.taken|
    ensures var t := After(s, Advance(i)).value;
      && CanHappen(t, Advance(i)) && After(t, Advance(i)).Some?
      && var u := After(t, Advance(i)).value;
         u.written <= u.taken <==> s.taken[|s.written|] == t.consumers[i].batch[0]
  {
    SomeUnwritten(s, j);
    var c := s.consumers[i];
    var t := After(s, Advance(i)).value;
    TakesAll(s, i);
    var first := t.consumers[i].batch[0];
    assert t.written + [first] <= t.taken <==> t.taken[|t.written|] == first;
    WritesFirst(t, i);
  }

  lemma TakesAll(s: Log, i: nat)
    requires Whole(s) && Takes(s, Advance(i)) && CanHappen(s, Advance(i)) && After(s, Advance(i)).Some?
    ensures var t := After(s, Advance(i)).value;
      && t.written == s.written && t.taken == s.taken + t.consumers[i].batch
      && (t.consumers[i].pc == Writing(0) || t.consumers[i].pc == LastWriting(0))
  {
  }

  lemma WritesFirst(t: Log, i: nat)
    requires i < |t.consumers| && (t.consumers[i].pc == Writing(0) || t.consumers[i].pc == LastWriting(0))
    requires t.consumers[i].batch != []
    ensures CanHappen(t, Advance(i)) && After(t, Advance(i)).Some?
    ensures After(t, Advance(i)).value.written == t.written + [t.consumers[i].batch[0]]
    ensures After(t, Advance(i)).value.taken == t.taken
  {
  }

  // ------------------------------------------------------------------ when the process survives

  predicate ReadyFor(s: Log) {
    s.curr.Some? && (s.next.None? ==> s.buffers != [])
  }

  predicate SafeConsumer(c: Consumer, running: bool) {
    (c.pc == Entry ==> running) && (c.pc.Writing? && c.newBuff2.None? ==> |c.batch| >= 2)
  }

  ghost predicate SafeLog(s: Log) {
    Whole(s) && forall i {:trigger s.consumers[i]} | 0 <= i < |s.consumers| :: SafeConsumer(s.consumers[i], s.running)
  }

  /** What has to be seen to: nothing is stored without a current buffer, no consumer swaps buffers
      that are not ready, and none is stopped before it has entered its loop. */
  predicate CarefulAction(s: Log, a: Action) {
    match a
    case Put(_) => s.curr.Some?
    case Halt => forall c | c in s.consumers :: c.pc != Entry
    case Advance(i) => i < |s.consumers| && s.consumers[i].pc == ToSwap ==> ReadyFor(s)
    case _ => true
  }

  lemma SafeAdvance(s: Log, i: nat)
    requires SafeLog(s) && CanHappen(s, Advance(i)) && CarefulAction(s, Advance(i))
    ensures Consumed(Seen(s, s.consumers[i])).Some?
    ensures SafeConsumer(OwnPart(Consumed(Seen(s, s.consumers[i])).value), s.running)
  {
    var c := s.consumers[i];
    assert InShape(c) && SafeConsumer(c, s.running);
  }

  lemma SafeAction(s: Log, a: Action)
    requires SafeLog(s) && CanHappen(s, a) && CarefulAction(s, a)
    ensures After(s, a).Some? && SafeLog(After(s, a).value)
  {
    if a.Advance? {
      SafeAdvance(s, a.i);
    }
    StepWhole(s, a);
    var t := After(s, a).value;
    forall i | 0 <= i < |t.consumers| ensures SafeConsumer(t.consumers[i], t.running) {
      assert i < |s.consumers| ==> SafeConsumer(s.consumers[i], s.running) && s.consumers[i] in s.consumers;
    }
  }

  /** Without a stop: all consumers are in their loops, and the shared buffers are ready. */
  ghost predicate Unstopped(s: Log) {
    && ReadyFor(s) && (s.consumers != [] ==> s.running)
    && forall i {:trigger s.consumers[i]} | 0 <= i < |s.consumers| :: InLoop(s.consumers[i])
  }

  predicate InLoop(c: Consumer) {
    c.pc == Entry || c.pc == Head || c.pc == ToSwap || c.pc.Writing?
  }

  lemma UnstoppedAction(s: Log, a: Action)
    requires SafeLog(s) && Unstopped(s) && CanHappen(s, a) && !a.Halt?
    ensures CarefulAction(s, a) && After(s, a).Some? && Unstopped(After(s, a).value)
  {
    SafeAction(s, a);
    if a.Advance? {
      UnstoppedAdvance(s, a.i);
    }
  }

  lemma UnstoppedAdvance(s: Log, i: nat)
    requires SafeLog(s) && Unstopped(s) && CanHappen(s, Advance(i)) && After(s, Advance(i)).Some?
    ensures Unstopped(After(s, Advance(i)).value)
  {
    var c := s.consumers[i];
    assert InShape(c) && InLoop(c);
    var t := Consumed(Seen(s, c)).value;
    assert InLoop(OwnPart(t)) && t.curr.Some? && (t.next.None? ==> t.buffers != []);
  }

  /** However many consumers there are and however they interleave, no assertion fails and no null
      is dereferenced as long as the appender is not stopped. */
  lemma {:induction false} UnstoppedSurvives(s: Log, acts: seq<Action>)
    requires SafeLog(s) && Unstopped(s) && Halt !in acts
    ensures Runs(s, acts) != Aborted
    decreases |acts|
  {
    if acts != [] && CanHappen(s, acts[0]) {
      assert acts[0] in acts;
      UnstoppedAction(s, acts[0]);
      SafeAction(s, acts[0]);
      UnstoppedSurvives(After(s, acts[0]).value, acts[1..]);
    }
  }

  lemma ManyConsumersSurvive(capacity: nat, acts: seq<Action>)
    requires Halt !in acts
    ensures Runs(FreshLog(capacity), acts) != Aborted
  {
    FreshWhole(capacity);
    UnstoppedSurvives(FreshLog(capacity), acts);
  }

  /** Every action of the run is careful when its turn comes. */
  predicate CarefulActions(s: Log, acts: seq<Action>)
    decreases |acts|
  {
    acts != [] && CanHappen(s, acts[0]) ==>
      CarefulAction(s, acts[0]) && (After(s, acts[0]).Some? ==> CarefulActions(After(s, acts[0]).value, acts[1..]))
  }

  lemma {:induction false} CarefulActionsSurvive(s: Log, acts: seq<Action>)
    requires SafeLog(s) && CarefulActions(s, acts)
    ensures Runs(s, acts) != Aborted
    decreases |acts|
  {
    if acts != [] && CanHappen(s, acts[0]) {
      SafeAction(s, acts[0]);
      CarefulActionsSurvive(After(s, acts[0]).value, acts[1..]);
    }
  }

  function Advances(i: nat, n: nat): seq<Action> {
    if n == 0 then [] else [Advance(i)] + Advances(i, n - 1)
  }

  lemma RunsFirst(s: Log, a: Action, acts: seq<Action>)
    requires CanHappen(s, a)
    ensures Runs(s, [a] + acts) == if After(s, a).Some? then Runs(After(s, a).value, acts) else Aborted
  {
    assert ([a] + acts)[1..] == acts;
  }

  lemma RunsAdvance(s: Log, i: nat, n: nat)
    requires CanHappen(s, Advance(i)) && n > 0
    ensures Runs(s, Advances(i, n)) ==
      if After(s, Advance(i)).Some? then Runs(After(s, Advance(i)).value, Advances(i, n - 1)) else Aborted
  {
    RunsFirst(s, Advance(i), Advances(i, n - 1));
  }

  /** After an action that is not careful some consumer, left alone, ends the process. */
  lemma CarelessAborts(s: Log, a: Action) returns (i: nat, n: nat)
    requires SafeLog(s) && CanHappen(s, a) && !CarefulAction(s, a)
    ensures Runs(s, [a] + Advances(i, n)) == Aborted
  {
    match a
    case Put(_) =>
      i, n := 0, 0;
      RunsFirst(s, a, Advances(i, n));
    case Halt =>
      var c :| c in s.consumers && c.pc == Entry;
      i :| i < |s.consumers| && s.consumers[i] == c;
      n := 1;
      RunsFirst(s, a, Advances(i, n));
      RunsAdvance(s.(running := false), i, 1);
    case Advance(j) =>
      i, n := j, 2;
      RunsFirst(s, a, Advances(i, n));
      if s.curr.Some? {
        TooFewBuffers(s, i);
      }
  }

  /** A consumer that gives both its spare buffers away for a batch of one gets only one back. */
  lemma TooFewBuffers(s: Log, i: nat)
    requires Whole(s) && i < |s.consumers| && s.consumers[i].pc == ToSwap
    requires s.curr.Some? && s.next.None? && s.buffers == []
    ensures After(s, Advance(i)).Some? && Runs(After(s, Advance(i)).value, Advances(i, 2)) == Aborted
  {
    assert InShape(s.consumers[i]);
    var t := After(s, Advance(i)).value;
    var c := Consumer(None, None, [s.curr.value], Writing(0));
    assert t.consumers[i] == c;
    RunsAdvance(t, i, 2);
    var u := After(t, Advance(i)).value;
    assert u.consumers[i] == c.(pc := Writing(1));
    assert FirstOf(c.batch, 2) == c.batch;
    RunsAdvance(u, i, 1);
  }

  // ------------------------------------------------------------------ two consumers

  /** A consumer that is in its loop and has just looked at the flag. */
  const LOOPING := NEW_CONSUMER.(pc := ToSwap)

  /** Two consumers in their loops, and nothing stored yet. */
  function Both(capacity: nat): Log {
    FreshLog(capacity).(running := true, consumers := [LOOPING, LOOPING])
  }

  function Racing(capacity: nat, running: bool, starting: nat, consumers: seq<Consumer>): Log {
    FreshLog(capacity).(running := running, starting := starting, consumers := consumers)
  }

  lemma TwoLooks(capacity: nat, acts: seq<Action>)
    ensures Runs(FreshLog(capacity), [SeeStopped] + ([SeeStopped] + acts)) == Runs(Racing(capacity, false, 2, []), acts)
  {
    RunsFirst(FreshLog(capacity), SeeStopped, [SeeStopped] + acts);
    RunsFirst(Racing(capacity, false, 1, []), SeeStopped, acts);
  }

  lemma TwoLaunches(capacity: nat, acts: seq<Action>)
    ensures Runs(Racing(capacity, false, 2, []), [Launch] + ([Launch] + acts)) ==
      Runs(Racing(capacity, true, 0, [NEW_CONSUMER, NEW_CONSUMER]), acts)
  {
    RunsFirst(Racing(capacity, false, 2, []), Launch, [Launch] + acts);
    assert [] + [NEW_CONSUMER] == [NEW_CONSUMER];
    RunsFirst(Racing(capacity, true, 1, [NEW_CONSUMER]), Launch, acts);
    assert [NEW_CONSUMER] + [NEW_CONSUMER] == [NEW_CONSUMER, NEW_CONSUMER];
  }

  /** Two threads log for the first time, and both see that no consumer is running. */
  lemma TwoStarts(capacity: nat, acts: seq<Action>)
    ensures Runs(FreshLog(capacity), [SeeStopped] + ([SeeStopped] + ([Launch] + ([Launch] + acts)))) ==
      Runs(Racing(capacity, true, 0, [NEW_CONSUMER, NEW_CONSUMER]), acts)
  {
    var launches := [Launch] + ([Launch] + acts);
    TwoLooks(capacity, launches);
    TwoLaunches(capacity, acts);
  }

  lemma EntersLoop(s: Log, i: nat, acts: seq<Action>)
    requires i < |s.consumers| && s.consumers[i] == NEW_CONSUMER && s.running
    ensures Runs(s, [Advance(i)] + ([Advance(i)] + acts)) == Runs(s.(consumers := s.consumers[i := LOOPING]), acts)
  {
    RunsFirst(s, Advance(i), [Advance(i)] + acts);
    var t := s.(consumers := s.consumers[i := NEW_CONSUMER.(pc := Head)]);
    assert After(s, Advance(i)) == Some(t) by {
      assert s.taken + [] == s.taken && s.written + [] == s.written;
    }
    RunsFirst(t, Advance(i), acts);
    assert t.consumers[i := LOOPING] == s.consumers[i := LOOPING];
    assert t.taken + [] == t.taken && t.written + [] == t.written;
  }

  lemma ToBoth(capacity: nat, acts: seq<Action>)
    ensures Runs(FreshLog(capacity), [SeeStopped] + ([SeeStopped] + ([Launch] + ([Launch] +
              ([Advance(0)] + ([Advance(0)] + ([Advance(1)] + ([Advance(1)] + acts)))))))) == Runs(Both(capacity), acts)
  {
    var last := [Advance(1)] + ([Advance(1)] + acts);
    TwoStarts(capacity, [Advance(0)] + ([Advance(0)] + last));
    EntersLoop(Racing(capacity, true, 0, [NEW_CONSUMER, NEW_CONSUMER]), 0, last);
    assert [NEW_CONSUMER, NEW_CONSUMER][0 := LOOPING] == [LOOPING, NEW_CONSUMER];
    EntersLoop(Racing(capacity, true, 0, [LOOPING, NEW_CONSUMER]), 1, acts);
    assert [LOOPING, NEW_CONSUMER][1 := LOOPING] == [LOOPING, LOOPING];
  }

  /** A consumer that has taken one buffer. */
  function Holding(buffer: Contents, written: nat): Consumer {
    Consumer(None, Some([]), [buffer], Writing(written))
  }

  /** Each consumer has taken one message. */
  function BothHold(capacity: nat, a: Contents, b: Contents): Log {
    Both(capacity).(consumers := [Holding(a, 0), Holding(b, 0)], accepted := a + b, taken := [a, b])
  }

  lemma TakesMessage(s: Log, i: nat, msg: Contents, acts: seq<Action>)
    requires i < |s.consumers| && s.consumers[i] == LOOPING && |msg| < s.capacity
    requires s.curr == Some([]) && s.next == Some([]) && s.buffers == []
    ensures Runs(s, [Put(msg)] + ([Advance(i)] + acts)) ==
      Runs(s.(consumers := s.consumers[i := Holding(msg, 0)], accepted := s.accepted + msg, taken := s.taken + [msg]), acts)
  {
    RunsFirst(s, Put(msg), [Advance(i)] + acts);
    assert [] + msg == msg;
    var t := s.(curr := Some(msg), accepted := s.accepted + msg);
    assert After(s, Put(msg)) == Some(t);
    RunsFirst(t, Advance(i), acts);
    assert [] + [msg] == [msg] && t.written + [] == t.written;
  }

  lemma WritesMessage(s: Log, i: nat, msg: Contents)
    requires i < |s.consumers| && s.consumers[i] == Holding(msg, 0)
    ensures After(s, Advance(i)) ==
      Some(s.(consumers := s.consumers[i := Holding(msg, 1)], file := s.file + msg, written := s.written + [msg]))
  {
    assert s.taken + [] == s.taken;
  }

  lemma ToBothHold(capacity: nat, a: Contents, b: Contents, acts: seq<Action>)
    requires |a| < capacity && |b| < capacity
    ensures Runs(Both(capacity), [Put(a)] + ([Advance(0)] + ([Put(b)] + ([Advance(1)] + acts)))) == Runs(BothHold(capacity, a, b), acts)
  {
    var s := Both(capacity);
    TakesMessage(s, 0, a, [Put(b)] + ([Advance(1)] + acts));
    assert [] + a == a && [] + [a] == [a] && [a] + [b] == [a, b];
    assert s.consumers[0 := Holding(a, 0)] == [Holding(a, 0), LOOPING];
    TakesMessage(s.(consumers := [Holding(a, 0), LOOPING], accepted := a, taken := [a]), 1, b, acts);
    assert [Holding(a, 0), LOOPING][1 := Holding(b, 0)] == [Holding(a, 0), Holding(b, 0)];
  }

  /** The order can be lost: each of two consumers takes one message, and the second message is
      written first. */
  lemma OrderLost(capacity: nat, a: Contents, b: Contents) returns (acts: seq<Action>)
    requires |a| < capacity && |b| < capacity
    ensures var r := Runs(FreshLog(capacity), acts);
      r.Reached? && r.log.accepted == a + b && r.log.file == b + a
  {
    var last := [Advance(1)] + ([Advance(0)] + []);
    var middle := [Put(a)] + ([Advance(0)] + ([Put(b)] + ([Advance(1)] + last)));
    acts := [SeeStopped] + ([SeeStopped] + ([Launch] + ([Launch] +
              ([Advance(0)] + ([Advance(0)] + ([Advance(1)] + ([Advance(1)] + middle)))))));
    ToBoth(capacity, middle);
    ToBothHold(capacity, a, b, last);
    WrittenBackwards(capacity, a, b);
  }

  lemma WrittenBackwards(capacity: nat, a: Contents, b: Contents)
    ensures var r := Runs(BothHold(capacity, a, b), [Advance(1)] + ([Advance(0)] + []));
      r.Reached? && r.log.accepted == a + b && r.log.file == b + a
  {
    var s := BothHold(capacity, a, b);
    WritesMessage(s, 1, b);
    RunsFirst(s, Advance(1), [Advance(0)] + []);
    var t := After(s, Advance(1)).value;
    WritesMessage(t, 0, a);
    RunsFirst(t, Advance(0), []);
    assert [] + b == b;
  }

  /** One consumer is at the loop condition, the other behind it. */
  function OneBehind(capacity: nat): Log {
    Racing(capacity, true, 0, [NEW_CONSUMER.(pc := Head), LOOPING])
  }

  lemma ToOneBehind(capacity: nat, acts: seq<Action>)
    ensures Runs(FreshLog(capacity), [SeeStopped] + ([SeeStopped] + ([Launch] + ([Launch] +
              ([Advance(0)] + ([Advance(1)] + ([Advance(1)] + acts))))))) == Runs(OneBehind(capacity), acts)
  {
    var last := [Advance(1)] + ([Advance(1)] + acts);
    TwoStarts(capacity, [Advance(0)] + last);
    var s := Racing(capacity, true, 0, [NEW_CONSUMER, NEW_CONSUMER]);
    RunsFirst(s, Advance(0), last);
    var t := Racing(capacity, true, 0, [NEW_CONSUMER.(pc := Head), NEW_CONSUMER]);
    assert After(s, Advance(0)) == Some(t) by {
      assert [NEW_CONSUMER, NEW_CONSUMER][0 := NEW_CONSUMER.(pc := Head)] == t.consumers;
    }
    EntersLoop(t, 1, acts);
    assert t.consumers[1 := LOOPING] == [NEW_CONSUMER.(pc := Head), LOOPING];
  }

  /** With two consumers a stop alone can end the process: one of them drains the current buffer,
      the other is already behind the loop condition and finds none. */
  lemma HaltAborts(capacity: nat, msg: Contents) returns (acts: seq<Action>)
    requires 0 < |msg| < capacity
    ensures Runs(FreshLog(capacity), acts + [Halt] + (Advances(0, 2) + Advances(1, 1))) == Aborted
    ensures Halt !in acts && Put(msg) in acts && acts[|acts| - 1] == Put(msg)
  {
    acts := [SeeStopped, SeeStopped, Launch, Launch, Advance(0), Advance(1), Advance(1), Put(msg)];
    var last := [Halt] + ([Advance(0)] + ([Advance(0)] + ([Advance(1)] + [])));
    assert acts + [Halt] + (Advances(0, 2) + Advances(1, 1)) ==
      [SeeStopped] + ([SeeStopped] + ([Launch] + ([Launch] + ([Advance(0)] + ([Advance(1)] + ([Advance(1)] + ([Put(msg)] + last))))))) by {
      assert Advances(0, 2) == [Advance(0), Advance(0)] && Advances(1, 1) == [Advance(1)];
    }
    ToOneBehind(capacity, [Put(msg)] + last);
    DrainedBefore(capacity, msg);
  }

  lemma DrainedBefore(capacity: nat, msg: Contents)
    requires 0 < |msg| < capacity
    ensures Runs(OneBehind(capacity), [Put(msg)] + ([Halt] + ([Advance(0)] + ([Advance(0)] + ([Advance(1)] + []))))) == Aborted
  {
    var s := OneBehind(capacity);
    RunsFirst(s, Put(msg), [Halt] + ([Advance(0)] + ([Advance(0)] + ([Advance(1)] + []))));
    var t := After(s, Put(msg)).value;
    RunsFirst(t, Halt, [Advance(0)] + ([Advance(0)] + ([Advance(1)] + [])));
    var u := After(t, Halt).value;
    RunsFirst(u, Advance(0), [Advance(0)] + ([Advance(1)] + []));
    var v := After(u, Advance(0)).value;
    RunsFirst(v, Advance(0), [Advance(1)] + []);
    var w := After(v, Advance(0)).value;
    assert w.curr == None && w.consumers[1] == LOOPING;
    RunsFirst(w, Advance(1), []);
  }
}
