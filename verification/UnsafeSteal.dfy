/** What happens when a steal takes a task that is between its Suspend and its Yield: another
    processor can come to run it as well. */
module UnsafeSteals {
  import opened Common
  import opened ProcessorMachine
  import opened Cluster

  /** Some careful run leads from `s` to `r`. */
  ghost predicate LeadsTo(s: Sys, r: Sys) {
    exists evs :: CarefulRun(s, evs) && Run(s, evs) == Some(r)
  }

  lemma LeadsToSelf(s: Sys)
    ensures LeadsTo(s, s)
  {
    assert CarefulRun(s, []) && Run(s, []) == Some(s);
  }

  lemma LeadsToNext(s: Sys, q: Sys, ev: SysEvent)
    requires LeadsTo(s, q) && CanHappen(q, ev) && Careful(q, ev)
    ensures LeadsTo(s, Next(q, ev))
  {
    var evs :| CarefulRun(s, evs) && Run(s, evs) == Some(q);
    assert (evs + [ev])[..|evs|] == evs;
    assert Run(s, evs + [ev]) == Some(Next(q, ev));
    assert CarefulRun(s, evs + [ev]);
  }

  lemma LeadsToInv(s: Sys, r: Sys)
    requires SysInv(s) && LeadsTo(s, r)
    ensures SysInv(r)
  {
    var evs :| CarefulRun(s, evs) && Run(s, evs) == Some(r);
    RunKeepsInv(s, evs);
  }

  /** The two systems differ at most in processor `j`, and the hand has only grown. */
  ghost predicate Beside(q: Sys, r: Sys, j: nat) {
    && |r.procs| == |q.procs| && q.hand <= r.hand
    && forall k | 0 <= k < |q.procs| && k != j :: r.procs[k] == q.procs[k]
  }

  lemma BesideTwice(q: Sys, r: Sys, t: Sys, j: nat)
    requires Beside(q, r, j) && Beside(r, t, j)
    ensures Beside(q, t, j)
  {
  }

  // ------------------------------------------------------------------ clearing a processor

  /** Which slots of the processor are filled. */
  predicate Slots(p: Proc) {
    && (HasRunning(p.pc) ==> p.running.Some?)
    && (p.running.Some? ==> HasRunning(p.pc) || p.pc == Dispatch)
    && (p.next.Some? ==> Window(p))
  }

  /** One event of the processor itself. */
  lemma ActLocally(s: Sys, q: Sys, j: nat, e: Event) returns (r: Sys)
    requires LeadsTo(s, q) && j < |q.procs| && Internal(e) && Enabled(q.procs[j], e)
    ensures LeadsTo(s, r) && Beside(q, r, j) && r.hand == q.hand && r.procs[j] == Step(q.procs[j], e)
  {
    LeadsToNext(s, q, Local(j, e));
    r := Next(q, Local(j, e));
  }

  lemma Released(p: Proc)
    requires Slots(p)
    ensures p.pc == Suspended ==> Slots(Step(p, TaskParks)) && Step(p, TaskParks).pc == Parked
    ensures p.pc == Parked ==> Slots(DispatcherStep(p)) && !Window(DispatcherStep(p))
  {
  }

  lemma ReleaseAlias(s: Sys, q: Sys, j: nat) returns (r: Sys)
    requires LeadsTo(s, q) && j < |q.procs| && Slots(q.procs[j]) && q.procs[j].pc == Parked
    ensures LeadsTo(s, r) && Beside(q, r, j) && Slots(r.procs[j]) && !Window(r.procs[j])
  {
    Released(q.procs[j]);
    r := ActLocally(s, q, j, Tick);
  }

  /** The coroutine of processor `j` yields if it has suspended itself. */
  lemma LeaveWindow(s: Sys, q: Sys, j: nat) returns (r: Sys)
    requires LeadsTo(s, q) && j < |q.procs| && Slots(q.procs[j])
    ensures LeadsTo(s, r) && Beside(q, r, j) && Slots(r.procs[j]) && !Window(r.procs[j])
  {
    Released(q.procs[j]);
    if q.procs[j].pc == Suspended {
      var a := ActLocally(s, q, j, TaskParks);
      r := ReleaseAlias(s, a, j);
      BesideTwice(q, a, r, j);
    } else if q.procs[j].pc == Parked {
      r := ReleaseAlias(s, q, j);
    } else {
      r := q;
    }
  }

  lemma StealNewAway(s: Sys, q: Sys, j: nat) returns (r: Sys)
    requires LeadsTo(s, q) && j < |q.procs|
    ensures LeadsTo(s, r) && Beside(q, r, j) && r.procs[j] == q.procs[j].(newQue := [])
  {
    var ev := Steal(j, StealNew(|q.procs[j].newQue|));
    LeadsToNext(s, q, ev);
    r := Next(q, ev);
  }

  lemma StealRunAway(s: Sys, q: Sys, j: nat) returns (r: Sys)
    requires LeadsTo(s, q) && j < |q.procs| && !Window(q.procs[j])
    ensures LeadsTo(s, r) && Beside(q, r, j) && r.procs[j] == q.procs[j].(runQue := [])
  {
    var ev := Steal(j, StealRun(|q.procs[j].runQue|));
    LeadsToNext(s, q, ev);
    r := Next(q, ev);
  }

  /** Nothing is queued, except for the task that yields. */
  predicate Cleared(p: Proc) {
    && Slots(p) && !Window(p) && p.newQue == []
    && (p.runQue == [] || (p.pc == PopNext && |p.runQue| == 1))
  }

  lemma Clear(s: Sys, q: Sys, j: nat) returns (r: Sys)
    requires LeadsTo(s, q) && j < |q.procs| && Slots(q.procs[j])
    ensures LeadsTo(s, r) && Beside(q, r, j) && Cleared(r.procs[j])
  {
    var a := LeaveWindow(s, q, j);
    var b := StealNewAway(s, a, j);
    r := StealRunAway(s, b, j);
    BesideTwice(q, a, b, j);
    BesideTwice(q, b, r, j);
  }

  // ------------------------------------------------------------------ a cleared processor goes idle

  /** The coroutine that runs finishes, the dispatcher goes on. */
  function Winding(p: Proc): Event {
    if p.pc == Executing then TaskFinishes else Tick
  }

  /** How many steps it takes at most. */
  function Distance(p: Proc): nat {
    match p.pc
    case YieldCheck => 13
    case YieldDrain => 12
    case Requeue => 11
    case PopNext => 10
    case Dispatch => if p.running.Some? then 9 else 1
    case Executing => 8
    case DoneCheck => 7
    case DoneDrain => 6
    case DoneNext => 5
    case DrainIdle => 5
    case PopAgain => 4
    case WaitNew => 3
    case Asleep => 2
    case DrainWoken => 1
    case _ => 0
  }

  predicate Nearer(p: Proc, q: Proc) {
    Cleared(q) && Distance(q) < Distance(p)
  }

  lemma WindDown(p: Proc)
    requires Cleared(p) && p.pc != Top
    ensures Enabled(p, Winding(p)) && Nearer(p, Step(p, Winding(p)))
  {
    if p.pc in {YieldCheck, YieldDrain, Requeue, PopNext} {
      WindDownYield(p);
    } else if p.pc in {DrainIdle, PopAgain, WaitNew, Asleep, DrainWoken} {
      WindDownIdle(p);
    } else {
      WindDownTask(p);
    }
  }

  lemma WindDownYield(p: Proc)
    requires Cleared(p) && p.pc in {YieldCheck, YieldDrain, Requeue, PopNext}
    ensures Nearer(p, DispatcherStep(p))
  {
    match p.pc
    case YieldCheck =>
    case YieldDrain =>
    case Requeue =>
    case PopNext =>
  }

  lemma WindDownTask(p: Proc)
    requires Cleared(p) && p.pc in {Dispatch, Executing, DoneCheck, DoneDrain, DoneNext}
    ensures Nearer(p, Step(p, Winding(p)))
  {
    if p.pc in {Dispatch, Executing} {
      WindDownRun(p);
    } else {
      WindDownDone(p);
    }
  }

  lemma WindDownRun(p: Proc)
    requires Cleared(p) && p.pc in {Dispatch, Executing}
    ensures Nearer(p, Step(p, Winding(p)))
  {
  }

  lemma WindDownDone(p: Proc)
    requires Cleared(p) && p.pc in {DoneCheck, DoneDrain, DoneNext}
    ensures Nearer(p, DispatcherStep(p))
  {
  }

  lemma WindDownIdle(p: Proc)
    requires Cleared(p) && p.pc in {DrainIdle, PopAgain, WaitNew, Asleep, DrainWoken}
    ensures Nearer(p, DispatcherStep(p))
  {
  }

  lemma {:induction false} GoIdle(s: Sys, q: Sys, j: nat) returns (r: Sys)
    requires LeadsTo(s, q) && j < |q.procs| && Cleared(q.procs[j])
    ensures LeadsTo(s, r) && Beside(q, r, j) && Cleared(r.procs[j]) && r.procs[j].pc == Top
    decreases Distance(q.procs[j])
  {
    if q.procs[j].pc == Top {
      r := q;
    } else {
      WindDown(q.procs[j]);
      var a := ActLocally(s, q, j, Winding(q.procs[j]));
      r := GoIdle(s, a, j);
    }
  }

  // ------------------------------------------------------------------ and gets the stolen task

  lemma GiveSome(s: Sys, q: Sys, i: nat, n: nat) returns (r: Sys)
    requires LeadsTo(s, q) && i < |q.procs|
    ensures LeadsTo(s, r) && r.hand == AllAfter(q.hand, n)
    ensures r.procs == q.procs[i := Step(q.procs[i], AddTasks(FirstOf(q.hand, n)))]
  {
    LeadsToNext(s, q, Give(i, n));
    r := Next(q, Give(i, n));
  }

  lemma FrontOfRest(hand: seq<TaskId>, m: nat)
    requires m < |hand|
    ensures FirstOf(AllAfter(hand, m), 1) == [hand[m]]
  {
  }

  /** The slots of a processor that is given tasks stay as they are. */
  lemma GivenMore(p: Proc, ts: seq<TaskId>)
    ensures var q := Step(p, AddTasks(ts));
      q.running == p.running && q.pc == p.pc && q.runQue == p.runQue && q.newQue == p.newQue + ts
  {
  }

  /** Processor `j` is given the task at place `m` of the hand, and all before it go to `i`. */
  lemma Deliver(s: Sys, q: Sys, i: nat, j: nat, m: nat) returns (r: Sys)
    requires LeadsTo(s, q) && i != j && i < |q.procs| && j < |q.procs| && m < |q.hand|
    ensures LeadsTo(s, r) && |r.procs| == |q.procs|
    ensures r.procs[i].running == q.procs[i].running && r.procs[i].pc == q.procs[i].pc
    ensures r.procs[j].pc == q.procs[j].pc && r.procs[j].runQue == q.procs[j].runQue
    ensures r.procs[j].newQue == q.procs[j].newQue + [q.hand[m]]
  {
    var a := GiveSome(s, q, i, m);
    FrontOfRest(q.hand, m);
    r := GiveSome(s, a, j, 1);
    GivenMore(q.procs[i], FirstOf(q.hand, m));
    GivenMore(q.procs[j], [q.hand[m]]);
  }

  /** From an idle dispatcher with one new task, in four steps. */
  lemma FetchAndRun(p: Proc, t: TaskId)
    requires p.pc == Top && p.runQue == [] && p.newQue == [t]
    ensures var a := p.(pc := DrainIdle);
      var b := p.(pc := PopAgain, runQue := [t], newQue := []);
      var c := p.(pc := Dispatch, runQue := [], newQue := [], running := Some(t));
      && DispatcherStep(p) == a && DispatcherStep(a) == b && DispatcherStep(b) == c
      && DispatcherStep(c) == c.(pc := Executing)
  {
    assert [] + p.newQue == [t];
    assert [t][1..] == [];
  }

  /** An idle processor runs the task it is given. */
  lemma RunsIt(s: Sys, q: Sys, j: nat, t: TaskId) returns (r: Sys)
    requires LeadsTo(s, q) && j < |q.procs|
    requires q.procs[j].pc == Top && q.procs[j].runQue == [] && q.procs[j].newQue == [t]
    ensures LeadsTo(s, r) && Beside(q, r, j)
    ensures r.procs[j].pc == Executing && r.procs[j].running == Some(t)
  {
    FetchAndRun(q.procs[j], t);
    var a := ActLocally(s, q, j, Tick);
    var b := ActLocally(s, a, j, Tick);
    BesideTwice(q, a, b, j);
    var c := ActLocally(s, b, j, Tick);
    BesideTwice(q, b, c, j);
    r := ActLocally(s, c, j, Tick);
    BesideTwice(q, c, r, j);
  }

  // ------------------------------------------------------------------ results

  /** After an unsafe steal any other processor can come to run the task, while it still is in
      the running slot of the one it was stolen from; no further unsafe steal is needed. */
  lemma UnsafeStealRunsTwice(s: Sys, i: nat, j: nat, n: nat) returns (r: Sys)
    requires SysInv(s) && i != j && i < |s.procs| && j < |s.procs| && !Careful(s, Steal(i, StealRun(n)))
    ensures LeadsTo(Next(s, Steal(i, StealRun(n))), r) && |r.procs| == |s.procs|
    ensures r.procs[i].running == s.procs[i].running == r.procs[j].running && s.procs[i].running.Some?
    ensures r.procs[i].pc == s.procs[i].pc && r.procs[j].pc == Executing
  {
    var t := s.procs[i].running.value;
    var stolen := LastOf(s.procs[i].runQue, n);
    var start := Next(s, Steal(i, StealRun(n)));
    var m := HandPlace(s.hand, stolen, t);
    assert start.hand == s.hand + stolen;
    LeadsToSelf(start);
    assert Inv(s.procs[j]);
    var a := Clear(start, start, j);
    var b := GoIdle(start, a, j);
    assert b.hand[m] == t;
    var c := Deliver(start, b, i, j, m);
    assert c.procs[j].newQue == [t];
    r := RunsIt(start, c, j, t);
  }

  lemma HandPlace(hand: seq<TaskId>, stolen: seq<TaskId>, t: TaskId) returns (m: nat)
    requires t in stolen
    ensures m < |hand + stolen| && (hand + stolen)[m] == t
  {
    var k :| 0 <= k < |stolen| && stolen[k] == t;
    m := |hand| + k;
  }

  /** No task is in the running slots of two processors. */
  ghost predicate NoneTwice(s: Sys) {
    forall i, j | 0 <= i < j < |s.procs| && s.procs[i].running.Some? :: s.procs[i].running != s.procs[j].running
  }

  lemma InvNoneTwice(s: Sys)
    requires SysInv(s)
    ensures NoneTwice(s)
  {
    forall i, j | 0 <= i < j < |s.procs| && s.procs[i].running.Some? ensures s.procs[i].running != s.procs[j].running {
      if s.procs[j].running.Some? {
        NotRunningTwice(s, i, j);
      }
    }
  }

  /** With at least two processors, a steal is careful if and only if no careful run after it
      brings a task into the running slots of two processors. */
  lemma SafeStealsAreCareful(s: Sys, ev: SysEvent)
    requires SysInv(s) && |s.procs| >= 2 && ev.Steal? && CanHappen(s, ev)
    ensures Careful(s, ev) <==> forall r | LeadsTo(Next(s, ev), r) :: NoneTwice(r)
  {
    if Careful(s, ev) {
      forall r | LeadsTo(Next(s, ev), r) ensures NoneTwice(r) {
        CarefulNext(s, ev);
        LeadsToInv(Next(s, ev), r);
        InvNoneTwice(r);
      }
    } else {
      var j := if ev.i == 0 then 1 else 0;
      var r := UnsafeStealRunsTwice(s, ev.i, j, ev.ev.n);
      assert !NoneTwice(r);
    }
  }

  lemma CarefulNext(s: Sys, ev: SysEvent)
    requires SysInv(s) && CanHappen(s, ev) && Careful(s, ev)
    ensures SysInv(Next(s, ev))
  {
    EachInvNext(s, ev);
    OneOwnerNext(s, ev);
    EachAtHomeNext(s, ev);
  }

  // ------------------------------------------------------------------ a concrete run

  const TWO_FRESH := Sys([FRESH, FRESH], [], map[], {})

  /** The event of processor 0 in which it goes from its state to `p`. */
  lemma Lift(q: Sys, ev: SysEvent, p: Proc) returns (r: Sys)
    requires SysInv(TWO_FRESH) && LeadsTo(TWO_FRESH, q) && |q.procs| == 2 && q.procs[1] == FRESH
    requires ev.i == 0 && !ev.Steal? && !ev.Give? && CanHappen(q, ev) && Leads(q.procs[0], LocalEvent(q, ev), p)
    ensures LeadsTo(TWO_FRESH, r) && r.procs == [p, FRESH]
  {
    LeadsToInv(TWO_FRESH, q);
    OneProcessorSteps(q, ev);
    LeadsToNext(TWO_FRESH, q, ev);
    r := Next(q, ev);
  }

  lemma ToSpawned() returns (r: Sys)
    ensures SysInv(TWO_FRESH) && LeadsTo(TWO_FRESH, r) && r.procs == [Given(Top, None, [], [7]), FRESH]
  {
    StartInv(TWO_FRESH);
    LeadsToSelf(TWO_FRESH);
    BusyStages();
    r := Lift(TWO_FRESH, Spawn(0, [7]), Given(Top, None, [], [7]));
  }

  lemma Tick0(q: Sys, p: Proc) returns (r: Sys)
    requires SysInv(TWO_FRESH) && LeadsTo(TWO_FRESH, q) && |q.procs| == 2 && q.procs[1] == FRESH
    requires Leads(q.procs[0], Tick, p)
    ensures LeadsTo(TWO_FRESH, r) && r.procs == [p, FRESH]
  {
    r := Lift(q, Local(0, Tick), p);
  }

  lemma ToBusy() returns (r: Sys)
    ensures SysInv(TWO_FRESH) && LeadsTo(TWO_FRESH, r) && r.procs == [BUSY, FRESH]
  {
    r := ToSpawned();
    BusyStages();
    r := Tick0(r, Given(DrainIdle, None, [], [7]));
    r := Tick0(r, Given(PopAgain, None, [7], []));
    r := Tick0(r, Given(Dispatch, Some(7), [], []));
    r := Tick0(r, BUSY);
  }

  /** The task suspends itself and is woken before it yields. */
  lemma ToWokenEarly() returns (r: Sys)
    ensures SysInv(TWO_FRESH) && LeadsTo(TWO_FRESH, r) && r.procs == [WOKEN_EARLY, FRESH]
  {
    r := ToBusy();
    EarlySuspend();
    r := Lift(r, Local(0, TaskSuspends), Waiting(map[7 := 0], {InWaitSet}));
    EarlyLock();
    r := Lift(r, Local(0, Lock(1, 0)), Waiting(map[7 := 0], {InWaitSet, Locked(1)}));
    EarlyErase();
    r := Lift(r, WakeErase(0, 1, 0), Waiting(map[], {Erased(1)}));
    EarlyDrop();
    r := Lift(r, Local(0, Drop(1, 0)), WOKEN_EARLY);
  }

  lemma AllTaken(s: seq<TaskId>)
    ensures LastOf(s, |s|) == s
  {
  }

  lemma AliasTaken(p: Proc, t: TaskId)
    requires p.pc == Suspended && p.running == Some(t) && p.runQue == [t]
    ensures !KeepsAlias(p, StealRun(1))
  {
    AllTaken(p.runQue);
  }

  lemma WokenEarlyIsUnsafe()
    ensures !KeepsAlias(WOKEN_EARLY, StealRun(1)) && WOKEN_EARLY.running == Some(7) && WOKEN_EARLY.pc == Suspended
  {
    AliasTaken(WOKEN_EARLY, 7);
  }

  /** From two fresh processors a run leads, with one steal that is not careful, to task 7
      executing on both. */
  lemma OneTaskOnTwoProcessors() returns (s: Sys, r: Sys)
    ensures LeadsTo(TWO_FRESH, s) && CanHappen(s, Steal(0, StealRun(1)))
    ensures LeadsTo(Next(s, Steal(0, StealRun(1))), r)
    ensures |r.procs| == 2 && r.procs[0].running == Some(7) == r.procs[1].running
    ensures r.procs[0].pc == Suspended && r.procs[1].pc == Executing
  {
    s := ToWokenEarly();
    LeadsToInv(TWO_FRESH, s);
    WokenEarlyIsUnsafe();
    r := UnsafeStealRunsTwice(s, 0, 1, 1);
  }
}
