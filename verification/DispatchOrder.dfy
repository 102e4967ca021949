/** The order in which a processor dispatches its queued tasks. */
module DispatchOrder {
  import opened Common
  import opened ProcessorMachine
  import opened Cluster

  function IndexOf(s: seq<TaskId>, t: TaskId): nat {
    if s == [] || s[0] == t then 0 else 1 + IndexOf(s[1..], t)
  }

  lemma {:induction false} IndexIn(s: seq<TaskId>, t: TaskId)
    requires t in s
    ensures IndexOf(s, t) < |s| && s[IndexOf(s, t)] == t
  {
    if s[0] != t {
      IndexIn(s[1..], t);
    }
  }

  lemma {:induction false} IndexInPrefix(a: seq<TaskId>, b: seq<TaskId>, t: TaskId)
    requires t in a
    ensures IndexOf(a + b, t) == IndexOf(a, t)
  {
    if a[0] != t {
      IndexInPrefix(a[1..], b, t);
      assert (a + b)[1..] == a[1..] + b;
    }
  }

  /** A task taken off the run queue that has not been dispatched yet. */
  function Picked(p: Proc): nat {
    (if p.next.Some? then 1 else 0) + (if p.pc == Dispatch && p.running.Some? then 1 else 0)
  }

  predicate IsPicked(p: Proc, t: TaskId) {
    p.next == Some(t) || (p.pc == Dispatch && p.running == Some(t))
  }

  predicate Queued(p: Proc, t: TaskId) {
    t in p.runQue || IsPicked(p, t)
  }

  /** Which dispatch from now on is the task's, if no task is taken from the new queue before. */
  function Rank(p: Proc, t: TaskId): nat {
    if IsPicked(p, t) then 1 else IndexOf(p.runQue, t) + 1 + Picked(p)
  }

  /** A finished task makes room for the front of the new queue, ahead of the run queue. */
  predicate TakesNew(p: Proc, ev: Event) {
    ev == Tick && p.pc == DoneNext && p.newQue != []
  }

  function One(b: bool): nat {
    if b then 1 else 0
  }

  predicate RankMoves(p: Proc, q: Proc, t: TaskId, dispatched: bool, tookNew: bool) {
    Rank(q, t) + One(dispatched) == Rank(p, t) + One(tookNew)
  }

  lemma SameLine(p: Proc, q: Proc, t: TaskId)
    requires q.runQue == p.runQue && q.next == p.next && Picked(q) == Picked(p) && (IsPicked(p, t) <==> IsPicked(q, t))
    ensures Rank(q, t) == Rank(p, t)
  {
  }

  lemma LongerLine(p: Proc, q: Proc, more: seq<TaskId>, t: TaskId)
    requires q.runQue == p.runQue + more && Picked(q) == Picked(p) && (IsPicked(p, t) <==> IsPicked(q, t))
    requires Queued(p, t)
    ensures Rank(q, t) == Rank(p, t)
  {
    if !IsPicked(p, t) {
      IndexInPrefix(p.runQue, more, t);
    }
  }

  lemma ShorterLine(p: Proc, q: Proc, less: seq<TaskId>, t: TaskId)
    requires p.runQue == q.runQue + less && Picked(q) == Picked(p) && (IsPicked(p, t) <==> IsPicked(q, t))
    requires Queued(q, t)
    ensures Rank(q, t) == Rank(p, t)
  {
    LongerLine(q, p, less, t);
  }

  /** Taking the front of the run queue into an empty slot. */
  lemma FrontPicked(p: Proc, q: Proc, t: TaskId)
    requires p.runQue != [] && q.runQue == p.runQue[1..] && Picked(p) == 0 && Picked(q) == 1
    requires IsPicked(q, t) <==> t == p.runQue[0]
    requires Queued(p, t)
    ensures Rank(q, t) == Rank(p, t)
  {
  }

  lemma PopRank(p: Proc, found: Pc, empty: Pc, t: TaskId)
    requires p.running.None? && p.next.None? && found == Dispatch
    requires Queued(p, t)
    ensures Rank(PopRun(p, found, empty), t) == Rank(p, t)
  {
    if p.runQue != [] {
      FrontPicked(p, PopRun(p, found, empty), t);
    }
  }

  lemma DrainRank(p: Proc, then_: Pc, t: TaskId)
    requires Queued(p, t) && p.pc != Dispatch && then_ != Dispatch
    ensures Rank(Drain(p, then_), t) == Rank(p, t)
  {
    LongerLine(p, Drain(p, then_), p.newQue, t);
  }

  lemma RequeueRank(p: Proc, t: TaskId)
    requires p.pc == Requeue && Queued(p, t)
    ensures Rank(DispatcherStep(p), t) == Rank(p, t)
  {
    LongerLine(p, DispatcherStep(p), if p.running.Some? then [p.running.value] else [], t);
  }

  lemma DispatchRank(p: Proc, t: TaskId)
    requires Inv(p) && Distinct(p) && p.pc == Dispatch
    requires Queued(p, t) && Queued(DispatcherStep(p), t)
    ensures RankMoves(p, DispatcherStep(p), t, Dispatches(p, Tick), false)
  {
    assert Owners(p, t) <= 1;
  }

  lemma ParkedRank(p: Proc, t: TaskId)
    requires p.pc == Parked && Queued(p, t)
    ensures Rank(DispatcherStep(p), t) == Rank(p, t)
  {
  }

  lemma DoneNextRank(p: Proc, t: TaskId)
    requires Inv(p) && Distinct(p) && p.pc == DoneNext && Queued(p, t)
    ensures RankMoves(p, DispatcherStep(p), t, false, TakesNew(p, Tick))
  {
    if p.newQue != [] {
      assert Owners(p, t) <= 1;
      NewAhead(p, t);
    } else {
      SameLine(p, DispatcherStep(p), t);
    }
  }

  /** The front of the new queue goes ahead of everything in the run queue. */
  lemma NewAhead(p: Proc, t: TaskId)
    requires SlotsOk(p) && p.pc == DoneNext && p.newQue != [] && Queued(p, t) && Owners(p, t) <= 1
    ensures Rank(DispatcherStep(p), t) == Rank(p, t) + 1
  {
  }

  lemma QuietRank(p: Proc, t: TaskId)
    requires p.pc in {WaitNew, Asleep, YieldCheck, DoneCheck}
    ensures Rank(DispatcherStep(p), t) == Rank(p, t)
  {
    SameLine(p, DispatcherStep(p), t);
  }

  lemma TickRank(p: Proc, t: TaskId)
    requires Inv(p) && Distinct(p) && Enabled(p, Tick)
    requires Queued(p, t) && Queued(DispatcherStep(p), t)
    ensures RankMoves(p, DispatcherStep(p), t, Dispatches(p, Tick), TakesNew(p, Tick))
  {
    match p.pc
    case Top => PopRank(p, Dispatch, DrainIdle, t);
    case PopAgain => PopRank(p, Dispatch, WaitNew, t);
    case PopNext => PopRank(p, Dispatch, Dispatch, t);
    case DrainIdle => DrainRank(p, PopAgain, t);
    case DrainWoken => DrainRank(p, Top, t);
    case YieldDrain => DrainRank(p, Requeue, t);
    case DoneDrain => DrainRank(p, DoneNext, t);
    case Requeue => RequeueRank(p, t);
    case Dispatch => DispatchRank(p, t);
    case Parked => ParkedRank(p, t);
    case DoneNext => DoneNextRank(p, t);
    case _ => QuietRank(p, t);
  }

  lemma SuspendRank(p: Proc, t: TaskId)
    requires Inv(p) && Distinct(p) && p.pc == Executing
    requires Queued(p, t)
    ensures Rank(Suspend(p), t) == Rank(p, t)
  {
    RunningIsNotWaiting(p);
    assert Owners(p, t) <= 1;
    var q := Suspend(p);
    if p.runQue != [] {
      FrontPicked(p, q, t);
    }
  }

  lemma DropLine(p: Proc, e: nat, h: Holder, t: TaskId)
    requires Queued(p, t)
    ensures Rank(Release(p, e, h), t) == Rank(p, t)
  {
    var q := Release(p, e, h);
    if e in p.groups && p.groups[e].holders - {h} == {} {
      LongerLine(p, q, [p.groups[e].task], t);
    } else {
      assert q.runQue == p.runQue;
    }
  }

  lemma EraseLine(p: Proc, c: nat, e: nat, t: TaskId)
    requires GroupsOk(p) && Enabled(p, Erase(c, e))
    ensures Rank(Step(p, Erase(c, e)), t) == Rank(p, t)
  {
    EraseIsOwn(p, c, e);
  }

  /** One event: a dispatch of another task brings the task one place forward, a task taken
      from the new queue sets it one place back, and nothing else moves it. */
  lemma StepRank(p: Proc, ev: Event, t: TaskId)
    requires Inv(p) && Distinct(p) && Enabled(p, ev)
    requires Queued(p, t) && Queued(Step(p, ev), t)
    ensures RankMoves(p, Step(p, ev), t, Dispatches(p, ev), TakesNew(p, ev))
  {
    match ev
    case Tick => TickRank(p, t);
    case TaskSuspends => SuspendRank(p, t);
    case Erase(c, e) => EraseLine(p, c, e, t);
    case Drop(c, e) => DropLine(p, e, Erased(c), t);
    case StealRun(n) => ShorterLine(p, Step(p, ev), LastOf(p.runQue, n), t);
    case _ => OtherRank(p, ev, t);
  }

  lemma OtherRank(p: Proc, ev: Event, t: TaskId)
    requires Enabled(p, ev)
    requires ev.TaskYields? || ev.TaskParks? || ev.TaskFinishes? || ev.AddTasks? || ev.StealNew? || ev.Lock? || ev.Notify?
    ensures Rank(Step(p, ev), t) == Rank(p, t)
  {
    SameLine(p, Step(p, ev), t);
  }

  // ------------------------------------------------------------------ over runs

  /** The task waits on processor `i` during the whole run: it is neither dispatched nor stolen. */
  ghost predicate WaitsOn(s: Sys, evs: seq<SysEvent>, i: nat, t: TaskId)
    decreases |evs|
  {
    && Run(s, evs).Some? && i < |Run(s, evs).value.procs| && Queued(Run(s, evs).value.procs[i], t)
    && (evs != [] ==> WaitsOn(s, evs[..|evs| - 1], i, t))
  }

  predicate AtDispatch(s: Sys, ev: SysEvent, i: nat) {
    ev.Local? && ev.i == i < |s.procs| && Dispatches(s.procs[i], ev.ev)
  }

  predicate AtTakeNew(s: Sys, ev: SysEvent, i: nat) {
    ev.Local? && ev.i == i < |s.procs| && TakesNew(s.procs[i], ev.ev)
  }

  /** The dispatches of processor `i` in a run. */
  function DispatchCount(s: Sys, evs: seq<SysEvent>, i: nat): nat
    requires Run(s, evs).Some?
    decreases |evs|
  {
    if evs == [] then 0
    else
      var init := evs[..|evs| - 1];
      DispatchCount(s, init, i) + One(AtDispatch(Run(s, init).value, evs[|evs| - 1], i))
  }

  /** How often a finished task was followed by the front of the new queue. */
  function TakeNewCount(s: Sys, evs: seq<SysEvent>, i: nat): nat
    requires Run(s, evs).Some?
    decreases |evs|
  {
    if evs == [] then 0
    else
      var init := evs[..|evs| - 1];
      TakeNewCount(s, init, i) + One(AtTakeNew(Run(s, init).value, evs[|evs| - 1], i))
  }

  lemma {:induction false} RankAlongRun(s: Sys, evs: seq<SysEvent>, i: nat, t: TaskId)
    requires SysInv(s) && CarefulRun(s, evs) && WaitsOn(s, evs, i, t)
    ensures i < |s.procs| && Queued(s.procs[i], t)
    ensures Rank(Run(s, evs).value.procs[i], t) + DispatchCount(s, evs, i) == Rank(s.procs[i], t) + TakeNewCount(s, evs, i)
    decreases |evs|
  {
    if evs != [] {
      var init, ev := evs[..|evs| - 1], evs[|evs| - 1];
      RankAlongRun(s, init, i, t);
      RunKeepsInv(s, init);
      var b := Run(s, init).value;
      OneProcessorSteps(b, ev);
      if ev.i == i {
        LocallyDistinct(b, i);
        StepRank(b.procs[i], LocalEvent(b, ev), t);
      }
    }
  }

  /** First come, first served: a task at index k of the run queue, with at most one task
      picked ahead of it, waits through at most k dispatches of others, not counting one for
      every finished task that was followed by a new one. */
  lemma ServedInOrder(s: Sys, evs: seq<SysEvent>, i: nat, t: TaskId, k: nat)
    requires SysInv(s) && i < |s.procs| && k < |s.procs[i].runQue| && s.procs[i].runQue[k] == t
    requires CarefulRun(s, evs) && WaitsOn(s, evs, i, t)
    ensures DispatchCount(s, evs, i) <= k + Picked(s.procs[i]) + TakeNewCount(s, evs, i)
    ensures Picked(s.procs[i]) <= 1
  {
    RankAlongRun(s, evs, i, t);
    var p := s.procs[i];
    assert Inv(p);
    RankAtMost(p, t, k);
  }

  lemma RankAtMost(p: Proc, t: TaskId, k: nat)
    requires k < |p.runQue| && p.runQue[k] == t
    ensures Rank(p, t) <= k + 1 + Picked(p)
  {
    IndexAtMost(p.runQue, t, k);
  }

  lemma {:induction false} IndexAtMost(s: seq<TaskId>, t: TaskId, k: nat)
    requires k < |s| && s[k] == t
    ensures IndexOf(s, t) <= k
  {
    if s[0] != t {
      IndexAtMost(s[1..], t, k - 1);
    }
  }
}
