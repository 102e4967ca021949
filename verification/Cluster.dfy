/** All processors of a scheduler together, under every interleaving of their dispatchers,
    their coroutines, any number of wake-up calls, arriving tasks and the balancing thread.

    `hand` holds the tasks the balancing thread has stolen and not handed out yet, `home` is
    each task's processor_ field, and `live` the tasks that exist. */
module Cluster {
  import opened Common
  import opened ProcessorMachine

  datatype Sys = Sys(procs: seq<Proc>, hand: seq<TaskId>, home: map<TaskId, nat>, live: set<TaskId>)

  datatype SysEvent =
    | Local(i: nat, ev: Event)
    | Spawn(i: nat, tasks: seq<TaskId>)
    | Steal(i: nat, ev: Event)
    | Give(i: nat, n: nat)
    | WakeErase(i: nat, call: nat, entry: nat)

  ghost predicate Start(s: Sys) {
    && (forall i | 0 <= i < |s.procs| :: s.procs[i] == FRESH)
    && s.hand == [] && s.live == {}
  }

  /** Events that neither bring tasks in, nor take any out, nor erase a wait-set entry. */
  predicate Internal(ev: Event) {
    !ev.AddTasks? && !ev.StealNew? && !ev.StealRun? && !ev.Erase?
  }

  /** The processor a wake-up call addresses is looked up in the task. */
  function Target(s: Sys, i: nat, e: nat): nat
    requires i < |s.procs| && e in s.procs[i].groups
  {
    var t := s.procs[i].groups[e].task;
    if t in s.home then s.home[t] else |s.procs|
  }

  predicate CanHappen(s: Sys, ev: SysEvent) {
    ev.i < |s.procs| &&
    match ev
    case Local(i, e) => Internal(e) && Enabled(s.procs[i], e)
    case Spawn(i, ts) => NoRepeats(ts) && forall t | t in ts :: t !in s.live
    case Steal(i, e) => e.StealNew? || e.StealRun?
    case Give(i, n) => true
    case WakeErase(i, c, e) => Enabled(s.procs[i], Erase(c, e))
  }

  /** No steal takes a task that is between its Suspend and its Yield. */
  predicate Careful(s: Sys, ev: SysEvent) {
    ev.Steal? && ev.i < |s.procs| ==> KeepsAlias(s.procs[ev.i], ev.ev)
  }

  predicate Dispatches(p: Proc, ev: Event) {
    ev == Tick && p.pc == Dispatch && p.running.Some?
  }

  function Next(s: Sys, ev: SysEvent): Sys
    requires CanHappen(s, ev)
  {
    var p := s.procs[ev.i];
    match ev
    case Local(i, e) =>
      s.(procs := s.procs[i := Step(p, e)],
         home := if Dispatches(p, e) then s.home[p.running.value := i] else s.home,
         live := s.live - (set t | t in Removed(p, e)))
    case Spawn(i, ts) =>
      s.(procs := s.procs[i := Step(p, AddTasks(ts))], live := s.live + (set t | t in ts))
    case Steal(i, e) =>
      s.(procs := s.procs[i := Step(p, e)], hand := s.hand + Removed(p, e))
    case Give(i, n) =>
      s.(procs := s.procs[i := Step(p, AddTasks(FirstOf(s.hand, n)))], hand := AllAfter(s.hand, n))
    case WakeErase(i, c, e) =>
      // the wait-set entry is looked for in the processor the task names
      var t := p.groups[e].task;
      var marked := s.procs[i := MarkErased(p, c, e)];
      var j := Target(s, i, e);
      s.(procs := if j < |marked| then marked[j := EraseWaiting(marked[j], t)] else marked)
  }

  function Run(s: Sys, evs: seq<SysEvent>): Option<Sys>
    decreases |evs|
  {
    if evs == [] then Some(s)
    else
      var before := Run(s, evs[..|evs| - 1]);
      var ev := evs[|evs| - 1];
      if before.Some? && CanHappen(before.value, ev) then Some(Next(before.value, ev)) else None
  }

  predicate CarefulRun(s: Sys, evs: seq<SysEvent>)
    decreases |evs|
  {
    evs != [] ==>
      var init := evs[..|evs| - 1];
      CarefulRun(s, init) && (Run(s, init).Some? ==> Careful(Run(s, init).value, evs[|evs| - 1]))
  }

  // ------------------------------------------------------------------ counting owners

  function SumOwners(ps: seq<Proc>, t: TaskId): nat {
    if ps == [] then 0 else SumOwners(ps[..|ps| - 1], t) + Owners(ps[|ps| - 1], t)
  }

  /** All owners of a task in the whole system. */
  function AllOwners(s: Sys, t: TaskId): nat {
    SumOwners(s.procs, t) + multiset(s.hand)[t]
  }

  lemma {:induction false} SumUpdate(ps: seq<Proc>, i: nat, q: Proc, t: TaskId)
    requires i < |ps|
    ensures SumOwners(ps[i := q], t) + Owners(ps[i], t) == SumOwners(ps, t) + Owners(q, t)
  {
    var n := |ps| - 1;
    var u := ps[i := q];
    if i == n {
      assert u[..n] == ps[..n];
    } else {
      SumUpdate(ps[..n], i, q, t);
      assert u[..n] == ps[..n][i := q];
    }
  }

  lemma {:induction false} SumAtLeast(ps: seq<Proc>, i: nat, t: TaskId)
    requires i < |ps|
    ensures Owners(ps[i], t) <= SumOwners(ps, t)
  {
    if i < |ps| - 1 {
      SumAtLeast(ps[..|ps| - 1], i, t);
    }
  }

  lemma {:induction false} SumAtLeastTwo(ps: seq<Proc>, i: nat, j: nat, t: TaskId)
    requires i < j < |ps|
    ensures Owners(ps[i], t) + Owners(ps[j], t) <= SumOwners(ps, t)
  {
    var n := |ps| - 1;
    if j == n {
      SumAtLeast(ps[..n], i, t);
    } else {
      SumAtLeastTwo(ps[..n], i, j, t);
    }
  }

  // ------------------------------------------------------------------ the invariant

  ghost predicate EachInv(ps: seq<Proc>) {
    forall i | 0 <= i < |ps| :: Inv(ps[i])
  }

  /** A live task has exactly one owner in the whole system, any other task none. */
  ghost predicate OneOwner(s: Sys) {
    forall t :: AllOwners(s, t) == if t in s.live then 1 else 0
  }

  /** A task that runs on a processor, or that a control block of the processor refers to,
      names that processor as its own. */
  ghost predicate AtHome(p: Proc, i: nat, home: map<TaskId, nat>) {
    && (forall e | e in p.groups :: p.groups[e].task in home && home[p.groups[e].task] == i)
    && (HasRunning(p.pc) && p.running.Some? ==> p.running.value in home && home[p.running.value] == i)
  }

  ghost predicate EachAtHome(s: Sys) {
    forall i | 0 <= i < |s.procs| :: AtHome(s.procs[i], i, s.home)
  }

  ghost predicate SysInv(s: Sys) {
    EachInv(s.procs) && OneOwner(s) && EachAtHome(s)
  }

  lemma LocallyDistinct(s: Sys, i: nat)
    requires OneOwner(s) && i < |s.procs|
    ensures Distinct(s.procs[i])
  {
    forall t ensures Owners(s.procs[i], t) <= 1 {
      SumAtLeast(s.procs, i, t);
      assert AllOwners(s, t) <= 1;
    }
  }

  /** The task in the running slot has an owner in that processor, even in the window in
      which the slot is only an alias. */
  lemma RunningHasOwner(p: Proc)
    requires SlotsOk(p) && p.running.Some?
    ensures Owners(p, p.running.value) >= 1
  {
  }

  /** No task is in the running slot of two processors at once. */
  lemma NotRunningTwice(s: Sys, i: nat, j: nat)
    requires SysInv(s) && i < j < |s.procs| && s.procs[i].running.Some? && s.procs[j].running.Some?
    ensures s.procs[i].running != s.procs[j].running
  {
    var t := s.procs[i].running.value;
    assert AllOwners(s, t) <= 1;
    RunningHasOwner(s.procs[i]);
    RunningHasOwner(s.procs[j]);
    SumAtLeastTwo(s.procs, i, j, t);
  }

  lemma {:induction false} NoOwnersAtStart(ps: seq<Proc>, t: TaskId)
    requires forall i | 0 <= i < |ps| :: ps[i] == FRESH
    ensures SumOwners(ps, t) == 0
  {
    if ps != [] {
      NoOwnersAtStart(ps[..|ps| - 1], t);
    }
  }

  lemma StartInv(s: Sys)
    requires Start(s)
    ensures SysInv(s)
  {
    forall t ensures AllOwners(s, t) == 0 {
      NoOwnersAtStart(s.procs, t);
    }
    if s.procs != [] {
      FreshInv(0);
    }
  }

  // ------------------------------------------------------------------ one event

  /** A wake-up call finds the wait-set entry on the very processor that holds the control
      block, so it is the local erase step. */
  lemma WakeEraseIsLocal(s: Sys, i: nat, c: nat, e: nat)
    requires EachAtHome(s) && CanHappen(s, WakeErase(i, c, e))
    ensures Next(s, WakeErase(i, c, e)) == s.(procs := s.procs[i := Step(s.procs[i], Erase(c, e))])
  {
    assert AtHome(s.procs[i], i, s.home);
    var p := s.procs[i];
    var marked := s.procs[i := MarkErased(p, c, e)];
    assert marked[i := EraseWaiting(marked[i], p.groups[e].task)] == s.procs[i := Step(p, Erase(c, e))];
  }

  /** The event as the processor it concerns sees it. */
  function LocalEvent(s: Sys, ev: SysEvent): Event {
    match ev
    case Local(_, e) => e
    case Spawn(_, ts) => AddTasks(ts)
    case Steal(_, e) => e
    case Give(_, n) => AddTasks(FirstOf(s.hand, n))
    case WakeErase(_, c, e) => Erase(c, e)
  }

  lemma OneProcessorSteps(s: Sys, ev: SysEvent)
    requires EachAtHome(s) && CanHappen(s, ev)
    ensures Enabled(s.procs[ev.i], LocalEvent(s, ev))
    ensures Next(s, ev).procs == s.procs[ev.i := Step(s.procs[ev.i], LocalEvent(s, ev))]
    ensures Careful(s, ev) ==> KeepsAlias(s.procs[ev.i], LocalEvent(s, ev))
  {
    if ev.WakeErase? {
      WakeEraseIsLocal(s, ev.i, ev.call, ev.entry);
    }
  }

  lemma EachInvNext(s: Sys, ev: SysEvent)
    requires SysInv(s) && CanHappen(s, ev) && Careful(s, ev)
    ensures EachInv(Next(s, ev).procs)
  {
    OneProcessorSteps(s, ev);
    LocallyDistinct(s, ev.i);
    StepInv(s.procs[ev.i], LocalEvent(s, ev));
  }

  /** What the event changes outside the processors, for one task. */
  lemma Balance(s: Sys, ev: SysEvent, t: TaskId)
    requires SysInv(s) && CanHappen(s, ev)
    ensures AllOwners(Next(s, ev), t) + multiset(Removed(s.procs[ev.i], LocalEvent(s, ev)))[t] + multiset(s.hand)[t]
         == AllOwners(s, t) + multiset(Added(LocalEvent(s, ev)))[t] + multiset(Next(s, ev).hand)[t]
  {
    var e := LocalEvent(s, ev);
    OneProcessorSteps(s, ev);
    LocallyDistinct(s, ev.i);
    StepOwners(s.procs[ev.i], e, t);
    SumUpdate(s.procs, ev.i, Step(s.procs[ev.i], e), t);
  }

  lemma OneOwnerNext(s: Sys, ev: SysEvent)
    requires SysInv(s) && CanHappen(s, ev)
    ensures OneOwner(Next(s, ev))
  {
    forall t ensures AllOwners(Next(s, ev), t) == if t in Next(s, ev).live then 1 else 0 {
      Balance(s, ev, t);
      OneOwnerOf(s, ev, t);
    }
  }

  lemma FinishedHadOwner(s: Sys, i: nat)
    requires SysInv(s) && i < |s.procs| && s.procs[i].running.Some?
    ensures s.procs[i].running.value in s.live
  {
    var t := s.procs[i].running.value;
    RunningHasOwner(s.procs[i]);
    SumAtLeast(s.procs, i, t);
    assert AllOwners(s, t) >= 1;
  }

  lemma OneOwnerOf(s: Sys, ev: SysEvent, t: TaskId)
    requires SysInv(s) && CanHappen(s, ev)
    requires AllOwners(Next(s, ev), t) + multiset(Removed(s.procs[ev.i], LocalEvent(s, ev)))[t] + multiset(s.hand)[t]
          == AllOwners(s, t) + multiset(Added(LocalEvent(s, ev)))[t] + multiset(Next(s, ev).hand)[t]
    ensures AllOwners(Next(s, ev), t) == if t in Next(s, ev).live then 1 else 0
  {
    assert AllOwners(s, t) == if t in s.live then 1 else 0;
    match ev
    case Local(i, e) =>
      if s.procs[i].running.Some? {
        FinishedHadOwner(s, i);
      }
    case Spawn(i, ts) => CountOfDistinct(ts, t);
    case Steal(i, e) => Joined(s.hand, Removed(s.procs[i], e), t);
    case Give(i, n) => Joined(FirstOf(s.hand, n), AllAfter(s.hand, n), t);
    case WakeErase(i, c, e) =>
  }

  // ------------------------------------------------------------------ tasks stay at home

  lemma ReleaseGroups(p: Proc, e: nat, h: Holder)
    ensures var q := Release(p, e, h);
      q.groups.Keys <= p.groups.Keys && (forall f | f in q.groups :: q.groups[f].task == p.groups[f].task)
    ensures Release(p, e, h).running == p.running && Release(p, e, h).pc == p.pc
  {
  }

  predicate KeepsSlot(p: Proc, q: Proc) {
    q.running.Some? && HasRunning(q.pc) ==> HasRunning(p.pc) && p.running == q.running
  }

  lemma HomeShrinks(p: Proc, q: Proc, i: nat, home: map<TaskId, nat>)
    requires AtHome(p, i, home)
    requires q.groups.Keys <= p.groups.Keys && (forall f | f in q.groups :: q.groups[f].task == p.groups[f].task)
    requires KeepsSlot(p, q)
    ensures AtHome(q, i, home)
  {
  }

  lemma TickHome(p: Proc)
    requires Enabled(p, Tick) && !Dispatches(p, Tick)
    ensures KeepsSlot(p, DispatcherStep(p))
  {
    if p.pc in {Top, PopAgain, PopNext} {
      PopHome(p);
    } else if p.pc in {Parked, DoneNext, Requeue, Dispatch} {
      SlotHome(p);
    } else {
      QuietHome(p);
    }
  }

  lemma PopHome(p: Proc)
    requires p.pc in {Top, PopAgain, PopNext}
    ensures KeepsSlot(p, DispatcherStep(p))
  {
    if p.pc == Top {
      PopRunHome(p, DrainIdle);
    } else if p.pc == PopAgain {
      PopRunHome(p, WaitNew);
    } else {
      PopRunHome(p, Dispatch);
    }
  }

  lemma PopRunHome(p: Proc, empty: Pc)
    requires !HasRunning(empty)
    ensures KeepsSlot(p, PopRun(p, Dispatch, empty))
  {
  }

  lemma SlotHome(p: Proc)
    requires p.pc in {Parked, DoneNext, Requeue, Dispatch} && !Dispatches(p, Tick)
    ensures KeepsSlot(p, DispatcherStep(p))
  {
  }

  lemma QuietHome(p: Proc)
    requires p.pc in {DrainIdle, WaitNew, Asleep, DrainWoken, YieldCheck, YieldDrain, DoneCheck, DoneDrain}
    ensures KeepsSlot(p, DispatcherStep(p))
  {
  }

  lemma EraseHome(p: Proc, c: nat, e: nat, i: nat, home: map<TaskId, nat>)
    requires AtHome(p, i, home) && Enabled(p, Erase(c, e))
    ensures AtHome(Step(p, Erase(c, e)), i, home)
  {
    var q := MarkErased(p, c, e);
    HomeShrinks(p, q, i, home);
    var t := p.groups[e].task;
    if t in q.waitSet {
      ReleaseGroups(q.(waitSet := q.waitSet - {t}), q.waitSet[t], InWaitSet);
      HomeShrinks(q, Step(p, Erase(c, e)), i, home);
    }
  }

  lemma StepHome(p: Proc, ev: Event, i: nat, home: map<TaskId, nat>)
    requires AtHome(p, i, home) && Enabled(p, ev) && !Dispatches(p, ev)
    ensures AtHome(Step(p, ev), i, home)
  {
    match ev
    case Tick => TickHome(p);
    case Erase(c, e) => EraseHome(p, c, e, i, home);
    case Drop(c, e) =>
      ReleaseGroups(p, e, Erased(c));
      HomeShrinks(p, Step(p, ev), i, home);
    case _ =>
  }

  /** A dispatch moves the task's home; no other processor refers to the task. */
  lemma DispatchHome(s: Sys, i: nat, j: nat)
    requires SysInv(s) && i < |s.procs| && j < |s.procs| && i != j && Dispatches(s.procs[i], Tick)
    ensures AtHome(s.procs[j], j, s.home[s.procs[i].running.value := i])
  {
    var t := s.procs[i].running.value;
    var p := s.procs[j];
    assert AllOwners(s, t) <= 1;
    RunningHasOwner(s.procs[i]);
    if i < j { SumAtLeastTwo(s.procs, i, j, t); } else { SumAtLeastTwo(s.procs, j, i, t); }
    assert !Blocked(p, t);
    if p.running.Some? {
      if i < j { NotRunningTwice(s, i, j); } else { NotRunningTwice(s, j, i); }
    }
  }

  lemma EachAtHomeNext(s: Sys, ev: SysEvent)
    requires SysInv(s) && CanHappen(s, ev)
    ensures EachAtHome(Next(s, ev))
  {
    OneProcessorSteps(s, ev);
    var e := LocalEvent(s, ev);
    var s' := Next(s, ev);
    forall j | 0 <= j < |s'.procs| ensures AtHome(s'.procs[j], j, s'.home) {
      assert AtHome(s.procs[j], j, s.home);
      if Dispatches(s.procs[ev.i], e) {
        if j != ev.i {
          DispatchHome(s, ev.i, j);
        }
      } else if j == ev.i {
        StepHome(s.procs[j], e, j, s.home);
      }
    }
  }

  // ------------------------------------------------------------------ every run

  /** Every careful run keeps the invariant. */
  lemma {:induction false} RunKeepsInv(s: Sys, evs: seq<SysEvent>)
    requires SysInv(s) && Run(s, evs).Some? && CarefulRun(s, evs)
    ensures SysInv(Run(s, evs).value)
    decreases |evs|
  {
    if evs != [] {
      var init, ev := evs[..|evs| - 1], evs[|evs| - 1];
      RunKeepsInv(s, init);
      var b := Run(s, init).value;
      EachInvNext(b, ev);
      OneOwnerNext(b, ev);
      EachAtHomeNext(b, ev);
    }
  }

  /** The invariant holds after every careful run from any number of fresh processors. */
  lemma EveryRun(s: Sys, evs: seq<SysEvent>)
    requires Start(s) && Run(s, evs).Some? && CarefulRun(s, evs)
    ensures SysInv(Run(s, evs).value)
  {
    StartInv(s);
    RunKeepsInv(s, evs);
  }

  /** Single ownership: after every run each live task has exactly one owner among all new
      queues, run queues, next slots, control blocks, running slots and the balancing thread's
      hand; a finished or unknown task has none; and no task runs on two processors. */
  lemma SingleOwnership(s: Sys, evs: seq<SysEvent>, t: TaskId)
    requires Start(s) && Run(s, evs).Some? && CarefulRun(s, evs)
    ensures var r := Run(s, evs).value;
      && AllOwners(r, t) == (if t in r.live then 1 else 0)
      && (forall i, j | 0 <= i < j < |r.procs| && r.procs[i].running == Some(t) :: r.procs[j].running != Some(t))
  {
    EveryRun(s, evs);
    var r := Run(s, evs).value;
    forall i, j | 0 <= i < j < |r.procs| && r.procs[i].running == Some(t)
      ensures r.procs[j].running != Some(t)
    {
      if r.procs[j].running.Some? {
        NotRunningTwice(r, i, j);
      }
    }
  }

  /** At most one resumption: after every run a suspension made so far has been put on the
      run queue exactly once if its last reference is gone, and not at all otherwise. */
  lemma ResumedAtMostOnce(s: Sys, evs: seq<SysEvent>, i: nat, e: nat)
    requires Start(s) && Run(s, evs).Some? && CarefulRun(s, evs)
    requires i < |Run(s, evs).value.procs| && e < Run(s, evs).value.procs[i].entries
    ensures var p := Run(s, evs).value.procs[i];
      multiset(p.resumed)[e] == if e in p.groups then 0 else 1
  {
    EveryRun(s, evs);
    var p := Run(s, evs).value.procs[i];
    assert Inv(p);
    CountOfDistinct(p.resumed, e);
  }

  /** A call that holds a reference of one suspension changes no other suspension of any
      processor: neither its references nor its place in a wait set, and it resumes none. */
  lemma WakersStayWithTheirEntry(s: Sys, evs: seq<SysEvent>, ev: SysEvent, c: nat, e: nat, i: nat, f: nat)
    requires Start(s) && Run(s, evs).Some? && CarefulRun(s, evs) && CanHappen(Run(s, evs).value, ev)
    requires (ev.Local? && (ev.ev == Lock(c, e) || ev.ev == Drop(c, e))) || (ev.WakeErase? && ev.entry == e)
    requires i < |Run(s, evs).value.procs| && f in Run(s, evs).value.procs[i].groups
    requires ev.i != i || e != f
    ensures var p, q := Run(s, evs).value.procs[i], Next(Run(s, evs).value, ev).procs[i];
      && f in q.groups && q.groups[f] == p.groups[f] && f !in q.resumed
      && (InWaitSet in p.groups[f].holders ==>
            p.groups[f].task in q.waitSet && q.waitSet[p.groups[f].task] == f)
  {
    EveryRun(s, evs);
    var r := Run(s, evs).value;
    OneProcessorSteps(r, ev);
    EachInvNext(r, ev);
    var p, q := r.procs[i], Next(r, ev).procs[i];
    assert Inv(p) && Inv(q);
    if i == ev.i {
      OtherGroupKept(p, LocalEvent(r, ev), e, f);
    }
  }

  lemma OtherGroupKept(p: Proc, ev: Event, e: nat, f: nat)
    requires Inv(p) && Enabled(p, ev) && e != f && f in p.groups
    requires (ev.Lock? || ev.Erase? || ev.Drop?) && ev.entry == e
    ensures var q := Step(p, ev);
      && f in q.groups && q.groups[f] == p.groups[f]
      && (p.groups[f].task in p.waitSet ==> p.groups[f].task in q.waitSet && q.waitSet[p.groups[f].task] == p.waitSet[p.groups[f].task])
  {
    match ev
    case Erase(c, _) => EraseIsOwn(p, c, e);
    case Drop(c, _) => OtherReleased(p, e, Erased(c), f);
    case Lock(_, _) =>
  }

  lemma OtherReleased(p: Proc, e: nat, h: Holder, f: nat)
    requires f in p.groups && e != f
    ensures var q := Release(p, e, h); f in q.groups && q.groups[f] == p.groups[f] && q.waitSet == p.waitSet
  {
  }

  /** No lost wake-up for new work: after every run, a processor that sleeps while its new
      queue is not empty has a signal pending. */
  lemma NewWorkIsSignalled(s: Sys, evs: seq<SysEvent>, i: nat)
    requires Start(s) && Run(s, evs).Some? && CarefulRun(s, evs) && i < |Run(s, evs).value.procs|
    ensures var p := Run(s, evs).value.procs[i];
      p.pc == Asleep && p.newQue != [] ==> p.signalled
  {
    EveryRun(s, evs);
    assert Inv(Run(s, evs).value.procs[i]);
  }

  /** Conservation by the balancing thread: stealing and handing out keep, for every task, the
      number of owners, and so the whole multiset of queued tasks. */
  lemma BalancingConserves(s: Sys, ev: SysEvent, t: TaskId)
    requires SysInv(s) && CanHappen(s, ev) && (ev.Steal? || ev.Give?)
    ensures AllOwners(Next(s, ev), t) == AllOwners(s, t)
  {
    Balance(s, ev, t);
    if ev.Steal? {
      Joined(s.hand, Removed(s.procs[ev.i], ev.ev), t);
    } else {
      Joined(FirstOf(s.hand, ev.n), AllAfter(s.hand, ev.n), t);
    }
  }
}
