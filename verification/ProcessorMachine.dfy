/** One coroutine processor as a state machine over its atomic regions.

    The value `Proc` holds the fields of the processor together with the control
    blocks of the suspended tasks and the point its dispatcher loop has reached.
    An event is one region the code runs without interruption: a dispatcher step,
    something the running coroutine does, a hand-over of tasks by another thread,
    or one of the three stages of a wake-up call. */
module ProcessorMachine {
  import opened Common

  type TaskId = nat

  /** One strong reference to a suspended task: the wait set's own copy, or the
      local copy of a wake-up call that has (not yet) erased the wait-set copy. */
  datatype Holder = InWaitSet | Locked(call: nat) | Erased(call: nat)

  /** The control block one suspension creates; its use count is `|holders|`. */
  datatype Suspension = Suspension(task: TaskId, holders: set<Holder>)

  /** Where the dispatcher loop stands. `Suspended` is the window in which the task
      has called Suspend but not yet Yield; `Parked` is the BLOCK case after it. */
  datatype Pc =
    | Top | DrainIdle | PopAgain | WaitNew | Asleep | DrainWoken
    | Dispatch | Executing | Suspended
    | YieldCheck | YieldDrain | Requeue | PopNext
    | Parked
    | DoneCheck | DoneDrain | DoneNext

  /** `entries` counts the suspensions made so far and names the next one;
      `resumed` records, oldest first, the suspensions whose last reference is gone. */
  datatype Proc = Proc(
    pc: Pc,
    running: Option<TaskId>,
    next: Option<TaskId>,
    runQue: seq<TaskId>,
    newQue: seq<TaskId>,
    waitSet: map<TaskId, nat>,
    groups: map<nat, Suspension>,
    entries: nat,
    resumed: seq<nat>,
    notified: bool,
    waitting: bool,
    signalled: bool)

  const FRESH := Proc(Top, None, None, [], [], map[], map[], 0, [], false, false, false)

  datatype Event =
    | Tick
    | TaskYields | TaskSuspends | TaskParks | TaskFinishes
    | AddTasks(tasks: seq<TaskId>)
    | StealNew(n: nat) | StealRun(n: nat)
    | Lock(call: nat, entry: nat) | Erase(call: nat, entry: nat) | Drop(call: nat, entry: nat)
    | Notify

  // ------------------------------------------------------------------ transitions

  /** The two states agree on everything that concerns suspended tasks. */
  predicate SameGroups(p: Proc, q: Proc) {
    q.groups == p.groups && q.waitSet == p.waitSet && q.entries == p.entries && q.resumed == p.resumed
  }

  function PopRun(p: Proc, found: Pc, empty: Pc): (q: Proc)
    ensures SameGroups(p, q)
  {
    if p.runQue == [] then p.(pc := empty)
    else p.(running := Some(p.runQue[0]), runQue := p.runQue[1..], pc := found)
  }

  function Drain(p: Proc, then_: Pc): (q: Proc)
    ensures SameGroups(p, q)
  {
    p.(runQue := p.runQue + p.newQue, newQue := [], pc := then_)
  }

  function Signal(p: Proc): Proc {
    if p.waitting then p.(signalled := true) else p.(notified := true)
  }

  /** One reference of suspension `e` is dropped; the last one runs the deleter,
      which puts the task at the back of the run queue. */
  function Release(p: Proc, e: nat, h: Holder): Proc {
    if e !in p.groups then p
    else
      var rest := p.groups[e].holders - {h};
      if rest == {} then
        p.(groups := p.groups - {e}, runQue := p.runQue + [p.groups[e].task], resumed := p.resumed + [e])
      else
        p.(groups := p.groups[e := p.groups[e].(holders := rest)])
  }

  function DispatcherStep(p: Proc): (q: Proc)
    ensures SameGroups(p, q)
  {
    match p.pc
    case Top => PopRun(p, Dispatch, DrainIdle)
    case DrainIdle => Drain(p, PopAgain)
    case PopAgain => PopRun(p, Dispatch, WaitNew)
    case WaitNew =>
      if p.notified then p.(notified := false, pc := DrainWoken)
      else p.(waitting := true, signalled := false, pc := Asleep)
    case Asleep => p.(waitting := false, pc := DrainWoken)
    case DrainWoken => Drain(p, Top)
    case Dispatch => if p.running.Some? then p.(pc := Executing) else p.(pc := Top)
    case YieldCheck => p.(pc := if p.runQue == [] then YieldDrain else Requeue)
    case YieldDrain => Drain(p, Requeue)
    case Requeue =>
      if p.running.Some? then p.(runQue := p.runQue + [p.running.value], running := None, pc := PopNext)
      else p.(pc := PopNext)
    case PopNext => PopRun(p, Dispatch, Dispatch)
    case Parked => p.(running := p.next, next := None, pc := Dispatch)
    case DoneCheck => p.(pc := if p.runQue == [] then DoneDrain else DoneNext)
    case DoneDrain => Drain(p, DoneNext)
    case DoneNext =>
      if p.newQue != [] then p.(running := Some(p.newQue[0]), newQue := p.newQue[1..], pc := Dispatch)
      else p.(running := p.next, next := None, pc := Dispatch)
    case Executing => p
    case Suspended => p
  }

  /** suspendBySelf: a new control block, its copy in the wait set (an insertion that
      does nothing when the task is already there), and the next task to run. */
  function Suspend(p: Proc): Proc
    requires p.running.Some?
  {
    var t := p.running.value;
    var q := p.(
      pc := Suspended,
      entries := p.entries + 1,
      next := if p.runQue == [] then p.next else Some(p.runQue[0]),
      runQue := if p.runQue == [] then [] else p.runQue[1..]);
    if t in p.waitSet then
      q.(runQue := q.runQue + [t], resumed := p.resumed + [p.entries])
    else
      q.(waitSet := p.waitSet[t := p.entries],
         groups := p.groups[p.entries := Suspension(t, {InWaitSet})])
  }

  /** The wait set is keyed by task, so a wake-up erases whatever entry its task has. */
  function EraseWaiting(p: Proc, t: TaskId): Proc {
    if t in p.waitSet then Release(p.(waitSet := p.waitSet - {t}), p.waitSet[t], InWaitSet) else p
  }

  function MarkErased(p: Proc, c: nat, e: nat): Proc
    requires e in p.groups
  {
    var g := p.groups[e];
    p.(groups := p.groups[e := g.(holders := g.holders - {Locked(c)} + {Erased(c)})])
  }

  predicate Enabled(p: Proc, ev: Event) {
    match ev
    case Tick => p.pc != Executing && p.pc != Suspended
    case TaskYields => p.pc == Executing
    case TaskSuspends => p.pc == Executing && p.running.Some?
    case TaskParks => p.pc == Suspended
    case TaskFinishes => p.pc == Executing
    case AddTasks(_) => true
    case StealNew(_) => true
    case StealRun(_) => true
    case Lock(c, e) => e in p.groups ==> Locked(c) !in p.groups[e].holders && Erased(c) !in p.groups[e].holders
    case Erase(c, e) => e in p.groups && Locked(c) in p.groups[e].holders
    case Drop(c, e) => e in p.groups && Erased(c) in p.groups[e].holders
    case Notify => true
  }

  function Step(p: Proc, ev: Event): Proc
    requires Enabled(p, ev)
  {
    match ev
    case Tick => DispatcherStep(p)
    case TaskYields => p.(pc := YieldCheck)
    case TaskSuspends => Suspend(p)
    case TaskParks => p.(pc := Parked)
    case TaskFinishes => p.(pc := DoneCheck)
    case AddTasks(ts) => Signal(p.(newQue := p.newQue + ts))
    case StealNew(n) => p.(newQue := AllBut(p.newQue, n))
    case StealRun(n) => p.(runQue := AllBut(p.runQue, n))
    case Lock(c, e) =>
      if e in p.groups then
        var g := p.groups[e];
        p.(groups := p.groups[e := g.(holders := g.holders + {Locked(c)})])
      else p
    case Erase(c, e) => EraseWaiting(MarkErased(p, c, e), p.groups[e].task)
    case Drop(c, e) => Release(p, e, Erased(c))
    case Notify => Signal(p)
  }

  /** The tasks an event takes away from the processor: stolen ones, or the finished one. */
  function Removed(p: Proc, ev: Event): seq<TaskId> {
    match ev
    case StealNew(n) => LastOf(p.newQue, n)
    case StealRun(n) => LastOf(p.runQue, n)
    case Tick => if p.pc == DoneNext && p.running.Some? then [p.running.value] else []
    case _ => []
  }

  function Added(ev: Event): seq<TaskId> {
    if ev.AddTasks? then ev.tasks else []
  }

  // ------------------------------------------------------------------ ownership

  function Held(o: Option<TaskId>, t: TaskId): nat {
    if o == Some(t) then 1 else 0
  }

  /** After Suspend the running slot is only an alias of the task. */
  predicate Window(p: Proc) {
    p.pc == Suspended || p.pc == Parked
  }

  /** A live control block of the processor refers to the task. */
  predicate Blocked(p: Proc, t: TaskId) {
    exists e | e in p.groups :: p.groups[e].task == t
  }

  /** How many owners the task has in the processor. */
  function Owners(p: Proc, t: TaskId): nat {
    multiset(p.newQue)[t] + multiset(p.runQue)[t] + Held(p.next, t) +
    (if Blocked(p, t) then 1 else 0) + (if Window(p) then 0 else Held(p.running, t))
  }

  ghost predicate Distinct(p: Proc) {
    forall t :: Owners(p, t) <= 1
  }

  // ------------------------------------------------------------------ invariants

  predicate HasRunning(pc: Pc) {
    pc in {Executing, Suspended, YieldCheck, YieldDrain, Requeue, Parked, DoneCheck, DoneDrain, DoneNext}
  }

  ghost predicate SlotsOk(p: Proc) {
    && (HasRunning(p.pc) ==> p.running.Some?)
    && (p.running.Some? ==> HasRunning(p.pc) || p.pc == Dispatch)
    && (p.next.Some? ==> Window(p))
    && (Window(p) ==> Blocked(p, p.running.value) || p.running.value in p.runQue)
  }

  predicate OneGroupPerTask(groups: map<nat, Suspension>) {
    forall e, f | e in groups && f in groups && groups[e].task == groups[f].task :: e == f
  }

  ghost predicate GroupsOk(p: Proc) {
    && (forall e | e in p.groups :: e < p.entries && p.groups[e].holders != {})
    && OneGroupPerTask(p.groups)
    && (forall t | t in p.waitSet ::
          p.waitSet[t] in p.groups && p.groups[p.waitSet[t]].task == t)
    && (forall e | e in p.groups ::
          InWaitSet in p.groups[e].holders <==> p.groups[e].task in p.waitSet)
    && (forall e, c | e in p.groups && Erased(c) in p.groups[e].holders :: InWaitSet !in p.groups[e].holders)
  }

  /** Each suspension so far is either still referenced or has been resumed exactly once. */
  ghost predicate ResumedOk(p: Proc) {
    && (forall k | 0 <= k < |p.resumed| :: p.resumed[k] < p.entries && p.resumed[k] !in p.groups)
    && (forall j, k | 0 <= j < k < |p.resumed| :: p.resumed[j] != p.resumed[k])
    && (forall e: nat | e < p.entries && e !in p.groups :: e in p.resumed)
  }

  /** Never asleep without a pending signal while there is new work. */
  ghost predicate SignalOk(p: Proc) {
    && (p.waitting <==> p.pc == Asleep)
    && (p.pc in {PopAgain, WaitNew} && p.newQue != [] ==> p.notified)
    && (p.pc == Asleep && p.newQue != [] ==> p.signalled)
  }

  ghost predicate Inv(p: Proc) {
    SlotsOk(p) && GroupsOk(p) && ResumedOk(p) && SignalOk(p)
  }

  /** A steal must not take the task that is still on its way from Suspend to Yield. */
  predicate KeepsAlias(p: Proc, ev: Event) {
    ev.StealRun? && Window(p) && p.running.Some? ==> p.running.value !in LastOf(p.runQue, ev.n)
  }

  lemma FreshInv(t: TaskId)
    ensures Inv(FRESH) && Owners(FRESH, t) == 0
  {
  }

  // ------------------------------------------------------------------ ownership, step by step

  lemma Gained(s: seq<TaskId>, x: TaskId, t: TaskId)
    ensures multiset(s + [x])[t] == multiset(s)[t] + Held(Some(x), t)
  {
  }

  lemma Lost(s: seq<TaskId>, t: TaskId)
    requires s != []
    ensures multiset(s)[t] == Held(Some(s[0]), t) + multiset(s[1..])[t]
  {
    assert s == [s[0]] + s[1..];
  }

  lemma Joined(a: seq<TaskId>, b: seq<TaskId>, t: TaskId)
    ensures multiset(a + b)[t] == multiset(a)[t] + multiset(b)[t]
  {
  }

  lemma Split(s: seq<TaskId>, n: nat, t: TaskId)
    ensures multiset(s)[t] == multiset(AllBut(s, n))[t] + multiset(LastOf(s, n))[t]
  {
    Joined(AllBut(s, n), LastOf(s, n), t);
  }

  lemma SameBlocked(p: Proc, q: Proc, t: TaskId)
    requires p.groups.Keys == q.groups.Keys
    requires forall e | e in p.groups :: p.groups[e].task == q.groups[e].task
    ensures Blocked(p, t) <==> Blocked(q, t)
  {
    if Blocked(p, t) {
      var e :| e in p.groups && p.groups[e].task == t;
      assert e in q.groups && q.groups[e].task == t;
    }
    if Blocked(q, t) {
      var e :| e in q.groups && q.groups[e].task == t;
      assert e in p.groups && p.groups[e].task == t;
    }
  }

  lemma BlockedWithout(p: Proc, q: Proc, e: nat, t: TaskId)
    requires e in p.groups && OneGroupPerTask(p.groups)
    requires q.groups == p.groups - {e}
    ensures Blocked(p, t) <==> Blocked(q, t) || t == p.groups[e].task
    ensures !Blocked(q, p.groups[e].task)
  {
    if Blocked(p, t) && t != p.groups[e].task {
      var f :| f in p.groups && p.groups[f].task == t;
      assert f in q.groups && q.groups[f].task == t;
    }
  }

  lemma ReleaseSome(p: Proc, e: nat, h: Holder, t: TaskId)
    requires e in p.groups && p.groups[e].holders - {h} != {}
    ensures Owners(Release(p, e, h), t) == Owners(p, t)
  {
    SameBlocked(p, Release(p, e, h), t);
  }

  lemma ReleaseLast(p: Proc, e: nat, h: Holder, t: TaskId)
    requires e in p.groups && OneGroupPerTask(p.groups)
    requires e in p.groups && p.groups[e].holders - {h} == {}
    ensures Owners(Release(p, e, h), t) == Owners(p, t)
  {
    Gained(p.runQue, p.groups[e].task, t);
    BlockedWithout(p, Release(p, e, h), e, t);
  }

  /** Dropping a reference keeps the ownership: the last one moves the task from its
      control block to the run queue. */
  lemma ReleaseKeeps(p: Proc, e: nat, h: Holder, t: TaskId)
    requires e in p.groups ==> OneGroupPerTask(p.groups)
    ensures Owners(Release(p, e, h), t) == Owners(p, t)
  {
    if e in p.groups {
      if p.groups[e].holders - {h} == {} {
        ReleaseLast(p, e, h, t);
      } else {
        ReleaseSome(p, e, h, t);
      }
    }
  }

  lemma EraseKeeps(p: Proc, c: nat, e: nat, t: TaskId)
    requires e in p.groups && OneGroupPerTask(p.groups)
    ensures Owners(EraseWaiting(MarkErased(p, c, e), p.groups[e].task), t) == Owners(p, t)
  {
    var q := MarkErased(p, c, e);
    SameBlocked(p, q, t);
    var x := p.groups[e].task;
    if x in q.waitSet {
      var r := q.(waitSet := q.waitSet - {x});
      SameBlocked(q, r, t);
      ReleaseKeeps(r, q.waitSet[x], InWaitSet, t);
    }
  }

  lemma DrainKeeps(p: Proc, pc: Pc, t: TaskId)
    requires Window(p) == Window(p.(pc := pc))
    ensures Owners(Drain(p, pc), t) == Owners(p, t)
  {
    Joined(p.runQue, p.newQue, t);
    SameBlocked(p, Drain(p, pc), t);
  }

  lemma PopRunKeeps(p: Proc, found: Pc, empty: Pc, t: TaskId)
    requires p.running.None? && !Window(p) && !Window(p.(pc := found)) && !Window(p.(pc := empty))
    ensures Owners(PopRun(p, found, empty), t) == Owners(p, t)
  {
    SameBlocked(p, PopRun(p, found, empty), t);
    if p.runQue != [] {
      Lost(p.runQue, t);
    }
  }

  /** A task that starts to wait has no wait-set entry yet. */
  lemma RunningIsNotWaiting(p: Proc)
    requires GroupsOk(p) && Distinct(p) && p.pc == Executing && p.running.Some?
    ensures p.running.value !in p.waitSet && !Blocked(p, p.running.value)
  {
    var t := p.running.value;
    assert Owners(p, t) <= 1;
  }

  lemma SuspendKeeps(p: Proc, t: TaskId)
    requires Inv(p) && Distinct(p) && p.pc == Executing
    ensures Owners(Suspend(p), t) == Owners(p, t)
  {
    RunningIsNotWaiting(p);
    var q := Suspend(p);
    if p.runQue != [] {
      Lost(p.runQue, t);
    }
    if Blocked(p, t) {
      var f :| f in p.groups && p.groups[f].task == t;
      assert f in q.groups && q.groups[f].task == t;
    }
    if t == p.running.value {
      assert p.entries in q.groups && q.groups[p.entries].task == t;
    }
  }

  lemma RequeueKeeps(p: Proc, t: TaskId)
    requires p.pc == Requeue
    ensures Owners(DispatcherStep(p), t) == Owners(p, t)
  {
    SameBlocked(p, DispatcherStep(p), t);
    if p.running.Some? {
      Gained(p.runQue, p.running.value, t);
    }
  }

  lemma DoneNextKeeps(p: Proc, t: TaskId)
    requires p.pc == DoneNext && p.running.Some? && p.next.None?
    ensures Owners(DispatcherStep(p), t) + Held(p.running, t) == Owners(p, t)
  {
    if p.newQue != [] {
      TakeNewKeeps(p, t);
    } else {
      SameBlocked(p, DispatcherStep(p), t);
    }
  }

  lemma TakeNewKeeps(p: Proc, t: TaskId)
    requires p.next.None? && p.newQue != [] && !Window(p)
    ensures var q := p.(running := Some(p.newQue[0]), newQue := p.newQue[1..], pc := Dispatch);
      Owners(q, t) + Held(p.running, t) == Owners(p, t)
  {
    var q := p.(running := Some(p.newQue[0]), newQue := p.newQue[1..], pc := Dispatch);
    SameBlocked(p, q, t);
    Lost(p.newQue, t);
  }

  lemma QuietKeeps(p: Proc, q: Proc, t: TaskId)
    requires q.newQue == p.newQue && q.runQue == p.runQue && q.next == p.next && q.running == p.running
    requires q.groups == p.groups && Window(q) == Window(p)
    ensures Owners(q, t) == Owners(p, t)
  {
    SameBlocked(p, q, t);
  }

  /** The dispatcher steps that touch no queue. */
  lemma QuietTickKeeps(p: Proc, t: TaskId)
    requires p.pc in {WaitNew, Asleep, Dispatch, YieldCheck, DoneCheck}
    ensures Owners(DispatcherStep(p), t) == Owners(p, t)
  {
    QuietKeeps(p, DispatcherStep(p), t);
  }

  lemma ParkedKeeps(p: Proc, t: TaskId)
    requires p.pc == Parked
    ensures Owners(DispatcherStep(p), t) == Owners(p, t)
  {
    SameBlocked(p, DispatcherStep(p), t);
  }

  lemma DoneOwners(p: Proc, t: TaskId)
    requires p.pc == DoneNext && p.running.Some? && p.next.None?
    ensures Owners(DispatcherStep(p), t) + multiset(Removed(p, Tick))[t] == Owners(p, t)
  {
    DoneNextKeeps(p, t);
  }

  lemma TickKeeps(p: Proc, t: TaskId)
    requires SlotsOk(p) && Enabled(p, Tick) && p.pc != DoneNext
    ensures Owners(DispatcherStep(p), t) == Owners(p, t)
  {
    if p.pc in {Top, PopAgain, PopNext} {
      TickPopKeeps(p, t);
    } else if p.pc in {DrainIdle, DrainWoken, YieldDrain, DoneDrain} {
      TickDrainKeeps(p, t);
    } else if p.pc == Requeue {
      RequeueKeeps(p, t);
    } else if p.pc == Parked {
      ParkedKeeps(p, t);
    } else {
      QuietTickKeeps(p, t);
    }
  }

  lemma TickPopKeeps(p: Proc, t: TaskId)
    requires SlotsOk(p) && p.pc in {Top, PopAgain, PopNext}
    ensures Owners(DispatcherStep(p), t) == Owners(p, t)
  {
    PopRunKeeps(p, Dispatch, if p.pc == Top then DrainIdle else if p.pc == PopAgain then WaitNew else Dispatch, t);
  }

  lemma TickDrainKeeps(p: Proc, t: TaskId)
    requires p.pc in {DrainIdle, DrainWoken, YieldDrain, DoneDrain}
    ensures Owners(DispatcherStep(p), t) == Owners(p, t)
  {
    DrainKeeps(p, DispatcherStep(p).pc, t);
  }

  lemma TickOwners(p: Proc, t: TaskId)
    requires SlotsOk(p) && Enabled(p, Tick)
    ensures Owners(DispatcherStep(p), t) + multiset(Removed(p, Tick))[t] == Owners(p, t)
  {
    if p.pc == DoneNext {
      DoneOwners(p, t);
    } else {
      TickKeeps(p, t);
    }
  }

  lemma AddOwners(p: Proc, ts: seq<TaskId>, t: TaskId)
    ensures Owners(Step(p, AddTasks(ts)), t) == Owners(p, t) + multiset(ts)[t]
  {
    Joined(p.newQue, ts, t);
    SameBlocked(p, Step(p, AddTasks(ts)), t);
  }

  lemma StealNewOwners(p: Proc, n: nat, t: TaskId)
    ensures Owners(Step(p, StealNew(n)), t) + multiset(LastOf(p.newQue, n))[t] == Owners(p, t)
  {
    Split(p.newQue, n, t);
    SameBlocked(p, Step(p, StealNew(n)), t);
  }

  lemma StealRunOwners(p: Proc, n: nat, t: TaskId)
    ensures Owners(Step(p, StealRun(n)), t) + multiset(LastOf(p.runQue, n))[t] == Owners(p, t)
  {
    Split(p.runQue, n, t);
    SameBlocked(p, Step(p, StealRun(n)), t);
  }

  /** Events that change neither a queue nor a slot nor which suspensions there are. */
  lemma PlainKeeps(p: Proc, ev: Event, t: TaskId)
    requires Enabled(p, ev)
    requires ev.TaskYields? || ev.TaskParks? || ev.TaskFinishes? || ev.Lock? || ev.Notify?
    ensures Owners(Step(p, ev), t) == Owners(p, t)
  {
    SameBlocked(p, Step(p, ev), t);
  }

  /** Conservation of owners by every event, for every task: what the processor owned plus
      what it was given is what it owns afterwards plus what was taken away or finished. */
  lemma StepOwners(p: Proc, ev: Event, t: TaskId)
    requires Inv(p) && Distinct(p) && Enabled(p, ev)
    ensures Owners(Step(p, ev), t) + multiset(Removed(p, ev))[t] == Owners(p, t) + multiset(Added(ev))[t]
  {
    match ev
    case Tick => TickOwners(p, t);
    case TaskSuspends => SuspendKeeps(p, t);
    case AddTasks(ts) => AddOwners(p, ts, t);
    case StealNew(n) => StealNewOwners(p, n, t);
    case StealRun(n) => StealRunOwners(p, n, t);
    case Erase(c, e) => EraseKeeps(p, c, e, t);
    case Drop(c, e) => ReleaseKeeps(p, e, Erased(c), t);
    case _ => PlainKeeps(p, ev, t);
  }

  predicate NoRepeats(ts: seq<TaskId>) {
    forall j, k | 0 <= j < k < |ts| :: ts[j] != ts[k]
  }

  lemma CountOfDistinct(ts: seq<TaskId>, t: TaskId)
    requires NoRepeats(ts)
    ensures multiset(ts)[t] == if t in ts then 1 else 0
  {
    if ts != [] {
      var n := |ts| - 1;
      CountOfDistinct(ts[..n], t);
      assert ts == ts[..n] + [ts[n]];
    }
  }

  /** No task gets a second owner in the processor, if tasks handed in have none there. */
  lemma StepDistinct(p: Proc, ev: Event)
    requires Inv(p) && Distinct(p) && Enabled(p, ev)
    requires NoRepeats(Added(ev)) && forall t | t in Added(ev) :: Owners(p, t) == 0
    ensures Distinct(Step(p, ev))
  {
    forall t ensures Owners(Step(p, ev), t) <= 1 {
      StepOwners(p, ev, t);
      CountOfDistinct(Added(ev), t);
      assert Owners(p, t) <= 1;
    }
  }

  // ------------------------------------------------------------------ invariants, step by step

  lemma StepSignal(p: Proc, ev: Event)
    requires SignalOk(p) && Enabled(p, ev)
    ensures SignalOk(Step(p, ev))
  {
    match ev
    case Tick => TickSignal(p);
    case TaskSuspends => SuspendSignal(p);
    case Erase(c, e) => EraseSignal(MarkErased(p, c, e), p.groups[e].task);
    case Drop(c, e) => ReleaseSignal(p, e, Erased(c));
    case _ => OtherSignal(p, ev);
  }

  lemma TickSignal(p: Proc)
    requires SignalOk(p)
    ensures SignalOk(DispatcherStep(p))
  {
    if p.pc in {Top, DrainIdle, PopAgain, WaitNew, Asleep, DrainWoken} {
      IdleSignal(p);
    } else if p.pc in {PopNext, Requeue, YieldCheck, YieldDrain} {
      YieldSignal(p);
    } else {
      TaskSignal(p);
    }
  }

  lemma IdleSignal(p: Proc)
    requires SignalOk(p) && p.pc in {Top, DrainIdle, PopAgain, WaitNew, Asleep, DrainWoken}
    ensures SignalOk(DispatcherStep(p))
  {
  }

  lemma YieldSignal(p: Proc)
    requires SignalOk(p) && p.pc in {PopNext, Requeue, YieldCheck, YieldDrain}
    ensures SignalOk(DispatcherStep(p))
  {
  }

  lemma TaskSignal(p: Proc)
    requires SignalOk(p) && p.pc in {Dispatch, Executing, Suspended, Parked, DoneCheck, DoneDrain, DoneNext}
    ensures SignalOk(DispatcherStep(p))
  {
  }

  lemma SuspendSignal(p: Proc)
    requires SignalOk(p) && p.pc == Executing && p.running.Some?
    ensures SignalOk(Suspend(p))
  {
  }

  lemma ReleaseSignal(p: Proc, e: nat, h: Holder)
    requires SignalOk(p)
    ensures SignalOk(Release(p, e, h))
  {
  }

  lemma OtherSignal(p: Proc, ev: Event)
    requires SignalOk(p) && Enabled(p, ev)
    requires ev.TaskYields? || ev.TaskParks? || ev.TaskFinishes? || ev.AddTasks? || ev.StealNew? || ev.StealRun? || ev.Lock? || ev.Notify?
    ensures SignalOk(Step(p, ev))
  {
  }

  lemma EraseSignal(p: Proc, t: TaskId)
    requires SignalOk(p)
    ensures SignalOk(EraseWaiting(p, t))
  {
    if t in p.waitSet {
      ReleaseSignal(p.(waitSet := p.waitSet - {t}), p.waitSet[t], InWaitSet);
    }
  }

  lemma StepGroups(p: Proc, ev: Event)
    requires GroupsOk(p) && Distinct(p) && Enabled(p, ev) && SlotsOk(p)
    ensures GroupsOk(Step(p, ev))
  {
    match ev
    case TaskSuspends => RunningIsNotWaiting(p); SuspendGroups(p);
    case Lock(c, e) => LockGroups(p, c, e);
    case Erase(c, e) => EraseGroups(p, c, e);
    case Drop(c, e) => DropGroups(p, c, e);
    case _ => OtherFrame(p, ev);
  }

  predicate TouchesGroups(ev: Event) {
    ev.TaskSuspends? || ev.Lock? || ev.Erase? || ev.Drop?
  }

  lemma OtherFrame(p: Proc, ev: Event)
    requires Enabled(p, ev) && !TouchesGroups(ev)
    ensures SameGroups(p, Step(p, ev))
  {
  }

  lemma SuspendGroups(p: Proc)
    requires GroupsOk(p) && p.running.Some?
    requires p.running.value !in p.waitSet && !Blocked(p, p.running.value)
    ensures GroupsOk(Suspend(p))
  {
  }

  lemma LockGroups(p: Proc, c: nat, e: nat)
    requires GroupsOk(p) && Enabled(p, Lock(c, e))
    ensures GroupsOk(Step(p, Lock(c, e)))
  {
  }

  /** A wake-up erases the wait-set copy of its own suspension and no other: its task
      cannot have been suspended again while the wake-up still holds a reference. */
  lemma EraseIsOwn(p: Proc, c: nat, e: nat)
    requires GroupsOk(p) && Enabled(p, Erase(c, e))
    ensures Step(p, Erase(c, e)) ==
      p.(waitSet := p.waitSet - {p.groups[e].task},
         groups := p.groups[e := p.groups[e].(holders := p.groups[e].holders - {Locked(c), InWaitSet} + {Erased(c)})])
  {
    var g := p.groups[e];
    var q := MarkErased(p, c, e);
    if g.task in p.waitSet {
      assert p.waitSet[g.task] == e;
      var rest := q.groups[e].holders - {InWaitSet};
      assert Erased(c) in rest;
      assert rest == g.holders - {Locked(c), InWaitSet} + {Erased(c)};
      assert q.groups[e := g.(holders := rest)] == p.groups[e := g.(holders := rest)];
    } else {
      assert g.holders - {Locked(c), InWaitSet} == g.holders - {Locked(c)};
      assert p.waitSet - {g.task} == p.waitSet;
    }
  }

  lemma EraseGroups(p: Proc, c: nat, e: nat)
    requires GroupsOk(p) && Enabled(p, Erase(c, e))
    ensures GroupsOk(Step(p, Erase(c, e)))
  {
    EraseIsOwn(p, c, e);
  }

  lemma DropGroups(p: Proc, c: nat, e: nat)
    requires GroupsOk(p) && Enabled(p, Drop(c, e))
    ensures GroupsOk(Step(p, Drop(c, e)))
  {
    var q := Step(p, Drop(c, e));
    if e in q.groups {
      DropSomeGroups(p, c, e);
    } else {
      DropLastGroups(p, c, e);
    }
  }

  lemma DropSomeGroups(p: Proc, c: nat, e: nat)
    requires GroupsOk(p) && Enabled(p, Drop(c, e)) && e in Step(p, Drop(c, e)).groups
    ensures GroupsOk(Step(p, Drop(c, e)))
  {
    var q := Step(p, Drop(c, e));
    assert q == p.(groups := p.groups[e := p.groups[e].(holders := p.groups[e].holders - {Erased(c)})]);
  }

  lemma DropLastGroups(p: Proc, c: nat, e: nat)
    requires GroupsOk(p) && Enabled(p, Drop(c, e)) && e !in Step(p, Drop(c, e)).groups
    ensures GroupsOk(Step(p, Drop(c, e)))
  {
    var q := Step(p, Drop(c, e));
    assert q.groups == p.groups - {e} && q.waitSet == p.waitSet && q.entries == p.entries;
    assert InWaitSet !in p.groups[e].holders;
    WithoutGroup(p, q, e);
  }

  lemma WithoutGroup(p: Proc, q: Proc, e: nat)
    requires GroupsOk(p) && e in p.groups && InWaitSet !in p.groups[e].holders
    requires q.groups == p.groups - {e} && q.waitSet == p.waitSet && q.entries == p.entries
    ensures GroupsOk(q)
  {
  }

  lemma StepResumed(p: Proc, ev: Event)
    requires GroupsOk(p) && ResumedOk(p) && Distinct(p) && Enabled(p, ev) && SlotsOk(p)
    ensures ResumedOk(Step(p, ev))
  {
    match ev
    case TaskSuspends => RunningIsNotWaiting(p); SuspendResumed(p);
    case Lock(c, e) => SameKeysResumed(p, Step(p, ev));
    case Erase(c, e) => EraseIsOwn(p, c, e); SameKeysResumed(p, Step(p, ev));
    case Drop(c, e) => DropResumed(p, c, e);
    case _ => OtherFrame(p, ev); SameKeysResumed(p, Step(p, ev));
  }

  lemma SameKeysResumed(p: Proc, q: Proc)
    requires ResumedOk(p) && q.groups.Keys == p.groups.Keys && q.resumed == p.resumed && q.entries == p.entries
    ensures ResumedOk(q)
  {
  }

  lemma SuspendResumed(p: Proc)
    requires GroupsOk(p) && ResumedOk(p) && p.running.Some? && p.running.value !in p.waitSet
    ensures ResumedOk(Suspend(p))
  {
  }

  lemma DropResumed(p: Proc, c: nat, e: nat)
    requires GroupsOk(p) && ResumedOk(p) && Enabled(p, Drop(c, e))
    ensures ResumedOk(Step(p, Drop(c, e)))
  {
    var q := Step(p, Drop(c, e));
    if p.groups[e].holders - {Erased(c)} == {} {
      OneMoreResumed(p, q, e);
    } else {
      SameKeysResumed(p, q);
    }
  }

  lemma OneMoreResumed(p: Proc, q: Proc, e: nat)
    requires ResumedOk(p) && e in p.groups && e < p.entries
    requires q.groups == p.groups - {e} && q.resumed == p.resumed + [e] && q.entries == p.entries
    ensures ResumedOk(q)
  {
  }

  lemma StepSlots(p: Proc, ev: Event)
    requires Inv(p) && Distinct(p) && Enabled(p, ev) && KeepsAlias(p, ev)
    ensures SlotsOk(Step(p, ev))
  {
    match ev
    case Tick => TickSlots(p);
    case TaskSuspends => SuspendSlots(p);
    case _ =>
      SlotFrame(p, ev);
      if Window(p) {
        StepAlias(p, ev);
      }
  }

  lemma TickSlots(p: Proc)
    requires SlotsOk(p) && Enabled(p, Tick)
    ensures SlotsOk(DispatcherStep(p))
  {
    if p.pc in {Top, PopAgain, PopNext} {
      PopSlots(p);
    } else if p.pc in {Dispatch, Requeue} {
      DispatchSlots(p);
    } else if p.pc in {Parked, DoneNext} {
      NextSlots(p);
    } else {
      QuietSlots(p);
    }
  }

  lemma PopSlots(p: Proc)
    requires SlotsOk(p) && p.pc in {Top, PopAgain, PopNext}
    ensures SlotsOk(DispatcherStep(p))
  {
    PopRunSlots(p, if p.pc == Top then DrainIdle else if p.pc == PopAgain then WaitNew else Dispatch);
  }

  lemma PopRunSlots(p: Proc, empty: Pc)
    requires p.running.None? && p.next.None? && !HasRunning(empty)
    ensures SlotsOk(PopRun(p, Dispatch, empty))
  {
  }

  lemma DispatchSlots(p: Proc)
    requires SlotsOk(p) && p.pc in {Dispatch, Requeue}
    ensures SlotsOk(DispatcherStep(p))
  {
  }

  lemma NextSlots(p: Proc)
    requires SlotsOk(p) && p.pc in {Parked, DoneNext}
    ensures SlotsOk(DispatcherStep(p))
  {
  }

  lemma QuietSlots(p: Proc)
    requires SlotsOk(p) && Enabled(p, Tick)
    requires p.pc in {DrainIdle, WaitNew, Asleep, DrainWoken, YieldCheck, YieldDrain, DoneCheck, DoneDrain}
    ensures SlotsOk(DispatcherStep(p))
  {
  }

  lemma SuspendSlots(p: Proc)
    requires GroupsOk(p) && SlotsOk(p) && Distinct(p) && p.pc == Executing
    ensures SlotsOk(Suspend(p))
  {
    RunningIsNotWaiting(p);
    var q := Suspend(p);
    assert q.groups[p.entries].task == p.running.value;
  }

  lemma SlotFrame(p: Proc, ev: Event)
    requires Enabled(p, ev) && !ev.Tick? && !ev.TaskSuspends?
    ensures var q := Step(p, ev);
      q.running == p.running && q.next == p.next && (Window(p) <==> Window(q)) &&
      (q.pc == p.pc || (p.pc == Executing && (q.pc == YieldCheck || q.pc == DoneCheck)) || (p.pc == Suspended && q.pc == Parked))
  {
    match ev
    case Erase(c, e) => EraseFrame(MarkErased(p, c, e), p.groups[e].task);
    case Drop(c, e) => ReleaseFrame(p, e, Erased(c));
    case _ =>
  }

  lemma ReleaseFrame(p: Proc, e: nat, h: Holder)
    ensures var q := Release(p, e, h); q.running == p.running && q.next == p.next && q.pc == p.pc
  {
  }

  lemma EraseFrame(p: Proc, t: TaskId)
    ensures var q := EraseWaiting(p, t); q.running == p.running && q.next == p.next && q.pc == p.pc
  {
    if t in p.waitSet {
      ReleaseFrame(p.(waitSet := p.waitSet - {t}), p.waitSet[t], InWaitSet);
    }
  }

  lemma StepAlias(p: Proc, ev: Event)
    requires Inv(p) && Distinct(p) && Enabled(p, ev) && KeepsAlias(p, ev)
    requires Window(p) && !ev.Tick? && !ev.TaskSuspends?
    ensures Blocked(Step(p, ev), p.running.value) || p.running.value in Step(p, ev).runQue
  {
    var q, t := Step(p, ev), p.running.value;
    match ev
    case Lock(c, e) => SameBlocked(p, q, t);
    case Erase(c, e) => EraseIsOwn(p, c, e); SameBlocked(p, q, t);
    case Drop(c, e) => DropAlias(p, c, e, t);
    case StealRun(n) =>
      SameBlocked(p, q, t);
      assert p.runQue == q.runQue + LastOf(p.runQue, n);
    case _ => SameBlocked(p, q, t);
  }

  lemma DropAlias(p: Proc, c: nat, e: nat, t: TaskId)
    requires GroupsOk(p) && Enabled(p, Drop(c, e))
    requires Blocked(p, t) || t in p.runQue
    ensures Blocked(Step(p, Drop(c, e)), t) || t in Step(p, Drop(c, e)).runQue
  {
    var q := Step(p, Drop(c, e));
    if Blocked(p, t) {
      var f :| f in p.groups && p.groups[f].task == t;
      assert f in q.groups ==> q.groups[f].task == t;
    }
  }

  /** Every event keeps the invariant; a steal must leave alone the task that is still on
      its way from Suspend to Yield. */
  lemma StepInv(p: Proc, ev: Event)
    requires Inv(p) && Distinct(p) && Enabled(p, ev) && KeepsAlias(p, ev)
    ensures Inv(Step(p, ev))
  {
    StepSlots(p, ev);
    StepGroups(p, ev);
    StepResumed(p, ev);
    StepSignal(p, ev);
  }

  /** The condition on steals is exact: taking that task breaks the invariant. */
  lemma StealIsSafeIff(p: Proc, n: nat)
    requires Inv(p) && Distinct(p)
    ensures Inv(Step(p, StealRun(n))) <==> !(Window(p) && p.running.value in LastOf(p.runQue, n))
  {
    var ev := StealRun(n);
    if KeepsAlias(p, ev) {
      StepInv(p, ev);
    } else {
      var t := p.running.value;
      assert Owners(p, t) <= 1;
      Split(p.runQue, n, t);
      SameBlocked(p, Step(p, ev), t);
      assert multiset(LastOf(p.runQue, n))[t] >= 1;
    }
  }

  // ------------------------------------------------------------------ runs of one processor

  /** The state after a sequence of events, if each is enabled when its turn comes. */
  function RunOne(p: Proc, evs: seq<Event>): Option<Proc>
    decreases |evs|
  {
    if evs == [] then Some(p)
    else
      var before := RunOne(p, evs[..|evs| - 1]);
      var ev := evs[|evs| - 1];
      if before.Some? && Enabled(before.value, ev) then Some(Step(before.value, ev)) else None
  }

  ghost predicate Reaches(p: Proc, q: Proc) {
    exists evs :: RunOne(p, evs) == Some(q)
  }

  predicate Leads(p: Proc, ev: Event, q: Proc) {
    Enabled(p, ev) && Step(p, ev) == q
  }

  lemma {:induction false} RunTwo(p: Proc, evs: seq<Event>, more: seq<Event>)
    requires RunOne(p, evs).Some?
    ensures RunOne(p, evs + more) == RunOne(RunOne(p, evs).value, more)
    decreases |more|
  {
    if more == [] {
      assert evs + more == evs;
    } else {
      var n := |more| - 1;
      var all := evs + more;
      RunTwo(p, evs, more[..n]);
      assert all[..|all| - 1] == evs + more[..n] && all[|all| - 1] == more[n];
      RunLast(p, all);
      RunLast(RunOne(p, evs).value, more);
    }
  }

  lemma RunLast(p: Proc, evs: seq<Event>)
    requires evs != []
    ensures RunOne(p, evs) ==
      var before, ev := RunOne(p, evs[..|evs| - 1]), evs[|evs| - 1];
      if before.Some? && Enabled(before.value, ev) then Some(Step(before.value, ev)) else None
  {
  }

  lemma ReachesMore(p: Proc, q: Proc, ev: Event, r: Proc)
    requires Reaches(p, q) && Leads(q, ev, r)
    ensures Reaches(p, r)
  {
    var evs :| RunOne(p, evs) == Some(q);
    assert (evs + [ev])[..|evs|] == evs;
    assert RunOne(p, evs + [ev]) == Some(r);
  }

  /** A processor that has been given task 7 and executes it. */
  const BUSY := FRESH.(pc := Executing, running := Some(7), notified := true)

  /** The stages that lead there. */
  function Given(pc: Pc, running: Option<TaskId>, runQue: seq<TaskId>, newQue: seq<TaskId>): Proc {
    FRESH.(notified := true, pc := pc, running := running, runQue := runQue, newQue := newQue)
  }

  lemma BusyStages()
    ensures Leads(FRESH, AddTasks([7]), Given(Top, None, [], [7]))
    ensures Leads(Given(Top, None, [], [7]), Tick, Given(DrainIdle, None, [], [7]))
    ensures Leads(Given(DrainIdle, None, [], [7]), Tick, Given(PopAgain, None, [7], []))
    ensures Leads(Given(PopAgain, None, [7], []), Tick, Given(Dispatch, Some(7), [], []))
    ensures Leads(Given(Dispatch, Some(7), [], []), Tick, BUSY)
  {
  }

  lemma ReachesSelf(p: Proc)
    ensures Reaches(p, p)
  {
    assert RunOne(p, []) == Some(p);
  }

  lemma ReachesBusy()
    ensures Reaches(FRESH, BUSY)
  {
    ReachesSelf(FRESH);
    BusyStages();
    ReachesMore(FRESH, FRESH, AddTasks([7]), Given(Top, None, [], [7]));
    ReachesMore(FRESH, Given(Top, None, [], [7]), Tick, Given(DrainIdle, None, [], [7]));
    ReachesMore(FRESH, Given(DrainIdle, None, [], [7]), Tick, Given(PopAgain, None, [7], []));
    ReachesMore(FRESH, Given(PopAgain, None, [7], []), Tick, Given(Dispatch, Some(7), [], []));
    ReachesMore(FRESH, Given(Dispatch, Some(7), [], []), Tick, BUSY);
  }

  /** Task 7 has suspended itself and has been woken again, but has not yielded yet. */
  const WOKEN_EARLY := BUSY.(pc := Suspended, runQue := [7], entries := 1, resumed := [0])

  /** The same before the wake-up, its first suspension still referenced by `holders`. */
  function Waiting(waitSet: map<TaskId, nat>, holders: set<Holder>): Proc {
    BUSY.(pc := Suspended, entries := 1, waitSet := waitSet, groups := map[0 := Suspension(7, holders)])
  }

  lemma EarlySuspend()
    ensures Leads(BUSY, TaskSuspends, Waiting(map[7 := 0], {InWaitSet}))
  {
  }

  lemma EarlyLock()
    ensures Leads(Waiting(map[7 := 0], {InWaitSet}), Lock(1, 0), Waiting(map[7 := 0], {InWaitSet, Locked(1)}))
  {
    assert {InWaitSet} + {Locked(1)} == {InWaitSet, Locked(1)};
  }

  lemma EarlyErase()
    ensures Leads(Waiting(map[7 := 0], {InWaitSet, Locked(1)}), Erase(1, 0), Waiting(map[], {Erased(1)}))
  {
    var p := Waiting(map[7 := 0], {InWaitSet, Locked(1)});
    var m := MarkErased(p, 1, 0);
    assert m.groups[0].holders == {InWaitSet, Erased(1)};
    assert m.groups[0].holders - {InWaitSet} == {Erased(1)};
    assert m.waitSet - {7} == map[];
  }

  lemma EarlyDrop()
    ensures Leads(Waiting(map[], {Erased(1)}), Drop(1, 0), WOKEN_EARLY)
  {
    var p := Waiting(map[], {Erased(1)});
    assert p.groups - {0} == map[];
    assert p.groups[0].holders - {Erased(1)} == {};
  }

  lemma ReachesWokenEarly()
    ensures Reaches(FRESH, WOKEN_EARLY)
  {
    ReachesBusy();
    EarlySuspend();
    ReachesMore(FRESH, BUSY, TaskSuspends, Waiting(map[7 := 0], {InWaitSet}));
    EarlyLock();
    ReachesMore(FRESH, Waiting(map[7 := 0], {InWaitSet}), Lock(1, 0), Waiting(map[7 := 0], {InWaitSet, Locked(1)}));
    EarlyErase();
    ReachesMore(FRESH, Waiting(map[7 := 0], {InWaitSet, Locked(1)}), Erase(1, 0), Waiting(map[], {Erased(1)}));
    EarlyDrop();
    ReachesMore(FRESH, Waiting(map[], {Erased(1)}), Drop(1, 0), WOKEN_EARLY);
  }

  /** The unsafe steal does occur: a task that is woken between its Suspend and its Yield sits
      in the run queue while it still executes, and a steal of one task takes it from there. */
  lemma StealCanTakeTheExecutingTask()
    ensures exists p :: Reaches(FRESH, p) && p.pc == Suspended && p.running.Some? &&
              LastOf(p.runQue, 1) == [p.running.value]
  {
    ReachesWokenEarly();
  }
}
