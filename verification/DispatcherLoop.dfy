/** What the straight-line regions of the dispatcher loop do to a processor, and that each is a
    sequence of steps of the state machine in ProcessorMachine. */
module DispatcherLoops {
  import opened Common
  import opened ProcessorMachine

  /** `k` dispatcher steps in a row. */
  function Ticks(p: Proc, k: nat): Proc
    decreases k
  {
    if k == 0 then p else Ticks(DispatcherStep(p), k - 1)
  }

  function Selected(p: Proc): Proc {
    var line := if p.runQue == [] then p.newQue else p.runQue;
    var rest := if p.runQue == [] then [] else p.newQue;
    if line != [] then
      p.(runQue := line[1..], running := Some(line[0]), newQue := rest, pc := Dispatch)
    else if p.notified then
      p.(notified := false, pc := DrainWoken)
    else
      p.(waitting := true, signalled := false, pc := Asleep)
  }

  function AfterYield(p: Proc): Proc
    requires p.running.Some?
  {
    var line := (if p.runQue == [] then p.newQue else p.runQue) + [p.running.value];
    p.(runQue := line[1..], running := Some(line[0]), newQue := if p.runQue == [] then [] else p.newQue, pc := Dispatch)
  }

  function AfterDone(p: Proc): Proc {
    if p.runQue == [] then
      p.(runQue := p.newQue, newQue := [], running := p.next, next := None, pc := Dispatch)
    else if p.newQue != [] then
      p.(newQue := p.newQue[1..], running := Some(p.newQue[0]), pc := Dispatch)
    else
      p.(running := p.next, next := None, pc := Dispatch)
  }

  function AfterPark(p: Proc): Proc {
    p.(running := p.next, next := None, pc := Dispatch)
  }

  lemma IdleTicks(p: Proc)
    requires p.pc == Top && p.runQue == [] && p.running.None?
    ensures Ticks(p, 3) == PopRun(p.(runQue := p.newQue, newQue := []), Dispatch, WaitNew)
    ensures Ticks(p, 4) == DispatcherStep(Ticks(p, 3))
  {
    var a := DispatcherStep(p);
    assert a == p.(pc := DrainIdle);
    var b := DispatcherStep(a);
    assert [] + p.newQue == p.newQue;
    assert b == p.(runQue := p.newQue, newQue := [], pc := PopAgain);
    assert Ticks(p, 3) == Ticks(a, 2) == Ticks(b, 1);
    assert Ticks(p, 4) == Ticks(a, 3) == Ticks(b, 2) == Ticks(DispatcherStep(b), 1);
  }

  /** The head of the outer loop is one step of the machine when the run queue has a task, three
      when only the new queue has one, and four, into the wait, when neither has. */
  lemma SelectTicks(p: Proc)
    requires p.pc == Top && p.running.None?
    ensures Selected(p) == Ticks(p, if p.runQue != [] then 1 else if p.newQue != [] then 3 else 4)
  {
    if p.runQue == [] {
      IdleTicks(p);
      SelectedWhenIdle(p);
    } else {
      assert Ticks(p, 1) == Ticks(DispatcherStep(p), 0);
    }
  }

  lemma SelectedWhenIdle(p: Proc)
    requires p.runQue == [] && p.running.None?
    ensures var q := PopRun(p.(runQue := p.newQue, newQue := []), Dispatch, WaitNew);
      Selected(p) == if p.newQue != [] then q else DispatcherStep(q)
  {
  }

  lemma RequeueTicks(p: Proc)
    requires p.pc == Requeue && p.running.Some?
    ensures var line := p.runQue + [p.running.value];
      Ticks(p, 2) == p.(runQue := line[1..], running := Some(line[0]), pc := Dispatch)
  {
    assert Ticks(p, 2) == Ticks(DispatcherStep(p), 1) == Ticks(DispatcherStep(DispatcherStep(p)), 0);
  }

  lemma YieldTicks(p: Proc)
    requires p.pc == Executing && p.running.Some?
    ensures AfterYield(p) == Ticks(Step(p, TaskYields), if p.runQue == [] then 4 else 3)
  {
    var y := Step(p, TaskYields);
    if p.runQue == [] {
      assert [] + p.newQue == p.newQue;
      var b := p.(runQue := p.newQue, newQue := [], pc := Requeue);
      assert DispatcherStep(DispatcherStep(y)) == b;
      assert Ticks(y, 4) == Ticks(DispatcherStep(y), 3) == Ticks(b, 2);
      RequeueTicks(b);
    } else {
      var a := p.(pc := Requeue);
      assert DispatcherStep(y) == a;
      assert Ticks(y, 3) == Ticks(a, 2);
      RequeueTicks(a);
    }
  }

  lemma DoneTicks(p: Proc)
    requires p.pc == Executing
    ensures AfterDone(p) == Ticks(Step(p, TaskFinishes), if p.runQue == [] then 3 else 2)
  {
    var y := Step(p, TaskFinishes);
    var a := DispatcherStep(y);
    if p.runQue == [] {
      var b := DispatcherStep(a);
      assert [] + p.newQue == p.newQue;
      assert b == p.(runQue := p.newQue, newQue := [], pc := DoneNext);
      assert Ticks(y, 3) == Ticks(a, 2) == Ticks(b, 1);
    } else {
      assert Ticks(y, 2) == Ticks(a, 1);
    }
  }

  lemma ParkTicks(p: Proc)
    requires p.pc == Suspended
    ensures AfterPark(p) == Ticks(Step(p, TaskParks), 1)
  {
    var y := Step(p, TaskParks);
    assert Ticks(y, 1) == Ticks(DispatcherStep(y), 0);
  }

  lemma WaitTicks(p: Proc)
    requires p.pc == Asleep || p.pc == DrainWoken
    requires p.waitting <==> p.pc == Asleep
    ensures Drain(p.(waitting := false), Top) == Ticks(p, if p.pc == Asleep then 2 else 1)
  {
    if p.pc == Asleep {
      assert Ticks(p, 2) == Ticks(DispatcherStep(p), 1);
    }
  }

  /** suspendBySelf in three parts: the new entry, the next task, and the release of the only
      reference if there is an entry already. */
  function Registered(p: Proc, t: TaskId): Proc {
    var q := p.(pc := Suspended, entries := p.entries + 1);
    if t in p.waitSet then q
    else q.(waitSet := p.waitSet[t := p.entries], groups := p.groups[p.entries := Suspension(t, {InWaitSet})])
  }

  function NextTaken(p: Proc): Proc {
    if p.runQue == [] then p else p.(next := Some(p.runQue[0]), runQue := p.runQue[1..])
  }

  function Unregistered(p: Proc, t: TaskId, entry: nat): Proc {
    p.(runQue := p.runQue + [t], resumed := p.resumed + [entry])
  }

  lemma SuspendParts(p: Proc)
    requires p.running.Some?
    ensures var t := p.running.value;
      var q := NextTaken(Registered(p, t));
      Suspend(p) == if t in p.waitSet then Unregistered(q, t, p.entries) else q
  {
  }

  /** The stages of a wake-up call one after the other; `foreign` says that it does not come
      from the processor's own thread. */
  function Woken(p: Proc, call: nat, entry: nat, foreign: bool): Proc
    requires Enabled(p, Lock(call, entry)) && entry in p.groups
  {
    var erased := Step(Step(p, Lock(call, entry)), Erase(call, entry));
    Release(if |erased.runQue| == 1 || foreign then Step(erased, Notify) else erased, entry, Erased(call))
  }

  /** When no other call holds a reference, a wake-up call that is not interfered with resumes
      its task: the task goes to the back of the run queue and the suspension is over. */
  lemma WokenResumes(p: Proc, call: nat, entry: nat, foreign: bool)
    requires GroupsOk(p) && entry in p.groups && p.groups[entry].holders == {InWaitSet}
    ensures Woken(p, call, entry, foreign).runQue == p.runQue + [p.groups[entry].task]
    ensures Woken(p, call, entry, foreign).resumed == p.resumed + [entry]
    ensures entry !in Woken(p, call, entry, foreign).groups
    ensures p.groups[entry].task !in Woken(p, call, entry, foreign).waitSet
  {
    var erased := OnlyWaker(p, call, entry);
    LastReleased(erased, entry, Erased(call));
    LastReleased(Step(erased, Notify), entry, Erased(call));
  }

  /** After its locked region the call holds the only reference. */
  lemma OnlyWaker(p: Proc, call: nat, entry: nat) returns (erased: Proc)
    requires GroupsOk(p) && entry in p.groups && p.groups[entry].holders == {InWaitSet}
    ensures Enabled(p, Lock(call, entry)) && Enabled(Step(p, Lock(call, entry)), Erase(call, entry))
    ensures erased == Step(Step(p, Lock(call, entry)), Erase(call, entry))
    ensures erased.groups == p.groups[entry := Suspension(p.groups[entry].task, {Erased(call)})]
    ensures erased.waitSet == p.waitSet - {p.groups[entry].task}
    ensures erased.runQue == p.runQue && erased.resumed == p.resumed
  {
    var locked := Step(p, Lock(call, entry));
    LockGroups(p, call, entry);
    EraseIsOwn(locked, call, entry);
    assert locked.groups[entry].holders - {Locked(call), InWaitSet} + {Erased(call)} == {Erased(call)};
    erased := Step(locked, Erase(call, entry));
  }

  lemma LastReleased(p: Proc, e: nat, h: Holder)
    requires e in p.groups && p.groups[e].holders == {h}
    ensures var q := Release(p, e, h);
      && q.runQue == p.runQue + [p.groups[e].task] && q.resumed == p.resumed + [e]
      && e !in q.groups && q.waitSet == p.waitSet
  {
  }
}
