/** The processor object: its fields and methods, each method shown to perform exactly the
    events of the state machine in ProcessorMachine, in order, when nothing interferes. */
module Processors {
  import opened Common
  import opened ProcessorMachine
  import opened DispatcherLoops
  import opened Interleavings
  import opened CoroutineEnds

  class Processor {
    var runningTask: Option<TaskId>
    var nextTask: Option<TaskId>
    var runQue: seq<TaskId>
    var newQue: seq<TaskId>
    var waitSet: map<TaskId, nat>
    var controlBlocks: map<nat, Suspension>
    var entries: nat
    var waitting: bool
    var notified: bool
    var active: bool

    // where the dispatcher stands, the condition variable's pending signal, and the history
    var pc: Pc
    var signalled: bool
    var resumed: seq<nat>

    function View(): Proc
      reads this
    {
      Proc(pc, runningTask, nextTask, runQue, newQue, waitSet, controlBlocks, entries, resumed,
           notified, waitting, signalled)
    }

    constructor ()
      ensures View() == FRESH && active
    {
      runningTask, nextTask, runQue, newQue := None, None, [], [];
      waitSet, controlBlocks, entries := map[], map[], 0;
      waitting, notified, active := false, false, true;
      pc, signalled, resumed := Top, false, [];
    }

    function RunnableTaskCount(): (n: nat)
      reads this
    {
      |runQue| + |newQue|
    }

    method NotifyNewQueCondition()
      modifies `notified, `signalled
      ensures View() == Step(old(View()), Notify)
      ensures if old(waitting) then signalled && notified == old(notified) else notified && signalled == old(signalled)
    {
      if waitting {
        signalled := true;
      } else {
        notified := true;
      }
    }

    /** All lock-taking overloads; a single task is a list of one. */
    method AddTask(tasks: seq<TaskId>)
      modifies `newQue, `notified, `signalled
      ensures View() == Step(old(View()), AddTasks(tasks))
      ensures newQue == old(newQue) + tasks
      ensures if old(waitting) then signalled && notified == old(notified) else notified && signalled == old(signalled)
    {
      newQue := newQue + tasks;
      if waitting {
        signalled := true;
      } else {
        notified := true;
      }
    }

    /** Up to `n` tasks off the tails, new queue first; `steal(0)` takes the whole new queue. */
    method Steal(n: nat) returns (result: seq<TaskId>)
      modifies `runQue, `newQue
      ensures n == 0 ==> result == old(newQue) && newQue == [] && runQue == old(runQue)
      ensures n > 0 ==>
        var rest := n - |LastOf(old(newQue), n)|;
        && result == LastOf(old(newQue), n) + LastOf(old(runQue), rest)
        && newQue == AllBut(old(newQue), n) && runQue == AllBut(old(runQue), rest)
        && View() == Step(Step(old(View()), StealNew(n)), StealRun(rest))
      ensures n > 0 ==> |result| == Min(n, |old(newQue)| + |old(runQue)|)
    {
      result := [];
      if n > 0 {
        result := LastOf(newQue, n);
        newQue := AllBut(newQue, n);
        if |result| < n {
          var more := LastOf(runQue, n - |result|);
          runQue := AllBut(runQue, n - |result|);
          result := result + more;
        }
      } else {
        result, newQue := newQue, [];
      }
    }

    method AddNewTask()
      modifies `runQue, `newQue
      ensures runQue == old(runQue) + old(newQue) && newQue == []
    {
      runQue, newQue := runQue + newQue, [];
    }

    method PopFrontRunQue() returns (task: Option<TaskId>)
      modifies `runQue
      ensures old(runQue) == [] ==> task == None && runQue == []
      ensures old(runQue) != [] ==> task == Some(old(runQue)[0]) && runQue == old(runQue)[1..]
    {
      if runQue != [] {
        task := Some(runQue[0]);
        runQue := runQue[1..];
      } else {
        task := None;
      }
    }

    method SuspendBySelf() returns (entry: nat)
      requires pc == Executing && runningTask.Some?
      modifies `nextTask, `runQue, `waitSet, `controlBlocks, `entries, `resumed, `pc
      ensures View() == Step(old(View()), TaskSuspends) && entry == old(entries)
      ensures Blocking(old(View()), old(runningTask).value, nextTask, View())
    {
      SuspendParts(View());
      SuspendBlocks(View(), runningTask.value);
      var task := runningTask.value;
      entry := entries;
      var inserted := Insert(task);
      TakeNext();
      if !inserted {
        Unregister(task, entry);
      }
    }

    /** The locked region: an insertion that does nothing when the task is there already. */
    method Insert(task: TaskId) returns (inserted: bool)
      modifies `waitSet, `controlBlocks, `entries, `pc
      ensures View() == Registered(old(View()), task)
      ensures inserted <==> task !in old(waitSet)
    {
      inserted := task !in waitSet;
      if inserted {
        controlBlocks := controlBlocks[entries := Suspension(task, {InWaitSet})];
        waitSet := waitSet[task := entries];
      }
      entries, pc := entries + 1, Suspended;
    }

    /** The only reference was the local one. */
    method Unregister(task: TaskId, entry: nat)
      modifies `runQue, `resumed
      ensures View() == Unregistered(old(View()), task, entry)
    {
      runQue := runQue + [task];
      resumed := resumed + [entry];
    }

    method TakeNext()
      modifies `nextTask, `runQue
      ensures View() == NextTaken(old(View()))
    {
      if runQue != [] {
        nextTask, runQue := Some(runQue[0]), runQue[1..];
      }
    }

    /** One reference goes; the last one makes the deleter enqueue the task. */
    method Drop(entry: nat, holder: Holder)
      modifies `controlBlocks, `runQue, `resumed
      ensures View() == Release(old(View()), entry, holder)
      ensures entry in old(controlBlocks) && old(controlBlocks)[entry].holders <= {holder} ==>
        && controlBlocks == old(controlBlocks) - {entry}
        && runQue == old(runQue) + [old(controlBlocks)[entry].task] && resumed == old(resumed) + [entry]
      ensures entry in old(controlBlocks) && !(old(controlBlocks)[entry].holders <= {holder}) ==>
        runQue == old(runQue) && resumed == old(resumed) && entry in controlBlocks && holder !in controlBlocks[entry].holders
    {
      if entry in controlBlocks {
        var block := controlBlocks[entry];
        var rest := block.holders - {holder};
        if rest == {} {
          controlBlocks := controlBlocks - {entry};
          runQue := runQue + [block.task];
          resumed := resumed + [entry];
        } else {
          controlBlocks := controlBlocks[entry := block.(holders := rest)];
        }
      }
    }

    /** The first stage of a wake-up call: the weak reference is turned into a strong one. */
    method LockEntry(call: nat, entry: nat) returns (ok: bool)
      requires Enabled(View(), ProcessorMachine.Lock(call, entry))
      modifies `controlBlocks
      ensures View() == Step(old(View()), ProcessorMachine.Lock(call, entry))
      ensures ok <==> entry in old(controlBlocks)
      ensures ok ==> entry in controlBlocks && controlBlocks[entry].holders == old(controlBlocks)[entry].holders + {Locked(call)}
    {
      ok := entry in controlBlocks;
      if ok {
        var block := controlBlocks[entry];
        controlBlocks := controlBlocks[entry := block.(holders := block.holders + {Locked(call)})];
      }
    }

    /** The locked region of wakeUpBySelf: the task's entry leaves the wait set. */
    method EraseEntry(call: nat, entry: nat)
      requires Enabled(View(), Erase(call, entry))
      modifies `controlBlocks, `waitSet, `runQue, `resumed
      ensures View() == Step(old(View()), Erase(call, entry))
      ensures waitSet == old(waitSet) - {old(controlBlocks)[entry].task}
    {
      var block := controlBlocks[entry];
      controlBlocks := controlBlocks[entry := block.(holders := block.holders - {Locked(call)} + {Erased(call)})];
      if block.task in waitSet {
        var own := waitSet[block.task];
        waitSet := waitSet - {block.task};
        Drop(own, InWaitSet);
      }
    }

    /** A whole wake-up call without interference: lock the weak reference, erase the wait-set
        copy, maybe notify the dispatcher, drop the own reference. */
    method WakeUp(call: nat, entry: nat, foreign: bool) returns (ok: bool)
      requires Enabled(View(), ProcessorMachine.Lock(call, entry))
      modifies `runQue, `waitSet, `controlBlocks, `notified, `signalled, `resumed
      ensures ok <==> entry in old(controlBlocks)
      ensures !ok ==> View() == old(View())
      ensures ok ==> View() == Woken(old(View()), call, entry, foreign)
    {
      ok := LockEntry(call, entry);
      if ok {
        WakeUpBySelf(call, entry, foreign);
        Drop(entry, Erased(call));
      }
    }

    method WakeUpBySelf(call: nat, entry: nat, foreign: bool)
      requires Enabled(View(), Erase(call, entry))
      modifies `controlBlocks, `waitSet, `runQue, `resumed, `notified, `signalled
      ensures var erased := Step(old(View()), Erase(call, entry));
        View() == if |erased.runQue| == 1 || foreign then Step(erased, Notify) else erased
    {
      EraseEntry(call, entry);
      var notify := |runQue| == 1 || foreign;
      if notify {
        NotifyNewQueCondition();
      }
    }

    // ---------------------------------------------------------------- among other threads

    /** The processor is where the first `i` moves lead from `start`. */
    ghost predicate At(start: Proc, moves: seq<Move>, i: nat)
      reads this
    {
      MovesLead(start, moves, i, View()) && Shaped(View())
    }

    /** What other threads, and the coroutine itself, may do to the processor at any time. */
    method Perform(ev: External)
      modifies `newQue, `runQue, `controlBlocks, `waitSet, `notified, `signalled, `resumed
      ensures View() == Attempt(old(View()), EventOf(ev))
      ensures ev.Add? ==> View() == Step(old(View()), AddTasks(ev.tasks))
      ensures ev.TakeNew? ==> View() == Step(old(View()), StealNew(ev.n))
      ensures ev.TakeRun? ==> View() == Step(old(View()), StealRun(ev.n))
      ensures ev.Wake? ==> View() == Step(old(View()), Notify)
      ensures ev.TakeEntry? ==> View() == Attempt(old(View()), ProcessorMachine.Lock(ev.call, ev.entry))
      ensures ev.EraseWaiting? ==> View() == Attempt(old(View()), Erase(ev.call, ev.entry))
      ensures ev.DropEntry? ==> View() == Attempt(old(View()), ProcessorMachine.Drop(ev.call, ev.entry))
    {
      if Enabled(View(), EventOf(ev)) {
        match ev {
          case Add(tasks) => AddTask(tasks);
          case TakeNew(n) => newQue := AllBut(newQue, n);
          case TakeRun(n) => runQue := AllBut(runQue, n);
          case TakeEntry(call, entry) => var ok := LockEntry(call, entry);
          case EraseWaiting(call, entry) => EraseEntry(call, entry);
          case DropEntry(call, entry) => Drop(entry, Erased(call));
          case Wake => NotifyNewQueCondition();
        }
      }
    }

    /** Other threads have their moves, up to the next one of the processor's own thread. */
    method Interfere(moves: seq<Move>, i: nat, ghost start: Proc) returns (next: nat)
      requires At(start, moves, i)
      modifies `newQue, `runQue, `controlBlocks, `waitSet, `notified, `signalled, `resumed
      ensures i <= next && At(start, moves, next) && MoveAt(moves, next).Own?
      ensures MoveAt(moves, i).Own? ==> next == i && View() == old(View())
    {
      next := i;
      while MoveAt(moves, next).Other?
        invariant i <= next && At(start, moves, next)
        invariant MoveAt(moves, i).Own? ==> next == i && View() == old(View())
        decreases |moves| - next
      {
        OtherMove(start, moves, next, View());
        Perform(moves[next].ev);
        next := next + 1;
      }
    }

    // ---------------------------------------------------------------- the regions of the loop

    /** popFront of the run queue, into the running slot if there is a task. */
    method PopRunning(moves: seq<Move>, i: nat, ghost start: Proc) returns (found: bool, next: nat)
      requires At(start, moves, i) && (pc == Top || pc == PopAgain || pc == PopNext)
      modifies `newQue, `runQue, `controlBlocks, `waitSet, `notified, `signalled, `resumed, `runningTask, `pc
      ensures i < next && At(start, moves, next)
      ensures pc == if found || old(pc) == PopNext then Dispatch else if old(pc) == Top then DrainIdle else WaitNew
      ensures MoveAt(moves, i).Own? ==>
        && next == i + 1 && newQue == old(newQue)
        && (found <==> old(runQue) != []) && (found || runQue == [])
    {
      var k := Interfere(moves, i, start);
      OwnMove(start, moves, k, View());
      found := TakeFront();
      next := k + 1;
    }

    method TakeFront() returns (found: bool)
      requires pc == Top || pc == PopAgain || pc == PopNext
      modifies `runQue, `runningTask, `pc
      ensures View() == DispatcherStep(old(View()))
      ensures found <==> old(runQue) != []
      ensures found ==> runningTask == Some(old(runQue)[0]) && runQue == old(runQue)[1..] && pc == Dispatch
      ensures !found ==> runningTask == old(runningTask) && runQue == []
    {
      var task := PopFrontRunQue();
      found := task.Some?;
      if found {
        runningTask := task;
      }
      pc := if found || pc == PopNext then Dispatch else if pc == Top then DrainIdle else WaitNew;
    }

    /** addNewTask. */
    method FetchNew(moves: seq<Move>, i: nat, ghost start: Proc) returns (next: nat)
      requires At(start, moves, i) && (pc == DrainIdle || pc == DrainWoken || pc == YieldDrain || pc == DoneDrain)
      modifies `newQue, `runQue, `controlBlocks, `waitSet, `notified, `signalled, `resumed, `pc
      ensures i < next && At(start, moves, next)
      ensures pc == match old(pc) case DrainIdle => PopAgain case DrainWoken => Top case YieldDrain => Requeue case _ => DoneNext
      ensures MoveAt(moves, i).Own? ==> next == i + 1 && runQue == old(runQue) + old(newQue) && newQue == []
    {
      var k := Interfere(moves, i, start);
      OwnMove(start, moves, k, View());
      AddNewTask();
      pc := match pc case DrainIdle => PopAgain case DrainWoken => Top case YieldDrain => Requeue case _ => DoneNext;
      next := k + 1;
    }

    /** waitNewQueCondition up to its wait: it goes on at once after a notification. */
    method BeginWait(moves: seq<Move>, i: nat, ghost start: Proc) returns (next: nat)
      requires At(start, moves, i) && pc == WaitNew
      modifies `newQue, `runQue, `controlBlocks, `waitSet, `notified, `signalled, `resumed, `waitting, `pc
      ensures i < next && At(start, moves, next) && (pc == Asleep || pc == DrainWoken)
      ensures MoveAt(moves, i).Own? ==> next == i + 1
    {
      var k := Interfere(moves, i, start);
      OwnMove(start, moves, k, View());
      WaitUnlessNotified();
      next := k + 1;
    }

    method WaitUnlessNotified()
      requires pc == WaitNew
      modifies `notified, `signalled, `waitting, `pc
      ensures View() == DispatcherStep(old(View()))
      ensures if old(notified) then !notified && waitting == old(waitting) && pc == DrainWoken else waitting && !signalled && pc == Asleep
    {
      if notified {
        notified, pc := false, DrainWoken;
      } else {
        waitting, signalled, pc := true, false, Asleep;
      }
    }

    /** The condition variable returns. */
    method EndWait(moves: seq<Move>, i: nat, ghost start: Proc) returns (next: nat)
      requires At(start, moves, i) && pc == Asleep
      modifies `newQue, `runQue, `controlBlocks, `waitSet, `notified, `signalled, `resumed, `waitting, `pc
      ensures i < next && At(start, moves, next) && pc == DrainWoken
    {
      var k := Interfere(moves, i, start);
      OwnMove(start, moves, k, View());
      waitting, pc := false, DrainWoken;
      next := k + 1;
    }

    /** The condition of the inner loop, and what is done before the coroutine is swapped in. */
    method EnterTask(moves: seq<Move>, i: nat, ghost start: Proc) returns (entered: bool, next: nat)
      requires At(start, moves, i) && pc == Dispatch
      modifies `newQue, `runQue, `controlBlocks, `waitSet, `notified, `signalled, `resumed, `pc
      ensures i < next && At(start, moves, next)
      ensures entered <==> old(runningTask).Some?
      ensures pc == if entered then Executing else Top
    {
      var k := Interfere(moves, i, start);
      OwnMove(start, moves, k, View());
      entered := runningTask.Some?;
      pc := if entered then Executing else Top;
      next := k + 1;
    }

    /** The coroutine runs until it suspends itself, yields or ends. */
    method SwapIn(moves: seq<Move>, i: nat, ghost start: Proc) returns (next: nat)
      requires At(start, moves, i) && pc == Executing
      modifies `newQue, `runQue, `controlBlocks, `waitSet, `notified, `signalled, `resumed, `nextTask, `entries, `pc
      ensures i < next && At(start, moves, next)
      ensures pc == YieldCheck || pc == DoneCheck || pc == Suspended
    {
      var k := Interfere(moves, i, start);
      OwnMove(start, moves, k, View());
      match MoveAt(moves, k).ends {
        case Running => pc := YieldCheck;
        case Block => var entry := SuspendBySelf();
        case _ => pc := DoneCheck;
      }
      next := k + 1;
    }

    /** A coroutine that has suspended itself yields. */
    method YieldBlocked(moves: seq<Move>, i: nat, ghost start: Proc) returns (next: nat)
      requires At(start, moves, i) && pc == Suspended
      modifies `newQue, `runQue, `controlBlocks, `waitSet, `notified, `signalled, `resumed, `pc
      ensures i < next && At(start, moves, next) && pc == Parked
    {
      var k := Interfere(moves, i, start);
      OwnMove(start, moves, k, View());
      pc := Parked;
      next := k + 1;
    }

    /** The BLOCK case: the slot is only an alias of the task, which its control block owns. */
    method ReplaceBlocked(moves: seq<Move>, i: nat, ghost start: Proc) returns (next: nat)
      requires At(start, moves, i) && pc == Parked
      modifies `newQue, `runQue, `controlBlocks, `waitSet, `notified, `signalled, `resumed, `runningTask, `nextTask, `pc
      ensures i < next && At(start, moves, next) && pc == Dispatch
      ensures MoveAt(moves, i).Own? ==> next == i + 1
    {
      var k := Interfere(moves, i, start);
      OwnMove(start, moves, k, View());
      UseNext();
      next := k + 1;
    }

    method UseNext()
      requires pc == Parked
      modifies `runningTask, `nextTask, `pc
      ensures View() == DispatcherStep(old(View()))
      ensures runningTask == old(nextTask) && nextTask == None
    {
      runningTask, nextTask, pc := nextTask, None, Dispatch;
    }

    /** Is the run queue empty, when a coroutine has yielded or ended? */
    method CheckRunQue(moves: seq<Move>, i: nat, ghost start: Proc) returns (next: nat)
      requires At(start, moves, i) && (pc == YieldCheck || pc == DoneCheck)
      modifies `newQue, `runQue, `controlBlocks, `waitSet, `notified, `signalled, `resumed, `pc
      ensures i < next && At(start, moves, next)
      ensures old(pc) == YieldCheck ==> pc == YieldDrain || pc == Requeue
      ensures old(pc) == DoneCheck ==> pc == DoneDrain || pc == DoneNext
      ensures MoveAt(moves, i).Own? ==>
        next == i + 1 && (pc == YieldDrain || pc == DoneDrain <==> old(runQue) == [])
    {
      var k := Interfere(moves, i, start);
      OwnMove(start, moves, k, View());
      if pc == YieldCheck {
        pc := if runQue == [] then YieldDrain else Requeue;
      } else {
        pc := if runQue == [] then DoneDrain else DoneNext;
      }
      next := k + 1;
    }

    /** The task that yielded goes to the back of the line. */
    method EmplaceRunning(moves: seq<Move>, i: nat, ghost start: Proc) returns (next: nat)
      requires At(start, moves, i) && pc == Requeue
      modifies `newQue, `runQue, `controlBlocks, `waitSet, `notified, `signalled, `resumed, `runningTask, `pc
      ensures i < next && At(start, moves, next) && pc == PopNext
      ensures MoveAt(moves, i).Own? ==> next == i + 1
    {
      var k := Interfere(moves, i, start);
      OwnMove(start, moves, k, View());
      PutBack();
      next := k + 1;
    }

    method PutBack()
      requires pc == Requeue && runningTask.Some?
      modifies `runQue, `runningTask, `pc
      ensures View() == DispatcherStep(old(View()))
      ensures runQue == old(runQue) + [old(runningTask).value] && runningTask == None
    {
      runQue := runQue + [runningTask.value];
      runningTask, pc := None, PopNext;
    }

    /** A finished task is replaced by a new one, or else by the one that was taken before. */
    method ReplaceFinished(moves: seq<Move>, i: nat, ghost start: Proc) returns (next: nat)
      requires At(start, moves, i) && pc == DoneNext
      modifies `newQue, `runQue, `controlBlocks, `waitSet, `notified, `signalled, `resumed, `runningTask, `nextTask, `pc
      ensures i < next && At(start, moves, next) && pc == Dispatch
      ensures MoveAt(moves, i).Own? ==> next == i + 1
    {
      var k := Interfere(moves, i, start);
      OwnMove(start, moves, k, View());
      Replace();
      next := k + 1;
    }

    method Replace()
      requires pc == DoneNext
      modifies `newQue, `runningTask, `nextTask, `pc
      ensures View() == DispatcherStep(old(View()))
      ensures old(newQue) != [] ==> runningTask == Some(old(newQue)[0]) && newQue == old(newQue)[1..] && nextTask == old(nextTask)
      ensures old(newQue) == [] ==> runningTask == old(nextTask) && nextTask == None
    {
      if newQue != [] {
        runningTask, newQue := Some(newQue[0]), newQue[1..];
      } else {
        runningTask, nextTask := nextTask, None;
      }
      pc := Dispatch;
    }

    // ---------------------------------------------------------------- the loop

    /** The run queue was empty. */
    method SelectNew(moves: seq<Move>, i: nat, ghost start: Proc) returns (found: bool, next: nat)
      requires At(start, moves, i) && pc == DrainIdle
      modifies `newQue, `runQue, `controlBlocks, `waitSet, `notified, `signalled, `resumed, `runningTask, `waitting, `pc
      ensures i < next && At(start, moves, next)
      ensures if found then pc == Dispatch else pc == Asleep || pc == DrainWoken
      ensures Quiet(moves, i, next) && old(runQue) == [] ==> next == i + if old(newQue) != [] then 2 else 3
    {
      next := FetchNew(moves, i, start);
      found, next := PopRunning(moves, next, start);
      if !found {
        next := BeginWait(moves, next, start);
      }
    }

    /** The head of the outer loop, up to a task or into the wait. */
    method SelectTask(moves: seq<Move>, i: nat, ghost start: Proc) returns (found: bool, next: nat)
      requires At(start, moves, i) && pc == Top
      modifies `newQue, `runQue, `controlBlocks, `waitSet, `notified, `signalled, `resumed, `runningTask, `waitting, `pc
      ensures i < next && At(start, moves, next)
      ensures if found then pc == Dispatch else pc == Asleep || pc == DrainWoken
      ensures Quiet(moves, i, next) ==> next == i + SelectSteps(old(View())) && View() == Selected(old(View()))
      ensures Quiet(moves, i, next) ==> TakesFront(old(View()), found, View())
    {
      ghost var q := View();
      found, next := PopRunning(moves, i, start);
      if !found {
        found, next := SelectNew(moves, next, start);
      }
      if Quiet(moves, i, next) {
        QuietSelect(start, moves, i, q);
        MovesLeadOnce(start, moves, next, View(), Selected(q));
        SelectedTakesFront(q);
      }
    }

    /** The rest of the wait, and the new tasks. */
    method ResumeFromWait(moves: seq<Move>, i: nat, ghost start: Proc) returns (next: nat)
      requires At(start, moves, i) && (pc == Asleep || pc == DrainWoken)
      modifies `newQue, `runQue, `controlBlocks, `waitSet, `notified, `signalled, `resumed, `waitting, `pc
      ensures i < next && At(start, moves, next) && pc == Top
    {
      next := i;
      if pc == Asleep {
        next := EndWait(moves, i, start);
      }
      next := FetchNew(moves, next, start);
    }

    method FindTask(moves: seq<Move>, i: nat, ghost start: Proc) returns (found: bool, next: nat)
      requires At(start, moves, i) && pc == Top
      modifies `newQue, `runQue, `controlBlocks, `waitSet, `notified, `signalled, `resumed, `runningTask, `waitting, `pc
      ensures i < next && At(start, moves, next) && pc == if found then Dispatch else Top
    {
      found, next := SelectTask(moves, i, start);
      if !found {
        next := ResumeFromWait(moves, next, start);
      }
    }

    /** The RUNNING case. */
    method AfterYielding(moves: seq<Move>, i: nat, ghost start: Proc) returns (next: nat)
      requires At(start, moves, i) && pc == YieldCheck
      modifies `newQue, `runQue, `controlBlocks, `waitSet, `notified, `signalled, `resumed, `runningTask, `pc
      ensures i < next && At(start, moves, next) && pc == Dispatch
      ensures Quiet(moves, i, next) ==> next == i + SwapOutSteps(old(View()))
    {
      next := CheckRunQue(moves, i, start);
      if pc == YieldDrain {
        next := FetchNew(moves, next, start);
      }
      next := EmplaceRunning(moves, next, start);
      var found;
      found, next := PopRunning(moves, next, start);
    }

    /** The cases of a finished task. */
    method AfterFinishing(moves: seq<Move>, i: nat, ghost start: Proc) returns (next: nat)
      requires At(start, moves, i) && pc == DoneCheck
      modifies `newQue, `runQue, `controlBlocks, `waitSet, `notified, `signalled, `resumed, `runningTask, `nextTask, `pc
      ensures i < next && At(start, moves, next) && pc == Dispatch
      ensures Quiet(moves, i, next) ==> next == i + SwapOutSteps(old(View()))
    {
      next := CheckRunQue(moves, i, start);
      if pc == DoneDrain {
        next := FetchNew(moves, next, start);
      }
      next := ReplaceFinished(moves, next, start);
    }

    /** What the dispatcher does when the coroutine has swapped out, by the state it left. */
    method AfterSwapIn(moves: seq<Move>, i: nat, ghost start: Proc) returns (next: nat)
      requires At(start, moves, i) && (pc == YieldCheck || pc == DoneCheck || pc == Parked)
      modifies `newQue, `runQue, `controlBlocks, `waitSet, `notified, `signalled, `resumed, `runningTask, `nextTask, `pc
      ensures i < next && At(start, moves, next) && pc == Dispatch
      ensures Quiet(moves, i, next) ==> next == i + SwapOutSteps(old(View())) && View() == SwappedOut(old(View()))
    {
      ghost var q := View();
      if pc == YieldCheck {
        next := AfterYielding(moves, i, start);
      } else if pc == DoneCheck {
        next := AfterFinishing(moves, i, start);
      } else {
        next := ReplaceBlocked(moves, i, start);
      }
      if Quiet(moves, i, next) {
        QuietSwapOut(start, moves, i, q);
        MovesLeadOnce(start, moves, next, View(), SwappedOut(q));
      }
    }

    /** One pass of the inner loop. */
    method RunTask(moves: seq<Move>, i: nat, ghost start: Proc) returns (entered: bool, next: nat)
      requires At(start, moves, i) && pc == Dispatch
      modifies `newQue, `runQue, `controlBlocks, `waitSet, `notified, `signalled, `resumed, `runningTask, `nextTask, `entries, `pc
      ensures i < next && At(start, moves, next) && pc == if entered then Dispatch else Top
    {
      entered, next := EnterTask(moves, i, start);
      if entered {
        next := SwapIn(moves, next, start);
        if pc == Suspended {
          next := YieldBlocked(moves, next, start);
        }
        next := AfterSwapIn(moves, next, start);
      }
    }

    /** process(), from the given moves on until the scheduler stops, which it asks for at the
        heads of its loops. The coroutines and the other threads do what the moves say, in
        between any two regions; the processor ends where the machine ends. */
    method Process(moves: seq<Move>) returns (n: nat)
      requires Shaped(View()) && pc == Top
      modifies `newQue, `runQue, `controlBlocks, `waitSet, `notified, `signalled, `resumed, `runningTask, `nextTask, `entries, `waitting, `pc
      ensures |moves| <= n && View() == Played(old(View()), moves, n) && (pc == Top || pc == Dispatch)
      ensures RunOne(old(View()), EventsOf(old(View()), moves, n)) == Some(View())
      ensures old(Good(View())) && CarefulMoves(old(View()), moves, n) ==> Good(View())
    {
      ghost var start := View();
      MovesLeadIff(start, moves, 0, start);
      n := 0;
      while n < |moves|
        invariant At(start, moves, n) && (pc == Top || (|moves| <= n && pc == Dispatch))
        decreases |moves| - n
      {
        n := FindAndRun(moves, n, start);
      }
      MovesLeadIff(start, moves, n, View());
      ghost var q := MovesAreARun(start, moves, n);
      MovesLeadOnce(start, moves, n, q, View());
      if Good(start) && CarefulMoves(start, moves, n) {
        CarefulMovesKeep(start, moves, n);
      }
    }

    /** One pass of the outer loop: a task is found, and the inner loop goes on while there is one. */
    method FindAndRun(moves: seq<Move>, i: nat, ghost start: Proc) returns (next: nat)
      requires At(start, moves, i) && pc == Top
      modifies `newQue, `runQue, `controlBlocks, `waitSet, `notified, `signalled, `resumed, `runningTask, `nextTask, `entries, `waitting, `pc
      ensures i < next && At(start, moves, next) && (pc == Top || (|moves| <= next && pc == Dispatch))
    {
      var inside;
      inside, next := FindTask(moves, i, start);
      while inside && next < |moves|
        invariant i < next && At(start, moves, next) && pc == if inside then Dispatch else Top
        decreases |moves| - next
      {
        inside, next := RunTask(moves, next, start);
      }
    }
  }
}
