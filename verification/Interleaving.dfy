/** The dispatcher loop among other threads: a pure account of what happens when any outside
    events come between any two of its regions. */
module Interleavings {
  import opened Common
  import opened ProcessorMachine
  import opened DispatcherLoops

  datatype TaskState = Ready | Running | Block | Done | Except | Unknown

  /** What may happen to a processor from outside. */
  datatype External =
    | Add(tasks: seq<TaskId>) | TakeNew(n: nat) | TakeRun(n: nat)
    | TakeEntry(call: nat, entry: nat) | EraseWaiting(call: nat, entry: nat) | DropEntry(call: nat, entry: nat)
    | Wake

  function EventOf(ev: External): Event {
    match ev
    case Add(tasks) => AddTasks(tasks)
    case TakeNew(n) => StealNew(n)
    case TakeRun(n) => StealRun(n)
    case TakeEntry(call, entry) => Lock(call, entry)
    case EraseWaiting(call, entry) => Erase(call, entry)
    case DropEntry(call, entry) => Drop(call, entry)
    case Wake => Notify
  }

  /** An outside event, or one region of the processor's own thread; `ends` is how the coroutine
      ends if the region is a coroutine's. */
  datatype Move = Other(ev: External) | Own(ends: TaskState)

  /** When the moves run out, nothing comes from outside any more, and coroutines finish. */
  function MoveAt(moves: seq<Move>, k: nat): Move {
    if k < |moves| then moves[k] else Own(Done)
  }

  /** What the processor's own thread does next. */
  function OwnEvent(pc: Pc, ends: TaskState): Event {
    match pc
    case Executing =>
      if ends == Running then TaskYields else if ends == Block then TaskSuspends else TaskFinishes
    case Suspended => TaskParks
    case _ => Tick
  }

  function MoveEvent(pc: Pc, move: Move): Event {
    match move
    case Other(ev) => EventOf(ev)
    case Own(ends) => OwnEvent(pc, ends)
  }

  /** An event that cannot happen is passed over: a stage of a wake-up call that has not come to
      that stage. */
  function Attempt(p: Proc, ev: Event): Proc {
    if Enabled(p, ev) then Step(p, ev) else p
  }

  /** The first `n` moves. */
  function Played(p: Proc, moves: seq<Move>, n: nat): Proc {
    if n == 0 then p
    else
      var q := Played(p, moves, n - 1);
      Attempt(q, MoveEvent(q.pc, MoveAt(moves, n - 1)))
  }

  predicate IsPlayed(p: Proc, moves: seq<Move>, n: nat, q: Proc) {
    Played(p, moves, n) == q
  }

  /** The first `n` moves lead from `p` to `q`; unfolded only where IsPlayed is named. */
  ghost predicate MovesLead(p: Proc, moves: seq<Move>, n: nat, q: Proc) {
    forall k {:trigger IsPlayed(p, moves, k, q)} | k == n :: IsPlayed(p, moves, k, q)
  }

  lemma MovesLeadIff(p: Proc, moves: seq<Move>, n: nat, q: Proc)
    ensures MovesLead(p, moves, n, q) <==> Played(p, moves, n) == q
  {
    assert IsPlayed(p, moves, n, q) <==> Played(p, moves, n) == q;
  }

  lemma MovesLeadOnce(p: Proc, moves: seq<Move>, n: nat, q: Proc, r: Proc)
    requires MovesLead(p, moves, n, q) && MovesLead(p, moves, n, r)
    ensures q == r
  {
    MovesLeadIff(p, moves, n, q);
    MovesLeadIff(p, moves, n, r);
  }

  // ------------------------------------------------------------------ what always fits together

  /** The slots are filled where the dispatcher relies on it, and only it waits. */
  predicate Shaped(p: Proc) {
    && (HasRunning(p.pc) ==> p.running.Some?)
    && (p.running.Some? ==> HasRunning(p.pc) || p.pc == Dispatch)
    && (p.waitting <==> p.pc == Asleep)
  }

  /** Only the processor's own thread moves the dispatcher. */
  lemma OutsideStands(p: Proc, ev: External)
    ensures var q := Attempt(p, EventOf(ev));
      q.pc == p.pc && q.running == p.running && q.next == p.next && q.waitting == p.waitting
  {
    match ev
    case TakeEntry(call, entry) =>
    case EraseWaiting(call, entry) =>
      EraseStands(p, call, entry);
    case DropEntry(call, entry) =>
    case _ =>
  }

  lemma EraseStands(p: Proc, call: nat, entry: nat)
    ensures var q := Attempt(p, Erase(call, entry));
      q.pc == p.pc && q.running == p.running && q.next == p.next && q.waitting == p.waitting
  {
  }

  lemma OwnShaped(p: Proc, ends: TaskState)
    requires Shaped(p)
    ensures Shaped(Attempt(p, OwnEvent(p.pc, ends)))
  {
    if p.pc != Executing && p.pc != Suspended {
      TickShaped(p);
    }
  }

  lemma TickShaped(p: Proc)
    requires Shaped(p)
    ensures Shaped(DispatcherStep(p))
  {
    if HasRunning(p.pc) {
      BehindShaped(p);
    } else {
      AheadShaped(p);
    }
  }

  lemma BehindShaped(p: Proc)
    requires Shaped(p) && HasRunning(p.pc)
    ensures Shaped(DispatcherStep(p))
  {
  }

  lemma AheadShaped(p: Proc)
    requires Shaped(p) && !HasRunning(p.pc)
    ensures Shaped(DispatcherStep(p))
  {
  }

  lemma MoveShaped(p: Proc, move: Move)
    requires Shaped(p)
    ensures Shaped(Attempt(p, MoveEvent(p.pc, move)))
  {
    match move
    case Other(ev) => OutsideStands(p, ev);
    case Own(ends) => OwnShaped(p, ends);
  }

  /** What the processor's own thread does next can always happen. */
  lemma OwnEnabled(p: Proc, ends: TaskState)
    requires Shaped(p)
    ensures Enabled(p, OwnEvent(p.pc, ends))
  {
  }

  lemma {:induction false} PlayedShaped(p: Proc, moves: seq<Move>, n: nat)
    requires Shaped(p)
    ensures Shaped(Played(p, moves, n))
  {
    if n > 0 {
      PlayedShaped(p, moves, n - 1);
      var q := Played(p, moves, n - 1);
      MoveShaped(q, MoveAt(moves, n - 1));
    }
  }

  /** One move of the processor's own thread. */
  lemma OwnMove(p: Proc, moves: seq<Move>, k: nat, q: Proc)
    requires MovesLead(p, moves, k, q) && Shaped(q) && MoveAt(moves, k).Own?
    ensures var ev := OwnEvent(q.pc, MoveAt(moves, k).ends);
      Enabled(q, ev) && MovesLead(p, moves, k + 1, Step(q, ev)) && Shaped(Step(q, ev))
  {
    OwnEnabled(q, MoveAt(moves, k).ends);
    OwnShaped(q, MoveAt(moves, k).ends);
    NextMove(p, moves, k, q);
  }

  /** One event from outside. */
  lemma OtherMove(p: Proc, moves: seq<Move>, k: nat, q: Proc)
    requires MovesLead(p, moves, k, q) && Shaped(q) && MoveAt(moves, k).Other?
    ensures var r := Attempt(q, EventOf(MoveAt(moves, k).ev));
      MovesLead(p, moves, k + 1, r) && Shaped(r)
  {
    OutsideStands(q, MoveAt(moves, k).ev);
    NextMove(p, moves, k, q);
  }

  lemma NextMove(p: Proc, moves: seq<Move>, k: nat, q: Proc)
    requires MovesLead(p, moves, k, q)
    ensures MovesLead(p, moves, k + 1, Attempt(q, MoveEvent(q.pc, MoveAt(moves, k))))
  {
    MovesLeadIff(p, moves, k, q);
    MovesLeadIff(p, moves, k + 1, Attempt(q, MoveEvent(q.pc, MoveAt(moves, k))));
  }

  // ------------------------------------------------------------------ the moves are a run of the machine

  /** The events of the first `n` moves. */
  function EventsOf(p: Proc, moves: seq<Move>, n: nat): seq<Event> {
    if n == 0 then []
    else
      var q := Played(p, moves, n - 1);
      var ev := MoveEvent(q.pc, MoveAt(moves, n - 1));
      EventsOf(p, moves, n - 1) + if Enabled(q, ev) then [ev] else []
  }

  lemma RunAttempt(p: Proc, evs: seq<Event>, q: Proc, ev: Event)
    requires RunOne(p, evs) == Some(q)
    ensures RunOne(p, evs + if Enabled(q, ev) then [ev] else []) == Some(Attempt(q, ev))
  {
    if Enabled(q, ev) {
      assert (evs + [ev])[..|evs|] == evs;
    } else {
      assert evs + [] == evs;
    }
  }

  lemma NextEvent(p: Proc, moves: seq<Move>, n: nat, q: Proc)
    requires MovesLead(p, moves, n, q)
    ensures var ev := MoveEvent(q.pc, MoveAt(moves, n));
      EventsOf(p, moves, n + 1) == EventsOf(p, moves, n) + if Enabled(q, ev) then [ev] else []
  {
    MovesLeadIff(p, moves, n, q);
  }

  /** Whatever the coroutines and the other threads do, unsafe steals included: the moves are a
      run of the machine. */
  lemma {:induction false} MovesAreARun(p: Proc, moves: seq<Move>, n: nat) returns (q: Proc)
    ensures MovesLead(p, moves, n, q) && RunOne(p, EventsOf(p, moves, n)) == Some(q)
  {
    if n == 0 {
      q := p;
      MovesLeadIff(p, moves, 0, p);
    } else {
      var r := MovesAreARun(p, moves, n - 1);
      var ev := MoveEvent(r.pc, MoveAt(moves, n - 1));
      NextMove(p, moves, n - 1, r);
      NextEvent(p, moves, n - 1, r);
      RunAttempt(p, EventsOf(p, moves, n - 1), r, ev);
      q := Attempt(r, ev);
    }
  }

  // ------------------------------------------------------------------ what careful moves keep

  ghost predicate Good(p: Proc) {
    Inv(p) && Distinct(p)
  }

  lemma FreshGood()
    ensures Good(FRESH)
  {
    forall t ensures Owners(FRESH, t) <= 1 {
      FreshInv(t);
    }
    FreshInv(0);
  }

  /** The event takes no task between Suspend and Yield, and brings no task that the processor
      already has. */
  predicate Acceptable(p: Proc, ev: Event) {
    KeepsAlias(p, ev) && NoRepeats(Added(ev)) && forall t | t in Added(ev) :: Owners(p, t) == 0
  }

  predicate CarefulMoves(p: Proc, moves: seq<Move>, n: nat) {
    n > 0 ==>
      var q := Played(p, moves, n - 1);
      CarefulMoves(p, moves, n - 1) && Acceptable(q, MoveEvent(q.pc, MoveAt(moves, n - 1)))
  }

  lemma GoodAttempt(p: Proc, ev: Event)
    requires Good(p) && Acceptable(p, ev)
    ensures Good(Attempt(p, ev))
  {
    if Enabled(p, ev) {
      StepInv(p, ev);
      StepDistinct(p, ev);
    }
  }

  /** Any number of careful moves keep the invariant, and no task has two owners. */
  lemma {:induction false} CarefulMovesKeep(p: Proc, moves: seq<Move>, n: nat)
    requires Good(p) && CarefulMoves(p, moves, n)
    ensures Good(Played(p, moves, n))
  {
    if n > 0 {
      CarefulMovesKeep(p, moves, n - 1);
      var q := Played(p, moves, n - 1);
      GoodAttempt(q, MoveEvent(q.pc, MoveAt(moves, n - 1)));
    }
  }

  lemma CarefulFromFresh(moves: seq<Move>, n: nat)
    requires CarefulMoves(FRESH, moves, n)
    ensures Good(Played(FRESH, moves, n))
  {
    FreshGood();
    CarefulMovesKeep(FRESH, moves, n);
  }

  // ------------------------------------------------------------------ undisturbed moves

  /** Nothing comes from outside in the moves from number `i` up to number `n`. */
  predicate Quiet(moves: seq<Move>, i: nat, n: nat) {
    forall j | i <= j < n :: MoveAt(moves, j).Own?
  }

  predicate InDispatcher(p: Proc) {
    p.pc != Executing && p.pc != Suspended
  }

  /** `k` steps of the dispatcher without a coroutine. */
  predicate OwnSteps(p: Proc, k: nat)
    decreases k
  {
    k > 0 ==> InDispatcher(p) && OwnSteps(DispatcherStep(p), k - 1)
  }

  /** From here undisturbed dispatcher steps lead to `last`. */
  predicate TicksLead(q: Proc, k: nat, last: Proc) {
    OwnSteps(q, k) && Ticks(q, k) == last
  }

  lemma TicksLeadNext(p: Proc, moves: seq<Move>, i: nat, k: nat, q: Proc, last: Proc) returns (r: Proc)
    requires MoveAt(moves, i).Own? && MovesLead(p, moves, i, q) && TicksLead(q, k, last) && k > 0
    ensures MovesLead(p, moves, i + 1, r) && TicksLead(r, k - 1, last)
  {
    NextMove(p, moves, i, q);
    r := DispatcherStep(q);
  }

  /** Undisturbed moves outside a coroutine are dispatcher steps in a row. */
  lemma {:induction false} QuietTicks(p: Proc, moves: seq<Move>, i: nat, n: nat, q: Proc, last: Proc)
    requires i <= n && Quiet(moves, i, n) && MovesLead(p, moves, i, q) && TicksLead(q, n - i, last)
    ensures MovesLead(p, moves, n, last)
    decreases n - i
  {
    if i < n {
      var r := TicksLeadNext(p, moves, i, n - i, q, last);
      QuietTicks(p, moves, i + 1, n, r, last);
    }
  }

  /** How many steps the head of the outer loop takes, undisturbed. */
  function SelectSteps(q: Proc): nat {
    if q.runQue != [] then 1 else if q.newQue != [] then 3 else 4
  }

  lemma QuietSelect(p: Proc, moves: seq<Move>, i: nat, q: Proc)
    requires MovesLead(p, moves, i, q) && q.pc == Top && q.running.None?
    requires Quiet(moves, i, i + SelectSteps(q))
    ensures MovesLead(p, moves, i + SelectSteps(q), Selected(q))
  {
    SelectLeads(q);
    QuietTicks(p, moves, i, i + SelectSteps(q), q, Selected(q));
  }

  lemma SelectLeads(q: Proc)
    requires q.pc == Top && q.running.None?
    ensures TicksLead(q, SelectSteps(q), Selected(q))
  {
    SelectTicks(q);
    SelectStays(q);
  }

  lemma SelectStays(q: Proc)
    requires q.pc == Top && q.running.None?
    ensures OwnSteps(q, SelectSteps(q))
  {
    if q.runQue == [] {
      var a := DispatcherStep(q);
      var b := DispatcherStep(a);
      var c := DispatcherStep(b);
      assert OwnSteps(c, 1) <== q.newQue == [];
      assert OwnSteps(b, SelectSteps(q) - 2);
      assert OwnSteps(a, SelectSteps(q) - 1);
    }
  }

  /** The same behind a coroutine, by the way it ended. */
  function SwapOutSteps(q: Proc): nat {
    if q.pc == YieldCheck then (if q.runQue == [] then 4 else 3)
    else if q.pc == DoneCheck then (if q.runQue == [] then 3 else 2)
    else 1
  }

  function SwappedOut(q: Proc): Proc
    requires q.pc == YieldCheck ==> q.running.Some?
  {
    if q.pc == YieldCheck then AfterYield(q)
    else if q.pc == DoneCheck then AfterDone(q)
    else AfterPark(q)
  }

  lemma QuietSwapOut(p: Proc, moves: seq<Move>, i: nat, q: Proc)
    requires MovesLead(p, moves, i, q) && q.running.Some?
    requires q.pc == YieldCheck || q.pc == DoneCheck || q.pc == Parked
    requires Quiet(moves, i, i + SwapOutSteps(q))
    ensures MovesLead(p, moves, i + SwapOutSteps(q), SwappedOut(q))
  {
    SwapOutLeads(q);
    QuietTicks(p, moves, i, i + SwapOutSteps(q), q, SwappedOut(q));
  }

  lemma SwapOutLeads(q: Proc)
    requires q.pc == YieldCheck || q.pc == DoneCheck || q.pc == Parked
    requires q.running.Some?
    ensures TicksLead(q, SwapOutSteps(q), SwappedOut(q))
  {
    SwapOutTicks(q);
    SwapOutStays(q);
  }

  lemma SwapOutTicks(q: Proc)
    requires q.pc == YieldCheck || q.pc == DoneCheck || q.pc == Parked
    requires q.running.Some?
    ensures Ticks(q, SwapOutSteps(q)) == SwappedOut(q)
  {
    if q.pc == YieldCheck {
      var e := q.(pc := Executing);
      assert Step(e, TaskYields) == q;
      YieldTicks(e);
    } else if q.pc == DoneCheck {
      var e := q.(pc := Executing);
      assert Step(e, TaskFinishes) == q;
      DoneTicks(e);
    } else {
      var e := q.(pc := Suspended);
      assert Step(e, TaskParks) == q;
      ParkTicks(e);
    }
  }

  lemma SwapOutStays(q: Proc)
    requires q.pc == YieldCheck || q.pc == DoneCheck || q.pc == Parked
    requires q.running.Some?
    ensures OwnSteps(q, SwapOutSteps(q))
  {
    var a := DispatcherStep(q);
    if q.pc == Parked {
      assert OwnSteps(a, 0);
    } else if q.runQue == [] {
      StaysAtDrain(a);
    } else {
      StaysBehind(a);
    }
  }

  lemma StaysAtDrain(q: Proc)
    requires q.pc == YieldDrain || q.pc == DoneDrain
    ensures OwnSteps(q, if q.pc == YieldDrain then 3 else 2)
  {
    StaysBehind(DispatcherStep(q));
  }

  lemma StaysBehind(q: Proc)
    requires q.pc == Requeue || q.pc == DoneNext
    ensures OwnSteps(q, if q.pc == Requeue then 2 else 1)
  {
    if q.pc == Requeue {
      assert OwnSteps(DispatcherStep(q), 1);
    }
  }
}
