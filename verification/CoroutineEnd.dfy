/** What becomes of a task, by the state in which its coroutine swaps out. */
module CoroutineEnds {
  import opened Common
  import opened ProcessorMachine
  import opened DispatcherLoops
  import opened Interleavings

  // ------------------------------------------------------------------ undisturbed

  /** The front of the run queue is taken, or of the new queue when that is empty; with nothing in
      either the dispatcher waits, or has consumed a notification. */
  ghost predicate TakesFront(q: Proc, found: bool, r: Proc) {
    && (found <==> q.runQue != [] || q.newQue != [])
    && (found ==> FrontRuns(r, if q.runQue != [] then q.runQue else q.newQue)
                  && r.newQue == (if q.runQue != [] then q.newQue else []) && r.notified == q.notified)
    && (!found ==> r.runQue == [] && r.newQue == [] && r.running == None && !r.notified && (r.waitting <==> !q.notified || q.waitting))
  }

  lemma SelectedTakesFront(q: Proc)
    requires q.running.None? && (q.pc == Top ==> !q.waitting)
    ensures TakesFront(q, Selected(q).pc == Dispatch, Selected(q))
  {
    var line := if q.runQue != [] then q.runQue else q.newQue;
    if line != [] {
      assert [line[0]] + line[1..] == line;
    }
  }

  /** The first `k` moves lead to `q`, where task `t` executes; the next move is its coroutine's,
      which ends in the given state, and nothing comes from outside in the `n` moves from there. */
  ghost predicate SwapsOut(p: Proc, moves: seq<Move>, k: nat, n: nat, q: Proc, t: TaskId, ends: TaskState) {
    && MovesLead(p, moves, k, q) && q.pc == Executing && q.running == Some(t)
    && Quiet(moves, k, k + n) && n > 0 && MoveAt(moves, k) == Own(ends)
  }

  lemma Ends(p: Proc, moves: seq<Move>, k: nat, n: nat, q: Proc, t: TaskId, ends: TaskState) returns (r: Proc)
    requires SwapsOut(p, moves, k, n, q, t, ends)
    ensures MovesLead(p, moves, k + 1, r) && Quiet(moves, k + 1, k + n)
    ensures ends == Running ==> r == q.(pc := YieldCheck)
    ensures ends == Block ==> r == Suspend(q)
    ensures ends != Running && ends != Block ==> r == q.(pc := DoneCheck)
  {
    NextMove(p, moves, k, q);
    r := Attempt(q, MoveEvent(q.pc, Own(ends)));
    forall j | k + 1 <= j < k + n ensures MoveAt(moves, j).Own? {
    }
  }

  /** The front of `line` runs, and the rest is the run queue. */
  ghost predicate FrontRuns(r: Proc, line: seq<TaskId>) {
    r.pc == Dispatch && r.running.Some? && [r.running.value] + r.runQue == line
  }

  lemma YieldedLine(y: Proc, t: TaskId)
    requires y.pc == YieldCheck && y.running == Some(t)
    ensures var r := SwappedOut(y);
      && FrontRuns(r, (if y.runQue != [] then y.runQue else y.newQue) + [t])
      && r.newQue == (if y.runQue != [] then y.newQue else [])
      && r.waitSet == y.waitSet && r.groups == y.groups && r.next == y.next
  {
    var line := (if y.runQue == [] then y.newQue else y.runQue) + [t];
    assert [line[0]] + line[1..] == line;
  }

  /** One that yields goes to the back of the line, and the front of the line runs. */
  lemma YieldedGoesBack(p: Proc, moves: seq<Move>, k: nat, n: nat, q: Proc, t: TaskId) returns (r: Proc)
    requires SwapsOut(p, moves, k, n, q, t, Running) && n == if q.runQue != [] then 4 else 5
    ensures MovesLead(p, moves, k + n, r)
    ensures FrontRuns(r, (if q.runQue != [] then q.runQue else q.newQue) + [t])
    ensures r.newQue == if q.runQue != [] then q.newQue else []
    ensures r.waitSet == q.waitSet && r.groups == q.groups && r.next == q.next
  {
    var y := Ends(p, moves, k, n, q, t, Running);
    QuietSwapOut(p, moves, k + 1, y);
    YieldedLine(y, t);
    r := SwappedOut(y);
  }

  /** A new entry in the wait set, or the back of the run queue for a task that was there already;
      the front of the run queue in `next`. */
  ghost predicate Blocking(q: Proc, t: TaskId, next: Option<TaskId>, r: Proc) {
    && next == (if q.runQue != [] then Some(q.runQue[0]) else q.next)
    && r.newQue == q.newQue && r.entries == q.entries + 1
    && (t !in q.waitSet ==>
          && r.runQue == (if q.runQue != [] then q.runQue[1..] else []) && r.waitSet == q.waitSet[t := q.entries]
          && r.groups == q.groups[q.entries := Suspension(t, {InWaitSet})])
    && (t in q.waitSet ==>
          r.runQue == (if q.runQue != [] then q.runQue[1..] else []) + [t] && r.waitSet == q.waitSet && r.groups == q.groups)
  }

  lemma SuspendBlocks(q: Proc, t: TaskId)
    requires q.running == Some(t)
    ensures var s := Suspend(q);
      && Blocking(q, t, s.next, s) && Blocking(q, t, s.next, AfterPark(s.(pc := Parked)))
      && s.pc == Suspended && s.running == Some(t)
  {
  }

  lemma Parks(p: Proc, moves: seq<Move>, k: nat, s: Proc)
    requires MovesLead(p, moves, k, s) && MoveAt(moves, k).Own? && s.pc == Suspended
    ensures MovesLead(p, moves, k + 1, s.(pc := Parked))
  {
    NextMove(p, moves, k, s);
  }

  /** One that blocks is in the wait set, and the front of the run queue runs. */
  lemma BlockedWaits(p: Proc, moves: seq<Move>, k: nat, q: Proc, t: TaskId) returns (r: Proc)
    requires SwapsOut(p, moves, k, 3, q, t, Block)
    ensures MovesLead(p, moves, k + 3, r)
    ensures r.pc == Dispatch && r.next == None && Blocking(q, t, r.running, r)
  {
    var s := Ends(p, moves, k, 3, q, t, Block);
    SuspendBlocks(q, t);
    Parks(p, moves, k + 1, s);
    QuietSwapOut(p, moves, k + 2, s.(pc := Parked));
    r := AfterPark(s.(pc := Parked));
  }

  /** A new task takes over if there is one behind a run queue that is not empty, else the task in
      the next slot; nothing else changes, but an empty run queue is filled. */
  ghost predicate Replaced(q: Proc, r: Proc) {
    && r.pc == Dispatch && r.waitSet == q.waitSet && r.groups == q.groups
    && (q.runQue != [] && q.newQue != [] ==>
          r.running == Some(q.newQue[0]) && r.newQue == q.newQue[1..] && r.runQue == q.runQue && r.next == q.next)
    && (q.runQue == [] || q.newQue == [] ==>
          r.running == q.next && r.next == None && r.newQue == [] && r.runQue == q.runQue + q.newQue)
  }

  lemma DoneReplaces(y: Proc)
    requires y.pc == DoneCheck && y.running.Some?
    ensures Replaced(y, SwappedOut(y))
  {
    assert y.newQue == [] ==> y.runQue + y.newQue == y.runQue;
    assert y.runQue == [] ==> y.runQue + y.newQue == y.newQue;
  }

  /** One that ends in any other way is gone: another task takes over, and if no task has two
      owners, it has none left. */
  lemma FinishedIsGone(p: Proc, moves: seq<Move>, k: nat, n: nat, q: Proc, t: TaskId, ends: TaskState) returns (r: Proc)
    requires SwapsOut(p, moves, k, n, q, t, ends) && ends != Running && ends != Block
    requires n == if q.runQue != [] then 3 else 4
    ensures MovesLead(p, moves, k + n, r) && Replaced(q, r)
    ensures Distinct(q) ==> Owners(r, t) == 0
  {
    var y := Ends(p, moves, k, n, q, t, ends);
    QuietSwapOut(p, moves, k + 1, y);
    DoneReplaces(y);
    r := SwappedOut(y);
    if Distinct(q) {
      assert Owners(q, t) <= 1;
      ReplacedOwners(q, r, t);
    }
  }

  lemma ReplacedOwners(q: Proc, r: Proc, t: TaskId)
    requires Replaced(q, r) && q.pc == Executing && q.running == Some(t) && Owners(q, t) <= 1
    ensures Owners(r, t) == 0
  {
    assert multiset(q.newQue)[t] == 0 && multiset(q.runQue)[t] == 0;
    Joined(q.runQue, q.newQue, t);
    if q.newQue != [] {
      Lost(q.newQue, t);
    }
    assert Blocked(r, t) <==> Blocked(q, t);
  }

  // ------------------------------------------------------------------ among other threads

  /** What the processor's own thread gives up in the moves from number `i` up to number `n`. */
  function GivenUp(p: Proc, moves: seq<Move>, i: nat, n: nat): seq<TaskId>
    decreases n
  {
    if n <= i then []
    else
      var q, move := Played(p, moves, n - 1), MoveAt(moves, n - 1);
      GivenUp(p, moves, i, n - 1) + if move.Own? then Removed(q, MoveEvent(q.pc, move)) else []
  }

  lemma GivenUpNext(p: Proc, moves: seq<Move>, i: nat, n: nat, q: Proc)
    requires MovesLead(p, moves, n, q) && i <= n
    ensures GivenUp(p, moves, i, n + 1) ==
      GivenUp(p, moves, i, n) + if MoveAt(moves, n).Own? then Removed(q, MoveEvent(q.pc, MoveAt(moves, n))) else []
  {
    MovesLeadIff(p, moves, n, q);
  }

  /** Where the dispatcher may stand behind a coroutine that ended in this way. */
  predicate Behind(s: Proc, ends: TaskState, t: TaskId) {
    if ends == Running then s.pc in {YieldCheck, YieldDrain, Requeue, PopNext}
    else if ends == Block then s.pc in {Suspended, Parked}
    else s.pc in {DoneCheck, DoneDrain, DoneNext} && s.running == Some(t)
  }

  /** The task that is given up when the dispatcher gets back to the loop condition. */
  function IfEnded(ends: TaskState, t: TaskId): seq<TaskId> {
    if ends == Running || ends == Block then [] else [t]
  }

  lemma BehindMove(s: Proc, move: Move, ends: TaskState, t: TaskId)
    requires Behind(s, ends, t)
    ensures var r := Attempt(s, MoveEvent(s.pc, move));
      var gone := if move.Own? then Removed(s, MoveEvent(s.pc, move)) else [];
      if r.pc == Dispatch then gone == IfEnded(ends, t) else Behind(r, ends, t) && gone == []
  {
    if move.Other? {
      OutsideStands(s, move.ev);
    }
  }

  predicate BackAt(p: Proc, moves: seq<Move>, j: nat) {
    Played(p, moves, j).pc == Dispatch
  }

  lemma BackIff(p: Proc, moves: seq<Move>, j: nat, s: Proc)
    requires MovesLead(p, moves, j, s)
    ensures BackAt(p, moves, j) <==> s.pc == Dispatch
  {
    MovesLeadIff(p, moves, j, s);
  }

  /** So far nothing was given up; after one more move either the dispatcher is back at the loop
      condition, or still nothing was. */
  lemma GivenUpMove(p: Proc, moves: seq<Move>, k: nat, n: nat, s: Proc, t: TaskId, ends: TaskState) returns (r: Proc)
    requires MovesLead(p, moves, n, s) && k <= n && GivenUp(p, moves, k, n) == [] && Behind(s, ends, t)
    ensures MovesLead(p, moves, n + 1, r)
    ensures r.pc == Dispatch ==> GivenUp(p, moves, k, n + 1) == IfEnded(ends, t)
    ensures r.pc != Dispatch ==> GivenUp(p, moves, k, n + 1) == [] && Behind(r, ends, t)
  {
    NextMove(p, moves, n, s);
    GivenUpNext(p, moves, k, n, s);
    BehindMove(s, MoveAt(moves, n), ends, t);
    r := Attempt(s, MoveEvent(s.pc, MoveAt(moves, n)));
  }

  lemma GivenUpFirst(p: Proc, moves: seq<Move>, k: nat, q: Proc, t: TaskId, ends: TaskState) returns (r: Proc)
    requires MovesLead(p, moves, k, q) && q.pc == Executing && q.running == Some(t) && MoveAt(moves, k) == Own(ends)
    ensures MovesLead(p, moves, k + 1, r) && GivenUp(p, moves, k, k + 1) == [] && Behind(r, ends, t)
  {
    NextMove(p, moves, k, q);
    GivenUpNext(p, moves, k, k, q);
    r := Attempt(q, MoveEvent(q.pc, Own(ends)));
  }

  /** Whatever other threads do meanwhile: until the dispatcher is back at the loop condition, its
      own thread gives the task up if the coroutine ended, and nothing if it yielded or blocked. */
  lemma {:induction false} GivenUpIffEnded(p: Proc, moves: seq<Move>, k: nat, n: nat, q: Proc, t: TaskId, ends: TaskState) returns (r: Proc)
    requires MovesLead(p, moves, k, q) && q.pc == Executing && q.running == Some(t) && MoveAt(moves, k) == Own(ends)
    requires k < n && forall j | k < j < n :: !BackAt(p, moves, j)
    ensures MovesLead(p, moves, n, r)
    ensures r.pc == Dispatch ==> GivenUp(p, moves, k, n) == IfEnded(ends, t)
    ensures r.pc != Dispatch ==> GivenUp(p, moves, k, n) == [] && Behind(r, ends, t)
    decreases n
  {
    if n == k + 1 {
      r := GivenUpFirst(p, moves, k, q, t, ends);
    } else {
      var s := GivenUpIffEnded(p, moves, k, n - 1, q, t, ends);
      BackIff(p, moves, n - 1, s);
      assert !BackAt(p, moves, n - 1);
      r := GivenUpMove(p, moves, k, n - 1, s, t, ends);
    }
  }
}
