/** The scheduler's balancing thread and its choice of a processor for new work.

    The processors are shared with other threads. What those add in between is the field
    `arrivals`: at every point where the balancing thread can be interrupted, all arrivals up
    to the next pause are added by their own addTask calls. */
module Schedulers {
  import opened Common
  import opened ProcessorMachine
  import opened Processors
  import opened BalancePlan

  datatype Arrival = Arrive(index: nat, tasks: seq<TaskId>) | Pause

  datatype Queues = Queues(newQue: seq<TaskId>, runQue: seq<TaskId>)

  /** What isWaiting() and isBlocking() answer for one processor. */
  datatype Probe = Probe(waiting: bool, blocking: bool)

  predicate IsBlocked(p: Probe) {
    !p.waiting && p.blocking
  }

  // ------------------------------------------------------------------ values of the shared state

  function Size(q: Queues): nat {
    |q.newQue| + |q.runQue|
  }

  /** Occurrences of a task in the queues. */
  function Queued(qs: seq<Queues>, t: TaskId): nat {
    if qs == [] then 0
    else
      var n := |qs| - 1;
      Queued(qs[..n], t) + multiset(qs[n].newQue)[t] + multiset(qs[n].runQue)[t]
  }

  /** Occurrences in what other threads will still add. */
  function Pending(arrivals: seq<Arrival>, t: TaskId): nat {
    if arrivals == [] then 0
    else (if arrivals[0].Arrive? then multiset(arrivals[0].tasks)[t] else 0) + Pending(arrivals[1..], t)
  }

  /** Occurrences anywhere: queued, about to be added, or held by the balancing thread. */
  function Anywhere(qs: seq<Queues>, arrivals: seq<Arrival>, hand: seq<TaskId>, t: TaskId): nat {
    Queued(qs, t) + Pending(arrivals, t) + multiset(hand)[t]
  }

  function PendingTo(arrivals: seq<Arrival>, i: nat): nat {
    if arrivals == [] then 0
    else (if arrivals[0].Arrive? && arrivals[0].index == i then |arrivals[0].tasks| else 0) + PendingTo(arrivals[1..], i)
  }

  /** The length of every processor's queues, counting what other threads will still add there. */
  function WeightsOf(qs: seq<Queues>, arrivals: seq<Arrival>): (ws: seq<nat>)
    ensures |ws| == |qs|
  {
    seq(|qs|, i requires 0 <= i < |qs| => Size(qs[i]) + PendingTo(arrivals, i))
  }

  predicate IsSuffix(a: seq<Arrival>, b: seq<Arrival>) {
    |a| <= |b| && a == b[|b| - |a|..]
  }

  lemma {:induction false} PendingShrinks(a: seq<Arrival>, b: seq<Arrival>, i: nat)
    requires IsSuffix(a, b)
    ensures PendingTo(a, i) <= PendingTo(b, i)
  {
    if |a| < |b| {
      PendingShrinks(a, b[1..], i);
    }
  }

  lemma {:induction false} QueuedUpdate(qs: seq<Queues>, i: nat, q: Queues, t: TaskId)
    requires i < |qs|
    ensures Queued(qs[i := q], t) + multiset(qs[i].newQue)[t] + multiset(qs[i].runQue)[t]
         == Queued(qs, t) + multiset(q.newQue)[t] + multiset(q.runQue)[t]
  {
    var n := |qs| - 1;
    var u := qs[i := q];
    if i == n {
      assert u[..n] == qs[..n];
    } else {
      QueuedUpdate(qs[..n], i, q, t);
      assert u[..n] == qs[..n][i := q];
    }
  }

  // ------------------------------------------------------------------ what one call does

  /** Tasks `tasks` of the hand `tasks + rest` are added to queue pair `i`. */
  lemma AnywhereGive(qs: seq<Queues>, i: nat, tasks: seq<TaskId>, rest: seq<TaskId>, arrivals: seq<Arrival>, t: TaskId)
    requires i < |qs|
    ensures Anywhere(qs[i := Queues(qs[i].newQue + tasks, qs[i].runQue)], arrivals, rest, t)
         == Anywhere(qs, arrivals, tasks + rest, t)
  {
    QueuedUpdate(qs, i, Queues(qs[i].newQue + tasks, qs[i].runQue), t);
    Joined(qs[i].newQue, tasks, t);
    Joined(tasks, rest, t);
  }

  lemma WeightsGive(qs: seq<Queues>, i: nat, tasks: seq<TaskId>, arrivals: seq<Arrival>)
    requires i < |qs|
    ensures WeightsOf(qs[i := Queues(qs[i].newQue + tasks, qs[i].runQue)], arrivals) == Plus(WeightsOf(qs, arrivals), i, |tasks|)
  {
  }

  lemma WeightsLess(qs: seq<Queues>, i: nat, q: Queues, n: nat, arrivals: seq<Arrival>)
    requires i < |qs| && Size(q) + n == Size(qs[i])
    ensures WeightsOf(qs, arrivals) == Plus(WeightsOf(qs[i := q], arrivals), i, n)
  {
  }

  /** What steal leaves behind and what it takes. */
  ghost predicate Stolen(before: Queues, n: nat, after: Queues, result: seq<TaskId>) {
    if n == 0 then
      result == before.newQue && after == Queues([], before.runQue)
    else
      var fromNew := LastOf(before.newQue, n);
      && after == Queues(AllBut(before.newQue, n), AllBut(before.runQue, n - |fromNew|))
      && result == fromNew + LastOf(before.runQue, n - |fromNew|)
  }

  lemma StolenCounts(before: Queues, n: nat, after: Queues, result: seq<TaskId>, t: TaskId)
    requires Stolen(before, n, after, result)
    ensures multiset(after.newQue)[t] + multiset(after.runQue)[t] + multiset(result)[t]
         == multiset(before.newQue)[t] + multiset(before.runQue)[t]
  {
    if n > 0 {
      var fromNew := LastOf(before.newQue, n);
      Split(before.newQue, n, t);
      Split(before.runQue, n - |fromNew|, t);
      Joined(fromNew, LastOf(before.runQue, n - |fromNew|), t);
    }
  }

  lemma StolenSize(before: Queues, n: nat, after: Queues, result: seq<TaskId>)
    requires Stolen(before, n, after, result)
    ensures Size(after) + |result| == Size(before)
    ensures n > 0 ==> |result| == Min(n, Size(before))
  {
    if n > 0 {
      var fromNew := LastOf(before.newQue, n);
      assert AllBut(before.newQue, n) + fromNew == before.newQue;
      assert AllBut(before.runQue, n - |fromNew|) + LastOf(before.runQue, n - |fromNew|) == before.runQue;
    }
  }

  /** The stolen tasks join the hand. */
  lemma AnywhereSteal(qs: seq<Queues>, i: nat, n: nat, q: Queues, result: seq<TaskId>, hand: seq<TaskId>, arrivals: seq<Arrival>, t: TaskId)
    requires i < |qs| && Stolen(qs[i], n, q, result)
    ensures Anywhere(qs[i := q], arrivals, hand + result, t) == Anywhere(qs, arrivals, hand, t)
  {
    QueuedUpdate(qs, i, q, t);
    StolenCounts(qs[i], n, q, result, t);
    Joined(hand, result, t);
  }

  /** The same for all tasks, and what the steal does to the lengths. */
  lemma StealAccounts(qs: seq<Queues>, i: nat, n: nat, q: Queues, result: seq<TaskId>, hand: seq<TaskId>, arrivals: seq<Arrival>)
    requires i < |qs| && Stolen(qs[i], n, q, result)
    ensures forall t :: Anywhere(qs[i := q], arrivals, hand + result, t) == Anywhere(qs, arrivals, hand, t)
    ensures WeightsOf(qs, arrivals) == Plus(WeightsOf(qs[i := q], arrivals), i, |result|)
    ensures n > 0 ==> |result| == Min(n, Size(qs[i]))
  {
    StolenSize(qs[i], n, q, result);
    WeightsLess(qs, i, q, |result|, arrivals);
    forall t ensures Anywhere(qs[i := q], arrivals, hand + result, t) == Anywhere(qs, arrivals, hand, t) {
      AnywhereSteal(qs, i, n, q, result, hand, arrivals, t);
    }
  }

  /** An arrival moves its tasks from the pending ones to a queue. */
  lemma AnywhereArrival(qs: seq<Queues>, arrivals: seq<Arrival>, hand: seq<TaskId>, t: TaskId)
    requires arrivals != [] && arrivals[0].Arrive? && arrivals[0].index < |qs|
    ensures var i, ts := arrivals[0].index, arrivals[0].tasks;
      Anywhere(qs[i := Queues(qs[i].newQue + ts, qs[i].runQue)], arrivals[1..], hand, t) == Anywhere(qs, arrivals, hand, t)
  {
    var i, ts := arrivals[0].index, arrivals[0].tasks;
    QueuedUpdate(qs, i, Queues(qs[i].newQue + ts, qs[i].runQue), t);
    Joined(qs[i].newQue, ts, t);
  }

  lemma WeightsArrival(qs: seq<Queues>, arrivals: seq<Arrival>)
    requires arrivals != []
    ensures arrivals[0].Arrive? && arrivals[0].index < |qs| ==>
      var i, ts := arrivals[0].index, arrivals[0].tasks;
      WeightsOf(qs[i := Queues(qs[i].newQue + ts, qs[i].runQue)], arrivals[1..]) == WeightsOf(qs, arrivals)
    ensures arrivals[0].Pause? ==> WeightsOf(qs, arrivals[1..]) == WeightsOf(qs, arrivals)
  {
  }

  /** The new queue may have become longer at its end. */
  predicate GrownAt(before: Queues, now: Queues) {
    now.runQue == before.runQue && before.newQue <= now.newQue
  }

  /** Nothing was taken from any queue. */
  ghost predicate Grown(before: seq<Queues>, now: seq<Queues>) {
    |now| == |before| && forall i {:trigger GrownAt(before[i], now[i])} | 0 <= i < |now| :: GrownAt(before[i], now[i])
  }

  /** Nothing was taken, and other threads have at most done what they had to do. */
  ghost predicate Since(before: seq<Queues>, earlier: seq<Arrival>, now: seq<Queues>, later: seq<Arrival>) {
    Grown(before, now) && IsSuffix(later, earlier)
  }

  lemma SinceTwice(a: seq<Queues>, x: seq<Arrival>, b: seq<Queues>, y: seq<Arrival>, c: seq<Queues>, z: seq<Arrival>)
    requires Since(a, x, b, y) && Since(b, y, c, z)
    ensures Since(a, x, c, z)
  {
    SuffixTwice(x, y, z);
    forall i | 0 <= i < |c| ensures GrownAt(a[i], c[i]) {
      assert GrownAt(a[i], b[i]) && GrownAt(b[i], c[i]);
    }
  }

  lemma SuffixTwice(x: seq<Arrival>, y: seq<Arrival>, z: seq<Arrival>)
    requires IsSuffix(y, x) && IsSuffix(z, y)
    ensures IsSuffix(z, x)
  {
  }

  lemma GrownByTasks(qs: seq<Queues>, i: nat, tasks: seq<TaskId>)
    requires i < |qs|
    ensures Grown(qs, qs[i := Queues(qs[i].newQue + tasks, qs[i].runQue)])
  {
  }

  lemma GrownSize(before: seq<Queues>, now: seq<Queues>, i: nat)
    requires Grown(before, now) && i < |now|
    ensures Size(before[i]) <= Size(now[i]) && |before[i].newQue| <= |now[i].newQue|
  {
    assert GrownAt(before[i], now[i]);
  }

  /** Only from the active and the blocked processors may tasks have been taken, and from their
      run queues only at the end. */
  ghost predicate TakenOnlyFrom(before: seq<Queues>, now: seq<Queues>, actives: seq<Active>, blockings: seq<nat>) {
    |now| == |before| &&
    forall i {:trigger KeptAt(before[i], now[i], MayTake(actives, blockings, i))} | 0 <= i < |now| ::
      KeptAt(before[i], now[i], MayTake(actives, blockings, i))
  }

  predicate MayTake(actives: seq<Active>, blockings: seq<nat>, i: nat) {
    IsActive(actives, i) || i in blockings
  }

  predicate KeptAt(before: Queues, now: Queues, mayTake: bool) {
    now.runQue <= before.runQue && (mayTake || GrownAt(before, now))
  }

  lemma TakenTwice(a: seq<Queues>, b: seq<Queues>, c: seq<Queues>, actives: seq<Active>, blockings: seq<nat>)
    requires TakenOnlyFrom(a, b, actives, blockings) && TakenOnlyFrom(b, c, actives, blockings)
    ensures TakenOnlyFrom(a, c, actives, blockings)
  {
    forall i | 0 <= i < |c| ensures KeptAt(a[i], c[i], MayTake(actives, blockings, i)) {
      var may := MayTake(actives, blockings, i);
      assert KeptAt(a[i], b[i], may) && KeptAt(b[i], c[i], may);
    }
  }

  lemma GrownIsKept(a: seq<Queues>, b: seq<Queues>, actives: seq<Active>, blockings: seq<nat>)
    requires Grown(a, b)
    ensures TakenOnlyFrom(a, b, actives, blockings)
  {
    forall i | 0 <= i < |b| ensures KeptAt(a[i], b[i], MayTake(actives, blockings, i)) {
      assert GrownAt(a[i], b[i]);
    }
  }

  lemma StolenKept(qs: seq<Queues>, i: nat, n: nat, q: Queues, result: seq<TaskId>, actives: seq<Active>, blockings: seq<nat>)
    requires i < |qs| && Stolen(qs[i], n, q, result) && MayTake(actives, blockings, i)
    ensures TakenOnlyFrom(qs, qs[i := q], actives, blockings)
  {
    forall k | 0 <= k < |qs| ensures KeptAt(qs[k], qs[i := q][k], MayTake(actives, blockings, k)) {
      assert k != i ==> GrownAt(qs[k], qs[i := q][k]);
    }
  }

  lemma TakenFromMore(a: seq<Queues>, b: seq<Queues>, actives: seq<Active>, blockings: seq<nat>, actives': seq<Active>, blockings': seq<nat>)
    requires TakenOnlyFrom(a, b, actives, blockings)
    requires forall i | MayTake(actives, blockings, i) :: MayTake(actives', blockings', i)
    ensures TakenOnlyFrom(a, b, actives', blockings')
  {
    forall i | 0 <= i < |b| ensures KeptAt(a[i], b[i], MayTake(actives', blockings', i)) {
      assert KeptAt(a[i], b[i], MayTake(actives, blockings, i));
    }
  }

  // ------------------------------------------------------------------ what is taken from the blocked

  /** From a blocked processor `n` tasks are gone, at least all that were new before. */
  predicate BlockedAt(before: Queues, w: nat, now: Queues, w': nat, n: nat, blocked: bool) {
    if blocked then now.runQue == before.runQue && |before.newQue| <= n && w' + n == w else n == 0
  }

  /** `taken` says how many tasks were taken from each processor. */
  ghost predicate BlockedAfter(before: seq<Queues>, ws: seq<nat>, now: seq<Queues>, ws': seq<nat>, taken: seq<nat>, blockings: seq<nat>) {
    && |before| == |ws| == |now| == |ws'| == |taken|
    && forall i {:trigger BlockedAt(before[i], ws[i], now[i], ws'[i], taken[i], i in blockings)} | 0 <= i < |now| ::
         BlockedAt(before[i], ws[i], now[i], ws'[i], taken[i], i in blockings)
  }

  /** The same while the blocked processors are gone through. */
  predicate CollectedAt(before: Queues, w: nat, now: Queues, w': nat, n: nat, blocked: bool) {
    BlockedAt(before, w, now, w', n, blocked) && (!blocked ==> GrownAt(before, now) && w' == w)
  }

  ghost predicate Collected(before: seq<Queues>, ws: seq<nat>, now: seq<Queues>, ws': seq<nat>, taken: seq<nat>, blockings: seq<nat>) {
    && |before| == |ws| == |now| == |ws'| == |taken|
    && forall i {:trigger CollectedAt(before[i], ws[i], now[i], ws'[i], taken[i], i in blockings)} | 0 <= i < |now| ::
         CollectedAt(before[i], ws[i], now[i], ws'[i], taken[i], i in blockings)
  }

  function Nothing(n: nat): (taken: seq<nat>)
    ensures |taken| == n && forall i | 0 <= i < n :: taken[i] == 0
  {
    seq(n, i => 0)
  }

  lemma {:induction false} SumOfNothing(n: nat)
    ensures SumOf(Nothing(n)) == 0
    decreases n
  {
    if n > 0 {
      assert Nothing(n)[..n - 1] == Nothing(n - 1);
      SumOfNothing(n - 1);
    }
  }

  lemma {:induction false} SumOfUpdate(s: seq<nat>, i: nat, n: nat)
    requires i < |s|
    ensures SumOf(s[i := s[i] + n]) == SumOf(s) + n
    decreases |s|
  {
    var last := |s| - 1;
    var u := s[i := s[i] + n];
    if i == last {
      assert u[..last] == s[..last];
    } else {
      assert u[..last] == s[..last][i := s[i] + n];
      SumOfUpdate(s[..last], i, n);
    }
  }

  lemma NothingCollected(qs: seq<Queues>, ws: seq<nat>)
    requires |qs| == |ws|
    ensures Collected(qs, ws, qs, ws, Nothing(|qs|), [])
  {
    forall i | 0 <= i < |qs| ensures CollectedAt(qs[i], ws[i], qs[i], ws[i], Nothing(|qs|)[i], i in []) {
    }
  }

  /** Other threads add tasks, then one blocked processor loses its new queue. */
  lemma CollectedMore(before: seq<Queues>, ws: seq<nat>, qs: seq<Queues>, ws': seq<nat>, taken: seq<nat>, blockings: seq<nat>,
                      mid: seq<Queues>, b: nat, q: Queues, result: seq<TaskId>, ws'': seq<nat>)
    requires Collected(before, ws, qs, ws', taken, blockings) && Grown(qs, mid)
    requires b < |mid| && Stolen(mid[b], 0, q, result) && ws' == Plus(ws'', b, |result|)
    ensures Collected(before, ws, mid[b := q], ws'', taken[b := taken[b] + |result|], blockings + [b])
  {
    var now, taken', more := mid[b := q], taken[b := taken[b] + |result|], blockings + [b];
    forall i | 0 <= i < |now| ensures CollectedAt(before[i], ws[i], now[i], ws''[i], taken'[i], i in more) {
      assert CollectedAt(before[i], ws[i], qs[i], ws'[i], taken[i], i in blockings) && GrownAt(qs[i], mid[i]);
      assert i in more <==> i in blockings || i == b;
      OneCollected(before[i], ws[i], qs[i], ws'[i], taken[i], i in blockings, mid[i], i == b, now[i], ws''[i], result);
    }
  }

  lemma OneCollected(before: Queues, w: nat, q: Queues, w': nat, n: nat, blocked: bool,
                     mid: Queues, stolen: bool, now: Queues, w'': nat, result: seq<TaskId>)
    requires CollectedAt(before, w, q, w', n, blocked) && GrownAt(q, mid)
    requires if stolen then Stolen(mid, 0, now, result) && w' == w'' + |result| else now == mid && w'' == w'
    ensures CollectedAt(before, w, now, w'', if stolen then n + |result| else n, blocked || stolen)
  {
  }

  /** What is handed out afterwards goes to other processors. */
  lemma BlockedByCollection(before: seq<Queues>, ws: seq<nat>, mid: seq<Queues>, ws': seq<nat>, taken: seq<nat>, blockings: seq<nat>,
                            now: seq<Queues>, ws'': seq<nat>)
    requires Collected(before, ws, mid, ws', taken, blockings) && Grown(mid, now) && |ws''| == |now|
    requires forall i | 0 <= i < |now| && i in blockings :: ws''[i] == ws'[i]
    ensures BlockedAfter(before, ws, now, ws'', taken, blockings) && TakenOnlyFrom(before, now, [], blockings)
  {
    forall i | 0 <= i < |now|
      ensures BlockedAt(before[i], ws[i], now[i], ws''[i], taken[i], i in blockings)
      ensures KeptAt(before[i], now[i], MayTake([], blockings, i))
    {
      assert CollectedAt(before[i], ws[i], mid[i], ws'[i], taken[i], i in blockings) && GrownAt(mid[i], now[i]);
    }
  }

  lemma NothingHandedOut(before: seq<Queues>, ws: seq<nat>, now: seq<Queues>, ws': seq<nat>, taken: seq<nat>, blockings: seq<nat>, actives: seq<Active>)
    requires Collected(before, ws, now, ws', taken, blockings) && SumOf(taken) == 0 && actives != []
    ensures BlockedAfter(before, ws, now, ws', taken, blockings) && TakenOnlyFrom(before, now, [], blockings)
    ensures BlockBalanced(ws, ws', blockings, 0, actives, 1, 0)
  {
    GrownSelf(now);
    BlockedByCollection(before, ws, now, ws', taken, blockings, now, ws');
    CollectedWeights(before, ws, now, ws', taken, blockings);
  }

  lemma GrownSelf(qs: seq<Queues>)
    ensures Grown(qs, qs)
  {
  }

  lemma CollectedWeights(before: seq<Queues>, ws: seq<nat>, now: seq<Queues>, ws': seq<nat>, taken: seq<nat>, blockings: seq<nat>)
    requires Collected(before, ws, now, ws', taken, blockings)
    ensures forall i | 0 <= i < |ws| && i !in blockings :: ws'[i] == ws[i]
  {
    forall i | 0 <= i < |ws| && i !in blockings ensures ws'[i] == ws[i] {
      assert CollectedAt(before[i], ws[i], now[i], ws'[i], taken[i], i in blockings);
    }
  }

  lemma HandedOut(before: seq<Queues>, ws: seq<nat>, mid: seq<Queues>, ws': seq<nat>, taken: seq<nat>, blockings: seq<nat>,
                  now: seq<Queues>, ws'': seq<nat>, actives: seq<Active>, m: nat, level: nat)
    requires Collected(before, ws, mid, ws', taken, blockings) && Grown(mid, now) && |ws''| == |now| && SumOf(taken) > 0
    requires forall b | b in blockings :: !IsActive(actives, b)
    requires SharedOut(ws', ws'', SumOf(taken), actives, m, level)
    ensures BlockedAfter(before, ws, now, ws'', taken, blockings) && TakenOnlyFrom(before, now, [], blockings)
    ensures BlockBalanced(ws, ws'', blockings, SumOf(taken), actives, m, level)
  {
    forall i | 0 <= i < |now| && i in blockings ensures ws''[i] == ws'[i] {
      assert !IsActive(actives, i);
    }
    BlockedByCollection(before, ws, mid, ws', taken, blockings, now, ws'');
    CollectedWeights(before, ws, mid, ws', taken, blockings);
    BlockedInTwo(ws, ws', ws'', blockings, SumOf(taken), actives, m, level);
  }

  /** A blocked processor is left alone by what takes tasks only from others. */
  lemma BlockedStays(before: seq<Queues>, ws: seq<nat>, mid: seq<Queues>, ws': seq<nat>, taken: seq<nat>, blockings: seq<nat>,
                     now: seq<Queues>, ws'': seq<nat>, actives: seq<Active>)
    requires BlockedAfter(before, ws, mid, ws', taken, blockings) && TakenOnlyFrom(mid, now, actives, []) && |ws''| == |now|
    requires forall i | 0 <= i < |now| && i in blockings :: !IsActive(actives, i) && ws''[i] == ws'[i]
    ensures BlockedAfter(before, ws, now, ws'', taken, blockings)
  {
    forall i | 0 <= i < |now| ensures BlockedAt(before[i], ws[i], now[i], ws''[i], taken[i], i in blockings) {
      assert BlockedAt(before[i], ws[i], mid[i], ws'[i], taken[i], i in blockings);
      assert KeptAt(mid[i], now[i], MayTake(actives, [], i));
    }
  }

  lemma BlockedSince(start: seq<Queues>, before: seq<Queues>, ws: seq<nat>, now: seq<Queues>, ws': seq<nat>, taken: seq<nat>, blockings: seq<nat>)
    requires Grown(start, before) && BlockedAfter(before, ws, now, ws', taken, blockings)
    ensures BlockedAfter(start, ws, now, ws', taken, blockings)
  {
    forall i | 0 <= i < |now| ensures BlockedAt(start[i], ws[i], now[i], ws'[i], taken[i], i in blockings) {
      assert GrownAt(start[i], before[i]) && BlockedAt(before[i], ws[i], now[i], ws'[i], taken[i], i in blockings);
    }
  }

  /** The first `k` actives have no fewer tasks now than when their load was recorded. */
  ghost predicate Covers(qs: seq<Queues>, actives: seq<Active>, k: nat) {
    forall j | 0 <= j < k && j < |actives| ::
      actives[j].index < |qs| && actives[j].load <= Size(qs[actives[j].index])
  }

  /** The actives from `j` on have been cut down to `avg`, if the recorded loads were covered. */
  ghost predicate CutTo(covered: bool, qs: seq<Queues>, before: seq<nat>, now: seq<nat>, taken: nat, actives: seq<Active>, j: nat, avg: nat)
    requires j <= |actives|
  {
    covered ==> Covers(qs, actives, j) && taken == Surpluses(actives, j, avg) && before == PlusSurplus(now, actives, j, avg)
  }

  lemma CutStep(covered: bool, qs: seq<Queues>, qs': seq<Queues>, before: seq<nat>, ws: seq<nat>, now: seq<nat>,
                n: nat, taken: nat, actives: seq<Active>, j: nat, avg: nat)
    requires j < |actives| && CutTo(covered, qs, before, ws, n, actives, j + 1, avg)
    requires Covers(qs, actives, j + 1) ==>
      && Covers(qs', actives, j) && taken == n + Surplus(actives[j], avg)
      && ws == Plus(now, actives[j].index, Surplus(actives[j], avg))
    ensures CutTo(covered, qs', before, now, taken, actives, j, avg)
  {
  }

  predicate InRange(actives: seq<Active>, n: nat) {
    forall a | a in actives :: a.index < n
  }

  lemma InRangeAt(actives: seq<Active>, n: nat, j: nat)
    requires InRange(actives, n) && j < |actives|
    ensures actives[j].index < n
  {
    assert actives[j] in actives;
  }

  /** The surplus was stolen and handed out. */
  lemma Relevelled(covered: bool, before: seq<nat>, between: seq<nat>, now: seq<nat>, n: nat, actives: seq<Active>, avg: nat)
    requires actives != [] && avg == SumLoads(actives) / |actives| && DistinctIndexes(actives) && InRange(actives, |between|)
    requires covered ==> n == Surpluses(actives, 0, avg) && before == PlusSurplus(between, actives, 0, avg)
    requires n >= Deficits(actives, |actives|, avg) ==>
      now == Plus(PlusDeficit(between, actives, |actives|, avg), actives[0].index, n - Deficits(actives, |actives|, avg))
    ensures covered ==> LevelledOut(before, now, actives)
  {
    SurplusCoversDeficits(actives, avg);
    LevelsReached(before, between, actives, avg);
  }

  /** There was none. */
  lemma LevelledWithout(covered: bool, before: seq<nat>, between: seq<nat>, actives: seq<Active>, avg: nat)
    requires actives != [] && avg == SumLoads(actives) / |actives| && DistinctIndexes(actives) && InRange(actives, |between|)
    requires covered ==> Surpluses(actives, 0, avg) == 0 && before == PlusSurplus(between, actives, 0, avg)
    ensures covered ==> LevelledOut(before, between, actives)
  {
    LevelsWithout(before, between, actives, avg);
  }

  predicate IsActive(actives: seq<Active>, i: nat) {
    exists a | a in actives :: a.index == i
  }

  /** The entries recorded so far: the active ones among the first `i` processors. Each load was
      the length at some moment since the start. The definition is unfolded only where AreRecorded
      is named. */
  ghost predicate Recorded(start: seq<Queues>, qs: seq<Queues>, actives: seq<Active>, i: nat, flags: seq<bool>) {
    |start| == |qs| &&
    forall n {:trigger AreRecorded(start, qs, actives, n, flags)} | n == i :: AreRecorded(start, qs, actives, n, flags)
  }

  ghost predicate AreRecorded(start: seq<Queues>, qs: seq<Queues>, actives: seq<Active>, n: nat, flags: seq<bool>)
    requires |start| == |qs|
  {
    && (forall x | x in actives :: x.index < n && x.index < |qs| && Size(start[x.index]) <= x.load <= Size(qs[x.index]))
    && (forall k: nat :: IsActive(actives, k) <==> k < n && k < |flags| && flags[k])
  }

  lemma RecordedActives(start: seq<Queues>, qs: seq<Queues>, actives: seq<Active>, n: nat, flags: seq<bool>)
    requires Recorded(start, qs, actives, n, flags)
    ensures forall k: nat :: IsActive(actives, k) <==> k < n && k < |flags| && flags[k]
  {
    assert AreRecorded(start, qs, actives, n, flags);
  }

  lemma RecordMore(start: seq<Queues>, qs: seq<Queues>, actives: seq<Active>, load: nat, i: nat, flags: seq<bool>)
    requires i < |qs| == |flags| && Recorded(start, qs, actives, i, flags) && Size(start[i]) <= load <= Size(qs[i])
    ensures flags[i] ==> Recorded(start, qs, Emplace(actives, Active(load, i)), i + 1, flags)
    ensures !flags[i] ==> Recorded(start, qs, actives, i + 1, flags)
  {
    assert AreRecorded(start, qs, actives, i, flags);
    var a := Active(load, i);
    var more := Emplace(actives, a);
    forall x ensures x in more <==> x in actives || x == a {
      EmplaceMembers(actives, a, x);
    }
    forall k: nat ensures IsActive(more, k) <==> IsActive(actives, k) || k == i {
      if IsActive(actives, k) {
        var x :| x in actives && x.index == k;
        assert x in more;
      }
      assert a in more;
    }
  }

  /** The same with what else is known about the entries. */
  lemma Recording(start: seq<Queues>, qs: seq<Queues>, actives: seq<Active>, count: nat, load: nat, i: nat, flags: seq<bool>)
    requires i < |qs| == |flags| && Recorded(start, qs, actives, i, flags) && Size(start[i]) <= load <= Size(qs[i])
    requires Sorted(actives) && DistinctIndexes(actives) && count == SumLoads(actives)
    ensures flags[i] ==>
      var more := Emplace(actives, Active(load, i));
      && Sorted(more) && DistinctIndexes(more) && |more| == |actives| + 1 && SumLoads(more) == count + load
      && Recorded(start, qs, more, i + 1, flags)
    ensures !flags[i] ==> Recorded(start, qs, actives, i + 1, flags)
  {
    assert AreRecorded(start, qs, actives, i, flags);
    EmplaceRecord(actives, load, i);
    RecordMore(start, qs, actives, load, i, flags);
  }

  lemma StillRecorded(start: seq<Queues>, qs: seq<Queues>, qs': seq<Queues>, actives: seq<Active>, i: nat, flags: seq<bool>)
    requires Recorded(start, qs, actives, i, flags) && Grown(qs, qs')
    ensures Recorded(start, qs', actives, i, flags)
  {
    assert AreRecorded(start, qs, actives, i, flags);
    forall x | x in actives ensures x.load <= Size(qs'[x.index]) {
      GrownSize(qs, qs', x.index);
    }
  }

  /** Which processors are active when the first `n` have been gone through: those that were, and
      those that do not block any more. */
  function FlagsAfter(flags: seq<bool>, probes: seq<Probe>, n: nat): (r: seq<bool>)
    requires |probes| == |flags|
    ensures |r| == |flags| && forall i | 0 <= i < |r| :: r[i] == (flags[i] || (i < n && !IsBlocked(probes[i])))
  {
    seq(|flags|, i requires 0 <= i < |flags| => flags[i] || (i < n && !IsBlocked(probes[i])))
  }

  /** The index left behind by the second pass: that of the last processor made active again. */
  function LastReactivated(flags: seq<bool>, probes: seq<Probe>, n: nat, before: nat): nat
    requires n <= |flags| && n <= |probes|
  {
    if n == 0 then before
    else if !flags[n - 1] && !IsBlocked(probes[n - 1]) then n - 1
    else LastReactivated(flags, probes, n - 1, before)
  }

  lemma SameFlags(flags: seq<bool>, i: nat)
    requires i < |flags| && flags[i]
    ensures flags[i := true] == flags
  {
  }

  lemma FlagsStep(flags: seq<bool>, probes: seq<Probe>, n: nat, last: nat)
    requires n < |flags| == |probes|
    ensures LastReactivated(flags, probes, n + 1, last) ==
      if !flags[n] && !IsBlocked(probes[n]) then n else LastReactivated(flags, probes, n, last)
    ensures FlagsAfter(flags, probes, n + 1) == FlagsAfter(flags, probes, n)[n := flags[n] || !IsBlocked(probes[n])]
  {
  }

  /** The processors that block and do not wait, in order, among the first `n`. */
  function BlockedOf(probes: seq<Probe>, n: nat): seq<nat>
    requires n <= |probes|
  {
    if n == 0 then [] else BlockedOf(probes, n - 1) + if IsBlocked(probes[n - 1]) then [n - 1] else []
  }

  /** The flags when the blocked ones of the first `n` processors were made inactive. */
  function FlagsWithout(flags: seq<bool>, probes: seq<Probe>, n: nat): (r: seq<bool>)
    requires |probes| == |flags|
    ensures |r| == |flags| && forall i | 0 <= i < |r| :: r[i] == (flags[i] && !(i < n && IsBlocked(probes[i])))
  {
    seq(|flags|, i requires 0 <= i < |flags| => flags[i] && !(i < n && IsBlocked(probes[i])))
  }

  lemma FlagsWithoutNext(flags: seq<bool>, probes: seq<Probe>, n: nat)
    requires n < |flags| == |probes|
    ensures FlagsWithout(flags, probes, n + 1) ==
      FlagsWithout(flags, probes, n)[n := FlagsWithout(flags, probes, n)[n] && !IsBlocked(probes[n])]
  {
  }

  /** Exactly the processors that block and do not wait, in order. Unfolded only where AreBlocked
      is named. */
  ghost predicate BlockedAre(probes: seq<Probe>, blockings: seq<nat>) {
    forall n {:trigger AreBlocked(probes, n, blockings)} | n == |probes| :: AreBlocked(probes, n, blockings)
  }

  ghost predicate AreBlocked(probes: seq<Probe>, n: nat, blockings: seq<nat>) {
    && n <= |probes|
    && (forall b: nat :: b in blockings <==> b < n && probes[b].blocking && !probes[b].waiting)
    && forall j, k | 0 <= j < k < |blockings| :: blockings[j] < blockings[k]
  }

  lemma {:induction false} BlockedOfAre(probes: seq<Probe>, n: nat)
    requires n <= |probes|
    ensures AreBlocked(probes, n, BlockedOf(probes, n))
  {
    if n > 0 {
      BlockedOfAre(probes, n - 1);
      var init := BlockedOf(probes, n - 1);
      forall k | 0 <= k < |init| ensures init[k] < n - 1 {
        assert init[k] in init;
      }
    }
  }

  /** Recorded are exactly the processors that were active and are not blocked. */
  ghost predicate ActiveAre(flags: seq<bool>, blockings: seq<nat>, actives: seq<Active>) {
    forall n {:trigger AreActive(flags, blockings, actives, n)} | n == |flags| :: AreActive(flags, blockings, actives, n)
  }

  ghost predicate AreActive(flags: seq<bool>, blockings: seq<nat>, actives: seq<Active>, n: nat) {
    n == |flags| && forall i: nat :: IsActive(actives, i) <==> i < n && flags[i] && i !in blockings
  }

  lemma ActivesOfRound(flags: seq<bool>, first: seq<Probe>, blockings: seq<nat>, between: seq<bool>, actives: seq<Active>)
    requires |flags| == |first| == |between| && BlockedAre(first, blockings)
    requires forall i | 0 <= i < |flags| :: between[i] == (flags[i] && !(first[i].blocking && !first[i].waiting))
    requires forall k: nat :: IsActive(actives, k) <==> k < |between| && between[k]
    ensures ActiveAre(flags, blockings, actives)
  {
    assert AreBlocked(first, |first|, blockings);
    assert AreActive(flags, blockings, actives, |flags|);
  }

  /** Which processors are active after a round: those that were and did not block in the first
      pass, and those that do not block in the second. One that waits does not block. */
  ghost predicate FlagsEnd(flags: seq<bool>, first: seq<Probe>, second: seq<Probe>, flags': seq<bool>) {
    && |flags'| == |flags| == |first| == |second|
    && forall i {:trigger FlagEnds(flags[i], first[i], second[i], flags'[i])} | 0 <= i < |flags'| ::
         FlagEnds(flags[i], first[i], second[i], flags'[i])
  }

  predicate FlagEnds(flag: bool, first: Probe, second: Probe, flag': bool) {
    flag' == ((flag && !(first.blocking && !first.waiting)) || !(second.blocking && !second.waiting))
  }

  /** Not active after the first pass, and made active again by the second. */
  predicate Reactivated(flag: bool, first: Probe, second: Probe) {
    !(flag && !(first.blocking && !first.waiting)) && !(second.blocking && !second.waiting)
  }

  /** The last one that was made active again is remembered. Unfolded only where IsLast is named. */
  ghost predicate LastEnds(flags: seq<bool>, first: seq<Probe>, second: seq<Probe>, last: nat, last': nat) {
    && |flags| == |first| == |second|
    && forall n {:trigger IsLast(flags, first, second, last, n)} | n == last' :: IsLast(flags, first, second, last, n)
  }

  ghost predicate IsLast(flags: seq<bool>, first: seq<Probe>, second: seq<Probe>, last: nat, n: nat)
    requires |flags| == |first| == |second|
  {
    if forall i | 0 <= i < |flags| :: !Reactivated(flags[i], first[i], second[i]) then n == last
    else && n < |flags| && Reactivated(flags[n], first[n], second[n])
         && forall i | n < i < |flags| :: !Reactivated(flags[i], first[i], second[i])
  }

  /** What a round makes of the flags and of the probes of its two passes. Unfolded only where
      IsObserved is named. */
  ghost predicate Observed(flags: seq<bool>, first: seq<Probe>, second: seq<Probe>, blockings: seq<nat>, actives: seq<Active>,
                           flags': seq<bool>, last: nat, last': nat) {
    forall n {:trigger IsObserved(flags, first, second, blockings, actives, flags', last, n)} | n == last' ::
      IsObserved(flags, first, second, blockings, actives, flags', last, n)
  }

  ghost predicate IsObserved(flags: seq<bool>, first: seq<Probe>, second: seq<Probe>, blockings: seq<nat>, actives: seq<Active>,
                             flags': seq<bool>, last: nat, last': nat) {
    && BlockedAre(first, blockings) && ActiveAre(flags, blockings, actives)
    && FlagsEnd(flags, first, second, flags') && LastEnds(flags, first, second, last, last')
  }

  lemma BlockedAreNot(flags: seq<bool>, first: seq<Probe>, second: seq<Probe>, blockings: seq<nat>, actives: seq<Active>,
                      flags': seq<bool>, last: nat, last': nat)
    requires Observed(flags, first, second, blockings, actives, flags', last, last') && |first| == |flags|
    ensures forall b | b in blockings :: b < |first| && !IsActive(actives, b)
  {
    assert IsObserved(flags, first, second, blockings, actives, flags', last, last');
    assert AreBlocked(first, |first|, blockings) && AreActive(flags, blockings, actives, |flags|);
  }

  /** A processor that waits in the second pass ends active, and one that waits in the first is
      not blocked. */
  lemma WaitingEndsActive(flags: seq<bool>, first: seq<Probe>, second: seq<Probe>, blockings: seq<nat>, actives: seq<Active>,
                          flags': seq<bool>, last: nat, last': nat, i: nat)
    requires Observed(flags, first, second, blockings, actives, flags', last, last') && i < |flags| == |first|
    ensures first[i].waiting ==> i !in blockings && (flags[i] ==> IsActive(actives, i))
    ensures i < |flags'| == |second| && (second[i].waiting ==> flags'[i])
  {
    assert IsObserved(flags, first, second, blockings, actives, flags', last, last');
    assert AreBlocked(first, |first|, blockings) && AreActive(flags, blockings, actives, |flags|);
    assert FlagEnds(flags[i], first[i], second[i], flags'[i]);
  }

  lemma {:induction false} LastReactivatedIs(flags: seq<bool>, probes: seq<Probe>, n: nat, last: nat)
    requires n <= |flags| == |probes|
    ensures var r := LastReactivated(flags, probes, n, last);
      if forall i | 0 <= i < n :: flags[i] || IsBlocked(probes[i]) then r == last
      else r < n && !flags[r] && !IsBlocked(probes[r]) && forall i | r < i < n :: flags[i] || IsBlocked(probes[i])
  {
    if n > 0 {
      LastReactivatedIs(flags, probes, n - 1, last);
    }
  }

  lemma FlagsOfRound(flags: seq<bool>, first: seq<Probe>, second: seq<Probe>, between: seq<bool>, last: nat)
    requires |flags| == |first| == |second| == |between|
    requires forall i | 0 <= i < |flags| :: between[i] == (flags[i] && !(first[i].blocking && !first[i].waiting))
    ensures FlagsEnd(flags, first, second, FlagsAfter(between, second, |flags|))
    ensures LastEnds(flags, first, second, last, LastReactivated(between, second, |flags|, last))
  {
    LastReactivatedIs(between, second, |flags|, last);
    var after := FlagsAfter(between, second, |flags|);
    assert forall i | 0 <= i < |flags| :: FlagEnds(flags[i], first[i], second[i], after[i]);
    assert forall i | 0 <= i < |flags| :: Reactivated(flags[i], first[i], second[i]) <==> !between[i] && !IsBlocked(second[i]);
    assert IsLast(flags, first, second, last, LastReactivated(between, second, |flags|, last));
  }

  /** Every recorded load lies between the length at the start and what could ever be there. */
  ghost predicate LoadsBetween(start: seq<Queues>, ws: seq<nat>, actives: seq<Active>) {
    |start| == |ws| && forall a | a in actives :: a.index < |ws| && Size(start[a.index]) <= a.load <= ws[a.index]
  }

  lemma RecordedFits(start: seq<Queues>, qs: seq<Queues>, arrivals: seq<Arrival>, actives: seq<Active>, n: nat, flags: seq<bool>)
    requires Recorded(start, qs, actives, n, flags) && |qs| == n && |actives| <= n
    requires forall i | 0 <= i < n :: WeightsOf(qs, arrivals)[i] + n < SIZE
    ensures FitWord(actives) && Covers(qs, actives, |actives|) && InRange(actives, n)
    ensures LoadsBetween(start, WeightsOf(qs, arrivals), actives)
  {
    assert AreRecorded(start, qs, actives, n, flags);
    forall j | 0 <= j < |actives|
      ensures actives[j].load + |actives| < SIZE && actives[j].index < |qs| && actives[j].load <= Size(qs[actives[j].index])
    {
      assert actives[j] in actives;
      assert WeightsOf(qs, arrivals)[actives[j].index] + n < SIZE;
    }
  }

  lemma LoadsSince(start: seq<Queues>, mid: seq<Queues>, ws: seq<nat>, actives: seq<Active>)
    requires Grown(start, mid) && LoadsBetween(mid, ws, actives)
    ensures LoadsBetween(start, ws, actives)
  {
    forall a | a in actives ensures Size(start[a.index]) <= a.load {
      GrownSize(start, mid, a.index);
    }
  }

  /** Recorded loads are still covered when others have added tasks and this one was cut down. */
  lemma CutCovers(qs: seq<Queues>, mid: seq<Queues>, now: seq<Queues>, actives: seq<Active>, j: nat)
    requires j < |actives| && DistinctIndexes(actives) && Grown(qs, mid) && actives[j].index < |mid|
    requires |now| == |mid| && forall k | 0 <= k < |mid| && k != actives[j].index :: now[k] == mid[k]
    ensures Covers(qs, actives, j + 1) ==> Covers(now, actives, j) && actives[j].load <= Size(mid[actives[j].index])
  {
    if Covers(qs, actives, j + 1) {
      forall k | 0 <= k < j ensures actives[k].index < |now| && actives[k].load <= Size(now[actives[k].index]) {
        GrownSize(qs, mid, actives[k].index);
      }
      GrownSize(qs, mid, actives[j].index);
    }
  }

  /** Recorded loads still are no larger than the queues after balanceBlock. */
  lemma StillCovered(qs: seq<Queues>, arrivals: seq<Arrival>, qs': seq<Queues>, arrivals': seq<Arrival>,
                     actives: seq<Active>, blockings: seq<nat>, stolen: nat, m: nat, level: nat)
    requires |qs'| == |qs| && IsSuffix(arrivals', arrivals) && Covers(qs, actives, |actives|)
    requires forall b | b in blockings :: !IsActive(actives, b)
    requires BlockBalanced(WeightsOf(qs, arrivals), WeightsOf(qs', arrivals'), blockings, stolen, actives, m, level)
    ensures Covers(qs', actives, |actives|)
  {
    var before, after := WeightsOf(qs, arrivals), WeightsOf(qs', arrivals');
    forall j | 0 <= j < |actives|
      ensures actives[j].index < |qs'| && actives[j].load <= Size(qs'[actives[j].index])
    {
      var i := actives[j].index;
      assert actives[j] in actives;
      PendingShrinks(arrivals', arrivals, i);
      assert before[i] == Size(qs[i]) + PendingTo(arrivals, i);
      assert after[i] == Size(qs'[i]) + PendingTo(arrivals', i);
    }
  }

  // ------------------------------------------------------------------ a whole round

  /** What a round does: from every blocked processor at least all its new tasks go, and nothing
      else; every active one gets its share of them, and is then levelled unless the least
      loaded one is above the threshold; all others keep what they have. `between` has the
      lengths after the first step. */
  ghost predicate RoundDone(before: seq<Queues>, ws: seq<nat>, now: seq<Queues>, ws': seq<nat>, blockings: seq<nat>, actives: seq<Active>,
                            threshold: nat, taken: seq<nat>, m: nat, level: nat, between: seq<nat>) {
    && BlockedAfter(before, ws, now, ws', taken, blockings)
    && TakenOnlyFrom(before, now, actives, blockings)
    && (SumOf(taken) > 0 ==> Filling(SumOf(taken), actives, m, level))
    && BlockBalanced(ws, between, blockings, SumOf(taken), actives, m, level)
    && actives != []
    && if actives[0].load <= threshold then LevelledOut(between, ws', actives) else ws' == between
  }

  lemma BothDone(before: seq<Queues>, ws: seq<nat>, mid: seq<Queues>, between: seq<nat>, now: seq<Queues>, ws': seq<nat>,
                 blockings: seq<nat>, actives: seq<Active>, threshold: nat, taken: seq<nat>)
    requires BlockedAfter(before, ws, mid, between, taken, blockings) && TakenOnlyFrom(before, mid, [], blockings)
    requires TakenOnlyFrom(mid, now, actives, []) && |ws'| == |now| && actives != []
    requires forall b | b in blockings :: !IsActive(actives, b)
    requires if actives[0].load <= threshold then LevelledOut(between, ws', actives) else ws' == between
    ensures BlockedAfter(before, ws, now, ws', taken, blockings) && TakenOnlyFrom(before, now, actives, blockings)
  {
    forall i | 0 <= i < |now| && i in blockings ensures !IsActive(actives, i) && ws'[i] == between[i] {
      assert forall a | a in actives :: a.index != i;
    }
    BlockedStays(before, ws, mid, between, taken, blockings, now, ws', actives);
    TakenFromMore(before, mid, [], blockings, actives, blockings);
    TakenFromMore(mid, now, actives, [], actives, blockings);
    TakenTwice(before, mid, now, actives, blockings);
  }

  lemma RoundSince(start: seq<Queues>, before: seq<Queues>, ws: seq<nat>, now: seq<Queues>, ws': seq<nat>, blockings: seq<nat>, actives: seq<Active>,
                   threshold: nat, taken: seq<nat>, m: nat, level: nat, between: seq<nat>)
    requires Grown(start, before) && RoundDone(before, ws, now, ws', blockings, actives, threshold, taken, m, level, between)
    ensures RoundDone(start, ws, now, ws', blockings, actives, threshold, taken, m, level, between)
  {
    BlockedSince(start, before, ws, now, ws', taken, blockings);
    GrownIsKept(start, before, actives, blockings);
    TakenTwice(start, before, now, actives, blockings);
  }

  predicate NoneArrive(arrivals: seq<Arrival>) {
    forall a | a in arrivals :: a.Pause?
  }

  lemma {:induction false} NonePending(arrivals: seq<Arrival>, i: nat)
    requires NoneArrive(arrivals)
    ensures PendingTo(arrivals, i) == 0
    decreases |arrivals|
  {
    if arrivals != [] {
      assert arrivals[0] in arrivals;
      NonePending(arrivals[1..], i);
    }
  }

  lemma WeightsAreSizes(qs: seq<Queues>, arrivals: seq<Arrival>)
    requires NoneArrive(arrivals)
    ensures forall i | 0 <= i < |qs| :: WeightsOf(qs, arrivals)[i] == Size(qs[i])
  {
    forall i | 0 <= i < |qs| ensures WeightsOf(qs, arrivals)[i] == Size(qs[i]) {
      NonePending(arrivals, i);
    }
  }

  /** The lengths of the new queues of the blocked processors. */
  function NewOf(qs: seq<Queues>, blockings: seq<nat>): (r: seq<nat>)
    ensures |r| == |qs|
  {
    seq(|qs|, i requires 0 <= i < |qs| => if i in blockings then |qs[i].newQue| else 0)
  }

  /** The length at which the `j`-th active processor ends. */
  function EndLength(total: nat, actives: seq<Active>, m: nat, level: nat, threshold: nat, j: nat): nat
    requires 1 <= m <= |actives| && j < |actives|
  {
    (if actives[0].load <= threshold then Levelled(actives, j) else actives[j].load) +
    (if total > 0 then Share(total, actives, m, level, j) else 0)
  }

  /** A round in which nothing arrives: the loads are the lengths at the start; the blocked
      processors lose exactly their new queues; the active ones end at the computed lengths; all
      others are as before. */
  ghost predicate ExactRound(before: seq<Queues>, now: seq<Queues>, blockings: seq<nat>, actives: seq<Active>, threshold: nat, m: nat, level: nat) {
    var total := SumOf(NewOf(before, blockings));
    && |now| == |before| && 1 <= m <= |actives| && (total > 0 ==> Filling(total, actives, m, level))
    && (forall a | a in actives :: a.index < |before| && a.load == Size(before[a.index]))
    && (forall j | 0 <= j < |actives| :: actives[j].index < |now| &&
          Size(now[actives[j].index]) == EndLength(total, actives, m, level, threshold, j))
    && (forall i | 0 <= i < |now| && i in blockings :: now[i] == Queues([], before[i].runQue))
    && (forall i | 0 <= i < |now| && i !in blockings && !IsActive(actives, i) :: now[i] == before[i])
  }

  /** What the two steps do, and exactly what when nothing arrives. Unfolded only where DoneAndExact
      is named. */
  ghost predicate RoundEnds(before: seq<Queues>, arrivals: seq<Arrival>, ws: seq<nat>, now: seq<Queues>, ws': seq<nat>, blockings: seq<nat>,
                            actives: seq<Active>, threshold: nat, taken: seq<nat>, m: nat, level: nat, between: seq<nat>) {
    forall l {:trigger DoneAndExact(before, arrivals, ws, now, ws', blockings, actives, threshold, taken, m, l, between)} | l == level ::
      DoneAndExact(before, arrivals, ws, now, ws', blockings, actives, threshold, taken, m, l, between)
  }

  ghost predicate DoneAndExact(before: seq<Queues>, arrivals: seq<Arrival>, ws: seq<nat>, now: seq<Queues>, ws': seq<nat>, blockings: seq<nat>,
                               actives: seq<Active>, threshold: nat, taken: seq<nat>, m: nat, level: nat, between: seq<nat>) {
    && RoundDone(before, ws, now, ws', blockings, actives, threshold, taken, m, level, between)
    && (NoneArrive(arrivals) ==> ExactRound(before, now, blockings, actives, threshold, m, level))
  }

  lemma ExactlyNew(before: seq<Queues>, ws: seq<nat>, now: seq<Queues>, ws': seq<nat>, taken: seq<nat>, blockings: seq<nat>)
    requires BlockedAfter(before, ws, now, ws', taken, blockings)
    requires forall i | 0 <= i < |ws| :: ws[i] == Size(before[i]) && ws'[i] == Size(now[i])
    ensures taken == NewOf(before, blockings)
    ensures forall i | 0 <= i < |now| && i in blockings :: now[i] == Queues([], before[i].runQue)
  {
    forall i | 0 <= i < |now|
      ensures taken[i] == NewOf(before, blockings)[i] && (i in blockings ==> now[i] == Queues([], before[i].runQue))
    {
      assert BlockedAt(before[i], ws[i], now[i], ws'[i], taken[i], i in blockings);
    }
  }

  /** Where nothing was taken and the length is the same, nothing has changed. */
  lemma SameLength(before: Queues, now: Queues)
    requires GrownAt(before, now) && Size(now) == Size(before)
    ensures now == before
  {
  }

  lemma EndsAt(before: seq<Queues>, now: seq<Queues>, ws: seq<nat>, ws': seq<nat>, blockings: seq<nat>, actives: seq<Active>,
               threshold: nat, total: nat, m: nat, level: nat, between: seq<nat>, j: nat)
    requires j < |actives| && actives[j].index < |ws| && actives[j].index !in blockings && ws[actives[j].index] == actives[j].load
    requires BlockBalanced(ws, between, blockings, total, actives, m, level)
    requires if actives[0].load <= threshold then LevelledOut(between, ws', actives) else ws' == between
    ensures actives[j].index < |ws'| && ws'[actives[j].index] == EndLength(total, actives, m, level, threshold, j)
  {
  }

  lemma OthersEnd(ws: seq<nat>, ws': seq<nat>, blockings: seq<nat>, actives: seq<Active>,
                  threshold: nat, total: nat, m: nat, level: nat, between: seq<nat>, i: nat)
    requires i < |ws| && i !in blockings && !IsActive(actives, i)
    requires BlockBalanced(ws, between, blockings, total, actives, m, level)
    requires if actives[0].load <= threshold then LevelledOut(between, ws', actives) else ws' == between
    ensures i < |ws'| && ws'[i] == ws[i]
  {
    assert forall a | a in actives :: a.index != i;
  }

  lemma RoundWithoutArrivals(before: seq<Queues>, arrivals: seq<Arrival>, now: seq<Queues>, arrivals': seq<Arrival>,
                             blockings: seq<nat>, actives: seq<Active>, threshold: nat, taken: seq<nat>, m: nat, level: nat, between: seq<nat>)
    requires NoneArrive(arrivals) && IsSuffix(arrivals', arrivals)
    requires LoadsBetween(before, WeightsOf(before, arrivals), actives)
    requires forall i: nat | IsActive(actives, i) :: i !in blockings
    requires RoundDone(before, WeightsOf(before, arrivals), now, WeightsOf(now, arrivals'), blockings, actives, threshold, taken, m, level, between)
    ensures ExactRound(before, now, blockings, actives, threshold, m, level)
  {
    var ws, ws' := WeightsOf(before, arrivals), WeightsOf(now, arrivals');
    WeightsAreSizes(before, arrivals);
    WeightsAreSizes(now, arrivals');
    ExactlyNew(before, ws, now, ws', taken, blockings);
    forall j | 0 <= j < |actives|
      ensures actives[j].index < |now| && Size(now[actives[j].index]) == EndLength(SumOf(taken), actives, m, level, threshold, j)
    {
      assert actives[j] in actives && IsActive(actives, actives[j].index);
      EndsAt(before, now, ws, ws', blockings, actives, threshold, SumOf(taken), m, level, between, j);
    }
    forall i | 0 <= i < |now| && i !in blockings && !IsActive(actives, i) ensures now[i] == before[i] {
      OthersEnd(ws, ws', blockings, actives, threshold, SumOf(taken), m, level, between, i);
      assert KeptAt(before[i], now[i], MayTake(actives, blockings, i));
      SameLength(before[i], now[i]);
    }
  }

  class Scheduler {
    var processors: seq<Processor>
    var lastActiveProcessorIndex: nat
    var arrivals: seq<Arrival>

    // the queues of all processors, their lengths, and all tasks there are
    ghost var queues: seq<Queues>
    ghost var weights: seq<nat>
    ghost var total: TaskId -> nat

    ghost predicate Valid()
      reads this, processors
    {
      && (forall i, j | 0 <= i < j < |processors| :: processors[i] != processors[j])
      && (forall a | a in arrivals && a.Arrive? :: a.index < |processors|)
      && |queues| == |processors| && weights == WeightsOf(queues, arrivals)
      && (forall i | 0 <= i < |processors| :: queues[i] == Queues(processors[i].newQue, processors[i].runQue))
    }

    ghost function Procs(): set<Processor>
      reads this
    {
      set p | p in processors
    }

    /** No task is lost or duplicated, `hand` being what the balancing thread holds. */
    ghost predicate Holds(hand: seq<TaskId>)
      reads this
    {
      forall t :: Anywhere(queues, arrivals, hand, t) == total(t)
    }

    constructor (ps: seq<Processor>, arrivals: seq<Arrival>)
      requires forall i, j | 0 <= i < j < |ps| :: ps[i] != ps[j]
      requires forall a | a in arrivals && a.Arrive? :: a.index < |ps|
      ensures Valid() && Holds([]) && processors == ps && this.arrivals == arrivals
    {
      processors, lastActiveProcessorIndex := ps, 0;
      this.arrivals := arrivals;
      queues := seq(|ps|, i requires 0 <= i < |ps| reads ps => Queues(ps[i].newQue, ps[i].runQue));
      new;
      weights := WeightsOf(queues, arrivals);
      ghost var qs := queues;
      total := t => Anywhere(qs, arrivals, [], t);
    }

    method CallAddTask(i: nat, tasks: seq<TaskId>)
      requires Valid() && i < |processors|
      modifies `queues, `weights, Procs()`newQue, Procs()`notified, Procs()`signalled
      ensures Valid() && queues == old(queues)[i := Queues(old(queues)[i].newQue + tasks, old(queues)[i].runQue)]
    {
      processors[i].AddTask(tasks);
      queues := queues[i := Queues(queues[i].newQue + tasks, queues[i].runQue)];
      weights := WeightsOf(queues, arrivals);
    }

    method CallSteal(i: nat, n: nat) returns (result: seq<TaskId>, ghost q: Queues)
      requires Valid() && i < |processors|
      modifies `queues, `weights, Procs()`newQue, Procs()`runQue
      ensures Valid() && queues == old(queues)[i := q] && Stolen(old(queues)[i], n, q, result)
    {
      result := processors[i].Steal(n);
      q := Queues(processors[i].newQue, processors[i].runQue);
      queues := queues[i := q];
      weights := WeightsOf(queues, arrivals);
    }

    /** Hands `tasks` to one processor and keeps `rest`. */
    method GiveTo(i: nat, tasks: seq<TaskId>, ghost rest: seq<TaskId>)
      requires Valid() && Holds(tasks + rest) && i < |processors|
      modifies `queues, `weights, Procs()`newQue, Procs()`notified, Procs()`signalled
      ensures Valid() && Holds(rest)
      ensures weights == Plus(old(weights), i, |tasks|) && Grown(old(queues), queues)
    {
      forall t ensures Anywhere(queues[i := Queues(queues[i].newQue + tasks, queues[i].runQue)], arrivals, rest, t) == total(t) {
        AnywhereGive(queues, i, tasks, rest, arrivals, t);
      }
      WeightsGive(queues, i, tasks, arrivals);
      GrownByTasks(queues, i, tasks);
      CallAddTask(i, tasks);
    }

    /** Takes tasks from one processor (the whole new queue when `n` is zero) into the hand. */
    method StealFrom(i: nat, n: nat, ghost hand: seq<TaskId>) returns (result: seq<TaskId>)
      requires Valid() && Holds(hand) && i < |processors|
      modifies `queues, `weights, Procs()`newQue, Procs()`runQue
      ensures Valid() && Holds(hand + result)
      ensures old(weights) == Plus(weights, i, |result|)
      ensures n > 0 ==> |result| == Min(n, old(Size(queues[i])))
      ensures i < |queues| && Stolen(old(queues)[i], n, queues[i], result) && queues == old(queues)[i := queues[i]]
    {
      ghost var before := queues;
      ghost var q;
      result, q := CallSteal(i, n);
      StealAccounts(before, i, n, q, result, hand, arrivals);
    }

    /** Other threads add tasks, up to the next pause. */
    method Interfere(ghost hand: seq<TaskId>)
      requires Valid() && Holds(hand)
      modifies `queues, `weights, Procs()`newQue, Procs()`notified, Procs()`signalled, `arrivals
      ensures Valid() && Since(old(queues), old(arrivals), queues, arrivals)
      ensures Holds(hand) && weights == old(weights)
    {
      while arrivals != [] && arrivals[0].Arrive?
        invariant Valid() && Since(old(queues), old(arrivals), queues, arrivals)
        invariant Holds(hand) && weights == old(weights)
        decreases |arrivals|
      {
        ghost var qs, rest := queues, arrivals;
        Arrival(hand);
        SinceTwice(old(queues), old(arrivals), qs, rest, queues, arrivals);
      }
      if arrivals != [] {
        ghost var qs, rest := queues, arrivals;
        Pass(hand);
        SinceTwice(old(queues), old(arrivals), qs, rest, queues, arrivals);
      }
    }

    /** One arrival, added by its own thread. */
    method Arrival(ghost hand: seq<TaskId>)
      requires Valid() && Holds(hand) && arrivals != [] && arrivals[0].Arrive?
      modifies `queues, `weights, Procs()`newQue, Procs()`notified, Procs()`signalled, `arrivals
      ensures Valid() && old(arrivals) != [] && arrivals == old(arrivals)[1..]
      ensures Holds(hand) && weights == old(weights)
      ensures Grown(old(queues), queues)
    {
      var a := arrivals[0];
      ghost var qs := queues[a.index := Queues(queues[a.index].newQue + a.tasks, queues[a.index].runQue)];
      forall t ensures Anywhere(qs, arrivals[1..], hand, t) == total(t) {
        AnywhereArrival(queues, arrivals, hand, t);
      }
      WeightsArrival(queues, arrivals);
      GrownByTasks(queues, a.index, a.tasks);
      CallAddTask(a.index, a.tasks);
      arrivals := arrivals[1..];
      weights := WeightsOf(queues, arrivals);
    }

    method Pass(ghost hand: seq<TaskId>)
      requires Valid() && Holds(hand) && arrivals != [] && arrivals[0].Pause?
      modifies `arrivals
      ensures Valid() && old(arrivals) != [] && arrivals == old(arrivals)[1..]
      ensures Holds(hand) && weights == old(weights) && Grown(old(queues), queues)
    {
      WeightsArrival(queues, arrivals);
      arrivals := arrivals[1..];
    }

    // ---------------------------------------------------------------- balanceBlock

    /** The new queues of the blocked processors, and how much of it came from each. */
    method CollectBlocked(blockings: seq<nat>) returns (tasks: seq<TaskId>, ghost taken: seq<nat>)
      requires Valid() && Holds([]) && forall b | b in blockings :: b < |processors|
      modifies `queues, `weights, Procs()`newQue, Procs()`runQue, Procs()`notified, Procs()`signalled, `arrivals
      ensures Valid() && Holds(tasks) && IsSuffix(arrivals, old(arrivals))
      ensures SumOf(taken) == |tasks| && Collected(old(queues), old(weights), queues, weights, taken, blockings)
    {
      tasks, taken := [], Nothing(|processors|);
      SumOfNothing(|processors|);
      NothingCollected(queues, weights);
      for k := 0 to |blockings|
        invariant Valid() && Holds(tasks) && IsSuffix(arrivals, old(arrivals))
        invariant SumOf(taken) == |tasks| && Collected(old(queues), old(weights), queues, weights, taken, blockings[..k])
      {
        assert blockings[k] in blockings && blockings[..k + 1] == blockings[..k] + [blockings[k]];
        tasks, taken := CollectOne(blockings[k], tasks, taken, blockings[..k], old(queues), old(weights));
      }
      assert blockings[..|blockings|] == blockings;
    }

    method CollectOne(b: nat, tasks: seq<TaskId>, ghost taken: seq<nat>, ghost done: seq<nat>, ghost qs: seq<Queues>, ghost ws: seq<nat>)
      returns (all: seq<TaskId>, ghost taken': seq<nat>)
      requires Valid() && Holds(tasks) && b < |processors|
      requires SumOf(taken) == |tasks| && Collected(qs, ws, queues, weights, taken, done)
      modifies `queues, `weights, Procs()`newQue, Procs()`runQue, Procs()`notified, Procs()`signalled, `arrivals
      ensures Valid() && Holds(all) && IsSuffix(arrivals, old(arrivals))
      ensures SumOf(taken') == |all| && Collected(qs, ws, queues, weights, taken', done + [b])
    {
      ghost var before, counts := queues, weights;
      Interfere(tasks);
      ghost var mid := queues;
      var more := StealFrom(b, 0, tasks);
      all, taken' := tasks + more, taken[b := taken[b] + |more|];
      SumOfUpdate(taken, b, |more|);
      CollectedMore(qs, ws, before, counts, taken, done, mid, b, queues[b], more, weights);
    }

    /** One round of the hand-out loop: `demand` tasks, or what is left, go to a processor. */
    method Offer(left: seq<TaskId>, demand: nat, i: nat) returns (rest: seq<TaskId>, gave: bool)
      requires Valid() && Holds(left) && i < |processors|
      modifies `queues, `weights, Procs()`newQue, Procs()`notified, Procs()`signalled, `arrivals
      ensures Valid() && Since(old(queues), old(arrivals), queues, arrivals)
      ensures rest == AllAfter(left, demand) && gave == (Min(demand, |left|) > 0)
      ensures Holds(rest)
      ensures weights == Plus(old(weights), i, Min(demand, |left|))
    {
      Interfere(left);
      ghost var qs, later := queues, arrivals;
      var part := FirstOf(left, demand);
      rest := AllAfter(left, demand);
      gave := part != [];
      if gave {
        GiveTo(i, part, rest);
        SinceTwice(old(queues), old(arrivals), qs, later, queues, arrivals);
      } else {
        assert rest == left;
      }
    }

    /** The hand-out loop of balanceBlock: it ends at the first demand that gets nothing. */
    method HandOut(tasks: seq<TaskId>, actives: seq<Active>, avg: nat, stop: nat)
      returns (left: seq<TaskId>, ghost given: seq<nat>)
      requires Valid() && Holds(tasks) && stop <= |actives| && InRange(actives, |processors|)
      modifies `queues, `weights, Procs()`newQue, Procs()`notified, Procs()`signalled, `arrivals
      ensures Valid() && Since(old(queues), old(arrivals), queues, arrivals)
      ensures Holds(left)
      ensures given == Handed(|tasks|, actives, avg, 0, stop) && |left| + SumOf(given) == |tasks|
      ensures weights == AfterHandOut(old(weights), actives, given)
    {
      left, given := tasks, [];
      var j, gave := 0, true;
      while j < stop && gave
        invariant Valid() && Since(old(queues), old(arrivals), queues, arrivals)
        invariant HandingOut(|tasks|, actives, avg, stop, j, gave, |left|, given)
        invariant Holds(left)
        invariant weights == AfterHandOut(old(weights), actives, given)
        decreases stop - j, gave
      {
        ghost var qs, later := queues, arrivals;
        left, j, gave, given := HandOutOne(left, actives, avg, stop, j, |tasks|, given, old(weights));
        SinceTwice(old(queues), old(arrivals), qs, later, queues, arrivals);
      }
    }

    /** One iteration of that loop. */
    method HandOutOne(left: seq<TaskId>, actives: seq<Active>, avg: nat, stop: nat, j: nat,
                      ghost size: nat, ghost given: seq<nat>, ghost ws: seq<nat>)
      returns (left': seq<TaskId>, j': nat, gave: bool, ghost given': seq<nat>)
      requires Valid() && Holds(left) && j < stop <= |actives| && InRange(actives, |processors|)
      requires HandingOut(size, actives, avg, stop, j, true, |left|, given)
      requires weights == AfterHandOut(ws, actives, given)
      modifies `queues, `weights, Procs()`newQue, Procs()`notified, Procs()`signalled, `arrivals
      ensures Valid() && Holds(left') && Since(old(queues), old(arrivals), queues, arrivals)
      ensures HandingOut(size, actives, avg, stop, j', gave, |left'|, given') && j' == if gave then j + 1 else j
      ensures weights == AfterHandOut(ws, actives, given')
    {
      InRangeAt(actives, |processors|, j);
      var demand := WrappingSub(avg, actives[j].load);
      HandOutNext(size, actives, avg, stop, j, |left|, given, ws);
      given' := MoreGiven(given, Min(demand, |left|));
      left', gave := Offer(left, demand, actives[j].index);
      j' := if gave then j + 1 else j;
    }

    /** What is left over goes to the least loaded processor. */
    method GiveRest(left: seq<TaskId>, i: nat)
      requires Valid() && Holds(left) && i < |processors|
      modifies `queues, `weights, Procs()`newQue, Procs()`notified, Procs()`signalled, `arrivals
      ensures Valid() && Since(old(queues), old(arrivals), queues, arrivals)
      ensures Holds([])
      ensures weights == Plus(old(weights), i, |left|)
    {
      if left != [] {
        Interfere(left);
        ghost var qs, later := queues, arrivals;
        assert left + [] == left;
        GiveTo(i, left, []);
        SinceTwice(old(queues), old(arrivals), qs, later, queues, arrivals);
      }
    }

    method HandOutAll(tasks: seq<TaskId>, actives: seq<Active>, avg: nat, stop: nat)
      requires Valid() && Holds(tasks) && actives != [] && stop <= |actives| && InRange(actives, |processors|)
      modifies `queues, `weights, Procs()`newQue, Procs()`notified, Procs()`signalled, `arrivals
      ensures Valid() && Holds([]) && Since(old(queues), old(arrivals), queues, arrivals)
      ensures weights == AfterSharing(old(weights), |tasks|, actives, stop, avg)
    {
      var left;
      ghost var given;
      left, given := HandOut(tasks, actives, avg, stop);
      InRangeAt(actives, |processors|, 0);
      SharingIs(old(weights), |tasks|, actives, stop, avg, given, |left|);
      ghost var qs, later := queues, arrivals;
      GiveRest(left, actives[0].index);
      SinceTwice(old(queues), old(arrivals), qs, later, queues, arrivals);
    }

    /** The plan, the hand-out loop, and the rest to the first. */
    method FillUp(blockingTasks: seq<TaskId>, actives: seq<Active>) returns (ghost m: nat, ghost level: nat)
      requires Valid() && Holds(blockingTasks) && actives != [] && Sorted(actives) && InRange(actives, |processors|)
      modifies `queues, `weights, Procs()`newQue, Procs()`notified, Procs()`signalled, `arrivals
      ensures Valid() && Since(old(queues), old(arrivals), queues, arrivals)
      ensures Holds([])
      ensures Filling(|blockingTasks|, actives, m, level)
      ensures weights == AfterSharing(old(weights), |blockingTasks|, actives, if m < |actives| then m + 1 else m, level)
    {
      var avg, lowerNum, stop := Plan(|blockingTasks|, actives);
      m, level := lowerNum, avg;
      HandOutAll(blockingTasks, actives, avg, stop);
    }

    /** The same, said in shares. */
    method Distribute(blockingTasks: seq<TaskId>, actives: seq<Active>) returns (ghost m: nat, ghost level: nat)
      requires Valid() && Holds(blockingTasks) && actives != [] && Sorted(actives) && InRange(actives, |processors|)
      requires DistinctIndexes(actives) && FitWord(actives)
      modifies `queues, `weights, Procs()`newQue, Procs()`notified, Procs()`signalled, `arrivals
      ensures Valid() && Since(old(queues), old(arrivals), queues, arrivals)
      ensures Holds([])
      ensures Filling(|blockingTasks|, actives, m, level)
      ensures SharedOut(old(weights), weights, |blockingTasks|, actives, m, level)
    {
      ghost var before := weights;
      m, level := FillUp(blockingTasks, actives);
      SharesArrive(before, |blockingTasks|, actives, m, level);
    }

    /** balanceBlock: empties the new queues of the blocked processors and fills up the active
        ones. `taken` says how many tasks came from where; every active processor gets its
        share of them all. */
    method BalanceBlock(blockings: seq<nat>, actives: seq<Active>) returns (ghost taken: seq<nat>, ghost m: nat, ghost level: nat)
      requires Valid() && Holds([]) && actives != [] && Sorted(actives) && DistinctIndexes(actives) && InRange(actives, |processors|)
      requires forall b | b in blockings :: b < |processors| && !IsActive(actives, b)
      requires FitWord(actives)
      modifies `queues, `weights, Procs()`newQue, Procs()`runQue, Procs()`notified, Procs()`signalled, `arrivals
      ensures Valid() && Holds([]) && IsSuffix(arrivals, old(arrivals))
      ensures BlockedAfter(old(queues), old(weights), queues, weights, taken, blockings)
      ensures TakenOnlyFrom(old(queues), queues, [], blockings)
      ensures SumOf(taken) > 0 ==> Filling(SumOf(taken), actives, m, level)
      ensures BlockBalanced(old(weights), weights, blockings, SumOf(taken), actives, m, level)
    {
      m, level := 1, 0;
      if blockings == [] {
        taken := Nothing(|processors|);
        SumOfNothing(|processors|);
        NothingCollected(queues, weights);
        NothingHandedOut(old(queues), old(weights), queues, weights, taken, blockings, actives);
        return;
      }
      var blockingTasks;
      blockingTasks, taken := CollectBlocked(blockings);
      if blockingTasks == [] {
        NothingHandedOut(old(queues), old(weights), queues, weights, taken, blockings, actives);
        return;
      }
      m, level := DistributeAll(blockingTasks, blockings, actives, taken, old(queues), old(weights));
    }

    /** The collected tasks are handed out. */
    method DistributeAll(blockingTasks: seq<TaskId>, ghost blockings: seq<nat>, actives: seq<Active>,
                         ghost taken: seq<nat>, ghost qs: seq<Queues>, ghost ws: seq<nat>) returns (ghost m: nat, ghost level: nat)
      requires Valid() && Holds(blockingTasks) && actives != [] && Sorted(actives) && DistinctIndexes(actives) && InRange(actives, |processors|)
      requires forall b | b in blockings :: b < |processors| && !IsActive(actives, b)
      requires FitWord(actives) && SumOf(taken) == |blockingTasks| > 0 && Collected(qs, ws, queues, weights, taken, blockings)
      modifies `queues, `weights, Procs()`newQue, Procs()`notified, Procs()`signalled, `arrivals
      ensures Valid() && Holds([]) && IsSuffix(arrivals, old(arrivals))
      ensures BlockedAfter(qs, ws, queues, weights, taken, blockings)
      ensures TakenOnlyFrom(qs, queues, [], blockings)
      ensures Filling(SumOf(taken), actives, m, level)
      ensures BlockBalanced(ws, weights, blockings, SumOf(taken), actives, m, level)
    {
      ghost var mid, between := queues, weights;
      m, level := Distribute(blockingTasks, actives);
      HandedOut(qs, ws, mid, between, taken, blockings, queues, weights, actives, m, level);
    }

    // ---------------------------------------------------------------- balanceActive

    /** One processor is cut down to the average. */
    method CutDown(tasks: seq<TaskId>, actives: seq<Active>, j: nat, avg: nat) returns (all: seq<TaskId>)
      requires Valid() && Holds(tasks) && InRange(actives, |processors|) && DistinctIndexes(actives)
      requires j < |actives| && actives[j].load > avg
      modifies `queues, `weights, Procs()`newQue, Procs()`runQue, Procs()`notified, Procs()`signalled, `arrivals
      ensures Valid() && Holds(all) && IsSuffix(arrivals, old(arrivals)) && TakenOnlyFrom(old(queues), queues, actives, [])
      ensures old(Covers(queues, actives, j + 1)) ==>
        && Covers(queues, actives, j)
        && |all| == |tasks| + Surplus(actives[j], avg)
        && old(weights) == Plus(weights, actives[j].index, Surplus(actives[j], avg))
    {
      assert actives[j] in actives;
      Interfere(tasks);
      ghost var mid := queues;
      GrownIsKept(old(queues), mid, actives, []);
      var more := StealFrom(actives[j].index, actives[j].load - avg, tasks);
      all := tasks + more;
      StolenKept(mid, actives[j].index, actives[j].load - avg, queues[actives[j].index], more, actives, []);
      TakenTwice(old(queues), mid, queues, actives, []);
      CutCovers(old(queues), mid, queues, actives, j);
    }

    /** First part: what the most loaded processors hold above the average. */
    method StealSurplus(actives: seq<Active>, avg: nat) returns (tasks: seq<TaskId>)
      requires Valid() && Holds([]) && Sorted(actives) && DistinctIndexes(actives) && InRange(actives, |processors|)
      modifies `queues, `weights, Procs()`newQue, Procs()`runQue, Procs()`notified, Procs()`signalled, `arrivals
      ensures Valid() && Holds(tasks) && IsSuffix(arrivals, old(arrivals)) && TakenOnlyFrom(old(queues), queues, actives, [])
      ensures old(Covers(queues, actives, |actives|)) ==>
        |tasks| == Surpluses(actives, 0, avg) && old(weights) == PlusSurplus(weights, actives, 0, avg)
    {
      tasks := [];
      var j: nat := |actives|;
      GrownSelf(queues);
      GrownIsKept(queues, queues, actives, []);
      ghost var covered := Covers(queues, actives, |actives|);
      while j > 0 && actives[j - 1].load > avg
        invariant j <= |actives| && Valid() && Holds(tasks) && IsSuffix(arrivals, old(arrivals))
        invariant TakenOnlyFrom(old(queues), queues, actives, [])
        invariant CutTo(covered, queues, old(weights), weights, |tasks|, actives, j, avg)
      {
        j := j - 1;
        ghost var qs, ws, n := queues, weights, |tasks|;
        tasks := CutDown(tasks, actives, j, avg);
        TakenTwice(old(queues), qs, queues, actives, []);
        CutStep(covered, qs, queues, old(weights), ws, weights, n, |tasks|, actives, j, avg);
      }
      NoSurplusBelow(actives, j, avg);
      PlusNoSurplus(weights, actives, j, avg);
    }

    /** `deficit` tasks, or what is left, are added to one processor. */
    method RaiseOne(left: seq<TaskId>, i: nat, deficit: nat) returns (rest: seq<TaskId>)
      requires Valid() && Holds(left) && i < |processors|
      modifies `queues, `weights, Procs()`newQue, Procs()`notified, Procs()`signalled, `arrivals
      ensures Valid() && Since(old(queues), old(arrivals), queues, arrivals)
      ensures Holds(rest) && |rest| + Min(deficit, |left|) == |left|
      ensures weights == Plus(old(weights), i, Min(deficit, |left|))
    {
      Interfere(left);
      var part := FirstOf(left, deficit);
      rest := AllAfter(left, deficit);
      ghost var qs, later := queues, arrivals;
      GiveTo(i, part, rest);
      SinceTwice(old(queues), old(arrivals), qs, later, queues, arrivals);
    }

    /** Second part: the least loaded processors are raised to the average. */
    method RaiseDeficits(tasks: seq<TaskId>, actives: seq<Active>, avg: nat) returns (left: seq<TaskId>)
      requires Valid() && Holds(tasks) && Sorted(actives) && InRange(actives, |processors|)
      modifies `queues, `weights, Procs()`newQue, Procs()`notified, Procs()`signalled, `arrivals
      ensures Valid() && Holds(left) && Since(old(queues), old(arrivals), queues, arrivals)
      ensures Raising(|tasks|, |left|, actives, |actives|, avg, old(weights), weights)
    {
      left := tasks;
      var j: nat := 0;
      while j < |actives| && actives[j].load < avg
        invariant j <= |actives| && Valid() && Holds(left) && Since(old(queues), old(arrivals), queues, arrivals)
        invariant Raising(|tasks|, |left|, actives, j, avg, old(weights), weights)
      {
        InRangeAt(actives, |processors|, j);
        RaisingStep(|tasks|, |left|, actives, j, avg, old(weights), weights);
        ghost var qs, later := queues, arrivals;
        left := RaiseOne(left, actives[j].index, avg - actives[j].load);
        SinceTwice(old(queues), old(arrivals), qs, later, queues, arrivals);
        j := j + 1;
      }
      RaisingEnds(|tasks|, |left|, actives, j, avg, old(weights), weights);
    }

    /** Both parts and the rest to the least loaded processor. */
    method Relevel(actives: seq<Active>, avg: nat)
      requires Valid() && Holds([]) && actives != [] && Sorted(actives) && DistinctIndexes(actives) && InRange(actives, |processors|)
      requires avg == SumLoads(actives) / |actives|
      modifies `queues, `weights, Procs()`newQue, Procs()`runQue, Procs()`notified, Procs()`signalled, `arrivals
      ensures Valid() && Holds([]) && IsSuffix(arrivals, old(arrivals)) && TakenOnlyFrom(old(queues), queues, actives, [])
      ensures old(Covers(queues, actives, |actives|)) ==> LevelledOut(old(weights), weights, actives)
    {
      ghost var covered := Covers(queues, actives, |actives|);
      var tasks := StealSurplus(actives, avg);
      if tasks == [] {
        LevelledWithout(covered, old(weights), weights, actives, avg);
        return;
      }
      LevelOut(tasks, actives, avg, covered, old(weights), old(queues));
    }

    method LevelOut(tasks: seq<TaskId>, actives: seq<Active>, avg: nat, ghost covered: bool, ghost before: seq<nat>, ghost qs: seq<Queues>)
      requires Valid() && Holds(tasks) && actives != [] && Sorted(actives) && DistinctIndexes(actives) && InRange(actives, |processors|)
      requires avg == SumLoads(actives) / |actives| && TakenOnlyFrom(qs, queues, actives, [])
      requires covered ==> |tasks| == Surpluses(actives, 0, avg) && before == PlusSurplus(weights, actives, 0, avg)
      modifies `queues, `weights, Procs()`newQue, Procs()`notified, Procs()`signalled, `arrivals
      ensures Valid() && Holds([]) && IsSuffix(arrivals, old(arrivals)) && TakenOnlyFrom(qs, queues, actives, [])
      ensures covered ==> LevelledOut(before, weights, actives)
    {
      RaiseAll(tasks, actives, avg);
      GrownIsKept(old(queues), queues, actives, []);
      TakenTwice(qs, old(queues), queues, actives, []);
      Relevelled(covered, before, old(weights), weights, |tasks|, actives, avg);
    }

    /** Second part, and the rest to the least loaded processor. */
    method RaiseAll(tasks: seq<TaskId>, actives: seq<Active>, avg: nat)
      requires Valid() && Holds(tasks) && actives != [] && Sorted(actives) && InRange(actives, |processors|)
      modifies `queues, `weights, Procs()`newQue, Procs()`notified, Procs()`signalled, `arrivals
      ensures Valid() && Holds([]) && Since(old(queues), old(arrivals), queues, arrivals)
      ensures |tasks| >= Deficits(actives, |actives|, avg) ==>
        weights == Plus(PlusDeficit(old(weights), actives, |actives|, avg), actives[0].index, |tasks| - Deficits(actives, |actives|, avg))
    {
      assert actives[0] in actives;
      var left := RaiseDeficits(tasks, actives, avg);
      ghost var qs, later := queues, arrivals;
      GiveRest(left, actives[0].index);
      SinceTwice(old(queues), old(arrivals), qs, later, queues, arrivals);
    }

    /** balanceActive: nothing happens while the least loaded processor holds more than the
        threshold; otherwise, if no recorded load has shrunk meanwhile, every active processor
        ends `avg - load` above what it had, and the first also with the remainder. Arrivals
        in between come on top. */
    method BalanceActive(actives: seq<Active>, activeTaskCount: nat, threshold: nat)
      requires Valid() && Holds([]) && actives != [] && Sorted(actives) && DistinctIndexes(actives) && InRange(actives, |processors|)
      requires activeTaskCount == SumLoads(actives)
      modifies `queues, `weights, Procs()`newQue, Procs()`runQue, Procs()`notified, Procs()`signalled, `arrivals
      ensures Valid() && Holds([]) && IsSuffix(arrivals, old(arrivals)) && TakenOnlyFrom(old(queues), queues, actives, [])
      ensures actives[0].load > threshold ==> weights == old(weights) && queues == old(queues)
      ensures actives[0].load <= threshold && old(Covers(queues, actives, |actives|)) ==>
        LevelledOut(old(weights), weights, actives)
    {
      var avg := activeTaskCount / |actives|;
      if actives[0].load > threshold {
        GrownSelf(queues);
        GrownIsKept(queues, queues, actives, []);
        return;
      }
      Relevel(actives, avg);
    }

    // ---------------------------------------------------------------- one round

    ghost function ActiveFlags(): (flags: seq<bool>)
      reads this`processors, processors`active
      ensures |flags| == |processors|
      ensures forall i | 0 <= i < |flags| :: flags[i] == processors[i].active
    {
      FirstFlags(|processors|)
    }

    ghost function FirstFlags(n: nat): (flags: seq<bool>)
      requires n <= |processors|
      reads this`processors, processors`active
      ensures |flags| == n
      ensures forall i | 0 <= i < n :: flags[i] == processors[i].active
    {
      if n == 0 then [] else FirstFlags(n - 1) + [processors[n - 1].active]
    }

    /** First pass of a round: the blocked processors stop being active. */
    method FindBlocked(probes: seq<Probe>) returns (blockings: seq<nat>)
      requires Valid() && Holds([]) && |probes| == |processors|
      modifies Procs()`active, `queues, `weights, Procs()`newQue, Procs()`notified, Procs()`signalled, `arrivals
      ensures Valid() && Holds([]) && weights == old(weights) && Since(old(queues), old(arrivals), queues, arrivals)
      ensures BlockedAre(probes, blockings)
      ensures forall i | 0 <= i < |processors| ::
        ActiveFlags()[i] == (old(ActiveFlags())[i] && !(probes[i].blocking && !probes[i].waiting))
    {
      blockings := [];
      GrownSelf(queues);
      ghost var start, earlier, flags := queues, arrivals, ActiveFlags();
      for i := 0 to |processors|
        invariant FoundSoFar(start, earlier, flags, probes, i, blockings) && weights == old(weights)
      {
        blockings := FindNext(probes, i, blockings, start, earlier, flags);
      }
      assert FoundAt(start, earlier, flags, probes, |processors|, blockings);
      BlockedOfAre(probes, |processors|);
    }

    /** The first `i` processors have been gone through; unfolded only where FoundAt is named. */
    ghost predicate FoundSoFar(start: seq<Queues>, earlier: seq<Arrival>, flags: seq<bool>, probes: seq<Probe>, i: nat, blockings: seq<nat>)
      reads this, processors
    {
      forall n {:trigger FoundAt(start, earlier, flags, probes, n, blockings)} | n == i :: FoundAt(start, earlier, flags, probes, n, blockings)
    }

    ghost predicate FoundAt(start: seq<Queues>, earlier: seq<Arrival>, flags: seq<bool>, probes: seq<Probe>, n: nat, blockings: seq<nat>)
      reads this, processors
    {
      && Valid() && Holds([]) && Since(start, earlier, queues, arrivals)
      && n <= |processors| == |flags| == |probes|
      && blockings == BlockedOf(probes, n) && ActiveFlags() == FlagsWithout(flags, probes, n)
    }

    method FindNext(probes: seq<Probe>, i: nat, blockings: seq<nat>, ghost start: seq<Queues>, ghost earlier: seq<Arrival>, ghost flags: seq<bool>)
      returns (blockings': seq<nat>)
      requires FoundSoFar(start, earlier, flags, probes, i, blockings) && i < |processors| == |probes|
      modifies Procs()`active, `queues, `weights, Procs()`newQue, Procs()`notified, Procs()`signalled, `arrivals
      ensures FoundSoFar(start, earlier, flags, probes, i + 1, blockings') && weights == old(weights)
    {
      assert FoundAt(start, earlier, flags, probes, i, blockings);
      FlagsWithoutNext(flags, probes, i);
      var blocked := CheckBlocked(i, probes[i]);
      SinceTwice(start, earlier, old(queues), old(arrivals), queues, arrivals);
      blockings' := blockings + if blocked then [i] else [];
      assert FoundAt(start, earlier, flags, probes, i + 1, blockings');
    }

    method CheckBlocked(i: nat, probe: Probe) returns (blocked: bool)
      requires Valid() && Holds([]) && i < |processors|
      modifies Procs()`active, `queues, `weights, Procs()`newQue, Procs()`notified, Procs()`signalled, `arrivals
      ensures Valid() && Holds([]) && weights == old(weights) && Since(old(queues), old(arrivals), queues, arrivals)
      ensures blocked == IsBlocked(probe)
      ensures ActiveFlags() == old(ActiveFlags())[i := old(ActiveFlags())[i] && !blocked]
    {
      Interfere([]);
      blocked := !probe.waiting && probe.blocking;
      if blocked && processors[i].active {
        processors[i].active := false;
      }
    }

    /** Second pass: the loads of the active processors, sorted; processors that no longer
        block become active again, for the next round. */
    method RecordLoads(probes: seq<Probe>) returns (actives: seq<Active>, activeTaskCount: nat)
      requires Valid() && Holds([]) && |probes| == |processors|
      modifies Procs()`active, `queues, `weights, Procs()`newQue, Procs()`notified, Procs()`signalled, `arrivals, `lastActiveProcessorIndex
      ensures Valid() && Holds([]) && weights == old(weights) && Since(old(queues), old(arrivals), queues, arrivals)
      ensures Sorted(actives) && DistinctIndexes(actives) && |actives| <= |processors|
      ensures activeTaskCount == SumLoads(actives)
      ensures Recorded(old(queues), queues, actives, |processors|, old(ActiveFlags()))
      ensures lastActiveProcessorIndex == LastReactivated(old(ActiveFlags()), probes, |processors|, old(lastActiveProcessorIndex))
      ensures ActiveFlags() == FlagsAfter(old(ActiveFlags()), probes, |processors|)
    {
      GrownSelf(queues);
      ghost var start, earlier, flags, last := queues, arrivals, ActiveFlags(), lastActiveProcessorIndex;
      actives, activeTaskCount := RecordAll(probes, start, earlier, flags, last);
      assert SoFarAt(start, earlier, flags, probes, |processors|, actives, activeTaskCount, last);
    }

    method RecordAll(probes: seq<Probe>, ghost start: seq<Queues>, ghost earlier: seq<Arrival>, ghost flags: seq<bool>, ghost last: nat)
      returns (actives: seq<Active>, activeTaskCount: nat)
      requires SoFar(start, earlier, flags, probes, 0, [], 0, last)
      modifies Procs()`active, `queues, `weights, Procs()`newQue, Procs()`notified, Procs()`signalled, `arrivals, `lastActiveProcessorIndex
      ensures SoFar(start, earlier, flags, probes, |processors|, actives, activeTaskCount, last) && weights == old(weights)
    {
      actives, activeTaskCount := [], 0;
      for i := 0 to |processors|
        invariant SoFar(start, earlier, flags, probes, i, actives, activeTaskCount, last) && weights == old(weights)
      {
        actives, activeTaskCount := RecordNext(actives, activeTaskCount, i, probes, start, earlier, flags, last);
      }
    }

    /** The first `i` processors have been gone through since `start`; unfolded only where
        SoFarAt is named. */
    ghost predicate SoFar(start: seq<Queues>, earlier: seq<Arrival>, flags: seq<bool>, probes: seq<Probe>, i: nat,
                          actives: seq<Active>, count: nat, last: nat)
      reads this, processors
    {
      forall n {:trigger SoFarAt(start, earlier, flags, probes, n, actives, count, last)} | n == i ::
        SoFarAt(start, earlier, flags, probes, n, actives, count, last)
    }

    ghost predicate SoFarAt(start: seq<Queues>, earlier: seq<Arrival>, flags: seq<bool>, probes: seq<Probe>, n: nat,
                            actives: seq<Active>, count: nat, last: nat)
      reads this, processors
    {
      && Valid() && Holds([]) && Since(start, earlier, queues, arrivals)
      && Sorted(actives) && DistinctIndexes(actives) && |actives| <= n && count == SumLoads(actives)
      && n <= |processors| == |flags| == |probes|
      && Recorded(start, queues, actives, n, flags)
      && lastActiveProcessorIndex == LastReactivated(flags, probes, n, last)
      && ActiveFlags() == FlagsAfter(flags, probes, n)
    }

    method RecordNext(actives: seq<Active>, count: nat, i: nat, probes: seq<Probe>,
                      ghost start: seq<Queues>, ghost earlier: seq<Arrival>, ghost flags: seq<bool>, ghost last: nat)
      returns (actives': seq<Active>, count': nat)
      requires SoFar(start, earlier, flags, probes, i, actives, count, last) && i < |processors|
      modifies Procs()`active, `queues, `weights, Procs()`newQue, Procs()`notified, Procs()`signalled, `arrivals, `lastActiveProcessorIndex
      ensures SoFar(start, earlier, flags, probes, i + 1, actives', count', last) && weights == old(weights)
    {
      assert SoFarAt(start, earlier, flags, probes, i, actives, count, last);
      actives', count' := RecordAt(actives, count, i, probes, start, earlier, flags, last);
    }

    method RecordAt(actives: seq<Active>, count: nat, i: nat, probes: seq<Probe>,
                    ghost start: seq<Queues>, ghost earlier: seq<Arrival>, ghost flags: seq<bool>, ghost last: nat)
      returns (actives': seq<Active>, count': nat)
      requires SoFarAt(start, earlier, flags, probes, i, actives, count, last) && i < |processors|
      modifies Procs()`active, `queues, `weights, Procs()`newQue, Procs()`notified, Procs()`signalled, `arrivals, `lastActiveProcessorIndex
      ensures SoFarAt(start, earlier, flags, probes, i + 1, actives', count', last) && weights == old(weights)
    {
      FlagsStep(flags, probes, i, last);
      actives', count' := RecordOne(actives, count, i, probes[i], flags, start);
      SinceTwice(start, earlier, old(queues), old(arrivals), queues, arrivals);
    }

    method RecordOne(actives: seq<Active>, count: nat, i: nat, probe: Probe, ghost flags: seq<bool>, ghost start: seq<Queues>)
      returns (actives': seq<Active>, count': nat)
      requires Valid() && Holds([]) && Sorted(actives) && DistinctIndexes(actives) && count == SumLoads(actives)
      requires i < |processors| == |flags| && Recorded(start, queues, actives, i, flags) && Grown(start, queues) && processors[i].active == flags[i]
      modifies Procs()`active, `queues, `weights, Procs()`newQue, Procs()`notified, Procs()`signalled, `arrivals, `lastActiveProcessorIndex
      ensures Valid() && Holds([]) && weights == old(weights) && Since(old(queues), old(arrivals), queues, arrivals)
      ensures Sorted(actives') && DistinctIndexes(actives') && |actives'| <= |actives| + 1
      ensures count' == SumLoads(actives') && Recorded(start, queues, actives', i + 1, flags)
      ensures lastActiveProcessorIndex == if !flags[i] && !IsBlocked(probe) then i else old(lastActiveProcessorIndex)
      ensures ActiveFlags() == old(ActiveFlags())[i := flags[i] || !IsBlocked(probe)]
    {
      var load := Measure(i, actives, flags, start);
      Recording(start, queues, actives, count, load, i, flags);
      if processors[i].active {
        actives', count' := Emplace(actives, Active(load, i)), count + load;
        SameFlags(ActiveFlags(), i);
      } else {
        actives', count' := actives, count;
        Reactivate(i, probe);
      }
    }

    /** The length of one processor's queues at this moment. */
    method Measure(i: nat, ghost actives: seq<Active>, ghost flags: seq<bool>, ghost start: seq<Queues>) returns (load: nat)
      requires Valid() && Holds([]) && i < |processors|
      requires Recorded(start, queues, actives, i, flags) && Grown(start, queues)
      modifies `queues, `weights, Procs()`newQue, Procs()`notified, Procs()`signalled, `arrivals
      ensures Valid() && Holds([]) && weights == old(weights) && Since(old(queues), old(arrivals), queues, arrivals)
      ensures Recorded(start, queues, actives, i, flags) && i < |start| && Size(start[i]) <= load == Size(queues[i])
    {
      Interfere([]);
      StillRecorded(start, old(queues), queues, actives, i, flags);
      GrownSize(start, old(queues), i);
      GrownSize(old(queues), queues, i);
      load := processors[i].RunnableTaskCount();
    }

    method Reactivate(i: nat, probe: Probe)
      requires Valid() && i < |processors| && !processors[i].active
      modifies Procs()`active, `lastActiveProcessorIndex
      ensures Valid() && lastActiveProcessorIndex == if IsBlocked(probe) then old(lastActiveProcessorIndex) else i
      ensures ActiveFlags() == old(ActiveFlags())[i := !IsBlocked(probe)]
    {
      if !probe.blocking || probe.waiting {
        processors[i].active := true;
        lastActiveProcessorIndex := i;
      }
    }

    /** Both balancing steps on a recorded multimap. */
    method BalanceBoth(blockings: seq<nat>, actives: seq<Active>, activeTaskCount: nat, threshold: nat)
      returns (ghost taken: seq<nat>, ghost m: nat, ghost level: nat, ghost between: seq<nat>)
      requires Valid() && Holds([]) && actives != [] && Sorted(actives) && DistinctIndexes(actives) && InRange(actives, |processors|)
      requires forall b | b in blockings :: b < |processors| && !IsActive(actives, b)
      requires FitWord(actives) && Covers(queues, actives, |actives|)
      requires activeTaskCount == SumLoads(actives)
      modifies `queues, `weights, Procs()`newQue, Procs()`runQue, Procs()`notified, Procs()`signalled, `arrivals
      ensures Valid() && Holds([]) && IsSuffix(arrivals, old(arrivals))
      ensures RoundDone(old(queues), old(weights), queues, weights, blockings, actives, threshold, taken, m, level, between)
    {
      ghost var qs, earlier := queues, arrivals;
      taken, m, level := BalanceBlock(blockings, actives);
      between := weights;
      ghost var mid := queues;
      StillCovered(qs, earlier, queues, arrivals, actives, blockings, SumOf(taken), m, level);
      BalanceActive(actives, activeTaskCount, threshold);
      BothDone(qs, old(weights), mid, between, queues, weights, blockings, actives, threshold, taken);
    }

    /** Both passes over the processors. */
    method Observe(first: seq<Probe>, second: seq<Probe>)
      returns (blockings: seq<nat>, actives: seq<Active>, activeTaskCount: nat)
      requires Valid() && Holds([]) && |first| == |second| == |processors|
      requires forall i | 0 <= i < |weights| :: weights[i] + |processors| < SIZE
      modifies Procs()`active, `queues, `weights, Procs()`newQue, Procs()`notified, Procs()`signalled,
               `arrivals, `lastActiveProcessorIndex
      ensures Valid() && Holds([]) && weights == old(weights) && Since(old(queues), old(arrivals), queues, arrivals)
      ensures Sorted(actives) && DistinctIndexes(actives) && InRange(actives, |processors|)
      ensures FitWord(actives) && Covers(queues, actives, |actives|) && activeTaskCount == SumLoads(actives)
      ensures LoadsBetween(old(queues), weights, actives)
      ensures Observed(old(ActiveFlags()), first, second, blockings, actives, ActiveFlags(),
                       old(lastActiveProcessorIndex), lastActiveProcessorIndex)
    {
      blockings := FindBlocked(first);
      ghost var flags := ActiveFlags();
      ghost var qs, later := queues, arrivals;
      actives, activeTaskCount := RecordLoads(second);
      RecordedFits(qs, queues, arrivals, actives, |processors|, flags);
      RecordedActives(qs, queues, actives, |processors|, flags);
      ActivesOfRound(old(ActiveFlags()), first, blockings, flags, actives);
      FlagsOfRound(old(ActiveFlags()), first, second, flags, old(lastActiveProcessorIndex));
      SinceTwice(old(queues), old(arrivals), qs, later, queues, arrivals);
      LoadsSince(old(queues), qs, weights, actives);
      assert IsObserved(old(ActiveFlags()), first, second, blockings, actives, ActiveFlags(), old(lastActiveProcessorIndex), lastActiveProcessorIndex);
    }

    /** One round of the balancing thread. No task is lost or duplicated, whatever other threads
        add meanwhile; no processor is both blocked and active; the recorded loads are lengths
        since the start of the round; and the queues end as RoundDone says. If nothing is added
        meanwhile, every queue ends at a length computed from those at the start. */
    method RunBalance(first: seq<Probe>, second: seq<Probe>, threshold: nat)
      returns (blockings: seq<nat>, actives: seq<Active>,
               ghost taken: seq<nat>, ghost m: nat, ghost level: nat, ghost between: seq<nat>)
      requires Valid() && Holds([]) && |first| == |second| == |processors|
      requires forall i | 0 <= i < |weights| :: weights[i] + |processors| < SIZE
      modifies Procs()`active, `queues, `weights, Procs()`newQue, Procs()`runQue, Procs()`notified, Procs()`signalled,
               `arrivals, `lastActiveProcessorIndex
      ensures Valid() && Holds([]) && IsSuffix(arrivals, old(arrivals))
      ensures Sorted(actives) && DistinctIndexes(actives) && InRange(actives, |processors|)
      ensures Observed(old(ActiveFlags()), first, second, blockings, actives, ActiveFlags(),
                       old(lastActiveProcessorIndex), lastActiveProcessorIndex)
      ensures LoadsBetween(old(queues), old(weights), actives)
      ensures actives == [] ==> weights == old(weights) && Grown(old(queues), queues)
      ensures actives != [] ==>
        RoundEnds(old(queues), old(arrivals), old(weights), queues, weights, blockings, actives, threshold, taken, m, level, between)
    {
      taken, m, level, between := [], 1, 0, weights;
      var activeTaskCount;
      blockings, actives, activeTaskCount := Observe(first, second);
      if actives == [] {
        return;
      }
      BlockedAreNot(old(ActiveFlags()), first, second, blockings, actives, ActiveFlags(), old(lastActiveProcessorIndex), lastActiveProcessorIndex);
      taken, m, level, between := BalanceSince(blockings, actives, activeTaskCount, threshold, old(queues), old(arrivals), old(weights));
    }

    /** Both balancing steps, as an effect on the state at the start of the round. */
    method BalanceSince(blockings: seq<nat>, actives: seq<Active>, activeTaskCount: nat, threshold: nat,
                        ghost start: seq<Queues>, ghost earlier: seq<Arrival>, ghost ws: seq<nat>)
      returns (ghost taken: seq<nat>, ghost m: nat, ghost level: nat, ghost between: seq<nat>)
      requires Valid() && Holds([]) && actives != [] && Sorted(actives) && DistinctIndexes(actives) && InRange(actives, |processors|)
      requires forall b | b in blockings :: b < |processors| && !IsActive(actives, b)
      requires FitWord(actives) && Covers(queues, actives, |actives|)
      requires activeTaskCount == SumLoads(actives)
      requires Since(start, earlier, queues, arrivals) && weights == ws == WeightsOf(start, earlier)
      requires LoadsBetween(start, ws, actives)
      modifies `queues, `weights, Procs()`newQue, Procs()`runQue, Procs()`notified, Procs()`signalled, `arrivals
      ensures Valid() && Holds([]) && IsSuffix(arrivals, earlier)
      ensures RoundEnds(start, earlier, ws, queues, weights, blockings, actives, threshold, taken, m, level, between)
    {
      ghost var mid, later := queues, arrivals;
      taken, m, level, between := BalanceBoth(blockings, actives, activeTaskCount, threshold);
      SuffixTwice(earlier, later, arrivals);
      RoundSince(start, mid, ws, queues, weights, blockings, actives, threshold, taken, m, level, between);
      if NoneArrive(earlier) {
        RoundWithoutArrivals(start, earlier, queues, arrivals, blockings, actives, threshold, taken, m, level, between);
      }
      assert DoneAndExact(start, earlier, ws, queues, weights, blockings, actives, threshold, taken, m, level, between);
    }

    /** Round robin: the first active processor behind the one chosen last, if there is any. */
    method NextTaskAcceptableProcessor() returns (processor: Option<Processor>)
      modifies `lastActiveProcessorIndex
      ensures processor.None? <==> forall i | 0 <= i < |processors| :: !processors[i].active
      ensures processor.None? ==> lastActiveProcessorIndex == old(lastActiveProcessorIndex)
      ensures processor.Some? ==>
        var n, last, now := |processors|, old(lastActiveProcessorIndex), lastActiveProcessorIndex;
        && now < n && processors[now] == processor.value && processors[now].active
        && exists k: nat :: k < n && now == Around(last, k, n) &&
             forall d | 0 <= d < k :: !processors[Around(last, d, n)].active
      ensures processor.Some? && old(lastActiveProcessorIndex) < |processors| ==>
        var n, last, now := |processors|, old(lastActiveProcessorIndex), lastActiveProcessorIndex;
        forall i | 0 <= i < n && (if last < now then last < i < now else last < i || i < now) :: !processors[i].active
    {
      var index := lastActiveProcessorIndex;
      ghost var last := index;
      var n := |processors|;
      for i := 0 to n
        invariant lastActiveProcessorIndex == last
        invariant index == if i == 0 then last else Around(last, i - 1, n)
        invariant forall d | 0 <= d < i :: !processors[Around(last, d, n)].active
      {
        if i > 0 {
          AroundNext(last, i, n);
        }
        index := (index + 1) % n;
        assert index == Around(last, i, n);
        if processors[index].active {
          lastActiveProcessorIndex := index;
          if last < n {
            forall p | 0 <= p < n && (if last < index then last < p < index else last < p || p < index) ensures !processors[p].active {
              ghost var d := PassedOver(last, i, n, p);
              assert !processors[Around(last, d, n)].active;
            }
          }
          return Some(processors[index]);
        }
      }
      forall i | 0 <= i < |processors| ensures !processors[i].active {
        ghost var d := PlacesTo(last, i, n);
        assert !processors[Around(last, d, n)].active;
      }
      processor := None;
    }
  }

  /** The index `d + 1` places behind `last`. */
  function Around(last: nat, d: nat, n: nat): (i: nat)
    requires n > 0
    ensures i < n
  {
    (last + 1 + d) % n
  }

  lemma ModOf(q: nat, r: nat, n: nat)
    requires r < n
    ensures (q * n + r) % n == r
  {
    var x := q * n + r;
    DivisionBounds(x, n);
    if x / n < q {
      TimesMonotone(x / n + 1, q, n);
    } else if x / n > q {
      TimesMonotone(q + 1, x / n, n);
    }
  }

  lemma AroundNext(last: nat, i: nat, n: nat)
    requires 0 < i && n > 0
    ensures (Around(last, i - 1, n) + 1) % n == Around(last, i, n)
  {
    var x := last + i;
    DivisionBounds(x, n);
    var q, r := x / n, x % n;
    if r + 1 < n {
      ModOf(q, r + 1, n);
      ModOf(0, r + 1, n);
    } else {
      assert x + 1 == (q + 1) * n + 0;
      ModOf(q + 1, 0, n);
      ModOf(1, 0, n);
    }
  }

  lemma AroundIs(last: nat, d: nat, n: nat)
    requires last < n && d < n
    ensures Around(last, d, n) == if last + 1 + d < n then last + 1 + d else last + 1 + d - n
  {
    if last + 1 + d < n {
      ModOf(0, last + 1 + d, n);
    } else {
      ModOf(1, last + 1 + d - n, n);
    }
  }

  /** An index between the last one and the one `k + 1` places behind it, going around. */
  lemma PassedOver(last: nat, k: nat, n: nat, i: nat) returns (d: nat)
    requires last < n && k < n && i < n
    requires var now := Around(last, k, n);
      if last < now then last < i < now else last < i || i < now
    ensures d < k && Around(last, d, n) == i
  {
    AroundIs(last, k, n);
    d := if last < i then i - last - 1 else i + n - last - 1;
    AroundIs(last, d, n);
  }

  /** Every index is fewer than a full turn behind the last one. */
  lemma PlacesTo(last: nat, i: nat, n: nat) returns (d: nat)
    requires i < n
    ensures d < n && Around(last, d, n) == i
  {
    var x := last + 1;
    DivisionBounds(x, n);
    var q, r := x / n, x % n;
    if i >= r {
      d := i - r;
      ModOf(q, i, n);
    } else {
      d := n + i - r;
      assert x + d == (q + 1) * n + i;
      ModOf(q + 1, i, n);
    }
  }
}
