/** The arithmetic of a balancing round, on the loads recorded for the active processors. */
module BalancePlan {
  import opened Common

  const SIZE: nat := 0x1_0000_0000_0000_0000

  /** Subtraction of machine words. */
  function WrappingSub(a: nat, b: nat): nat {
    if a >= b then a - b else (SIZE - (b - a) % SIZE) % SIZE
  }

  /** An entry of the multimap from recorded load to processor index. */
  datatype Active = Active(load: nat, index: nat)

  ghost predicate Sorted(actives: seq<Active>) {
    forall j, k | 0 <= j < k < |actives| :: actives[j].load <= actives[k].load
  }

  function SumLoads(actives: seq<Active>): nat {
    if actives == [] then 0 else SumLoads(actives[..|actives| - 1]) + actives[|actives| - 1].load
  }

  /** Insertion behind all entries of the same or a smaller load. */
  function Emplace(actives: seq<Active>, a: Active): seq<Active> {
    if actives == [] then [a]
    else
      var last := actives[|actives| - 1];
      if a.load < last.load then Emplace(actives[..|actives| - 1], a) + [last] else actives + [a]
  }

  /** The entry goes behind all entries of at most its load and before all heavier ones. */
  lemma {:induction false} EmplacePosition(actives: seq<Active>, a: Active) returns (p: nat)
    ensures p <= |actives| && Emplace(actives, a) == actives[..p] + [a] + actives[p..]
    ensures p > 0 ==> actives[p - 1].load <= a.load
    ensures forall j | p <= j < |actives| :: actives[j].load > a.load
  {
    p := |actives|;
    if actives != [] && a.load < actives[|actives| - 1].load {
      var init := actives[..|actives| - 1];
      p := EmplacePosition(init, a);
      assert actives[p..] == init[p..] + [actives[|actives| - 1]];
    }
  }

  lemma EmplaceSorted(actives: seq<Active>, a: Active)
    requires Sorted(actives)
    ensures Sorted(Emplace(actives, a))
  {
    var p := EmplacePosition(actives, a);
  }

  lemma EmplaceMembers(actives: seq<Active>, a: Active, x: Active)
    ensures x in Emplace(actives, a) <==> x in actives || x == a
  {
    var p := EmplacePosition(actives, a);
    assert actives == actives[..p] + actives[p..];
  }

  lemma EmplaceDistinct(actives: seq<Active>, a: Active)
    requires DistinctIndexes(actives) && forall x | x in actives :: x.index < a.index
    ensures DistinctIndexes(Emplace(actives, a)) && |Emplace(actives, a)| == |actives| + 1
  {
    var p := EmplacePosition(actives, a);
    assert forall j | 0 <= j < |actives| :: actives[j] in actives;
    InsertedDistinct(actives, p, a);
  }

  lemma InsertedDistinct(actives: seq<Active>, p: nat, a: Active)
    requires p <= |actives| && DistinctIndexes(actives) && forall j | 0 <= j < |actives| :: actives[j].index < a.index
    ensures DistinctIndexes(actives[..p] + [a] + actives[p..])
  {
    var more := actives[..p] + [a] + actives[p..];
    forall j, k | 0 <= j < k < |more| ensures more[j].index != more[k].index {
      assert more[j] == if j < p then actives[j] else if j == p then a else actives[j - 1];
      assert more[k] == if k < p then actives[k] else if k == p then a else actives[k - 1];
    }
  }

  /** Recording one more processor keeps the multimap a sorted list of distinct processors. */
  lemma EmplaceRecord(actives: seq<Active>, load: nat, i: nat)
    requires Sorted(actives) && DistinctIndexes(actives) && forall x | x in actives :: x.index < i
    ensures var more := Emplace(actives, Active(load, i));
      && Sorted(more) && DistinctIndexes(more) && |more| == |actives| + 1
      && SumLoads(more) == SumLoads(actives) + load
      && forall x :: x in more <==> x in actives || x == Active(load, i)
  {
    var a := Active(load, i);
    EmplaceSorted(actives, a);
    EmplaceDistinct(actives, a);
    EmplaceSums(actives, a);
    forall x ensures x in Emplace(actives, a) <==> x in actives || x == a {
      EmplaceMembers(actives, a, x);
    }
  }

  lemma SumSnoc(s: seq<Active>, last: Active)
    ensures SumLoads(s + [last]) == SumLoads(s) + last.load
  {
    assert (s + [last])[..|s|] == s;
  }

  lemma {:induction false} EmplaceSums(actives: seq<Active>, a: Active)
    ensures SumLoads(Emplace(actives, a)) == SumLoads(actives) + a.load
  {
    if actives == [] {
      SumSnoc([], a);
    } else {
      var init, last := actives[..|actives| - 1], actives[|actives| - 1];
      if a.load < last.load {
        EmplaceSums(init, a);
        SumSnoc(Emplace(init, a), last);
      } else {
        SumSnoc(actives, a);
      }
    }
  }

  lemma {:induction false} SumOfPrefix(actives: seq<Active>, k: nat)
    requires k < |actives|
    ensures SumLoads(actives[..k + 1]) == SumLoads(actives[..k]) + actives[k].load
  {
    assert actives[..k + 1][..k] == actives[..k];
  }

  lemma {:induction false} SumGrows(actives: seq<Active>, j: nat, k: nat)
    requires j <= k <= |actives|
    ensures SumLoads(actives[..j]) <= SumLoads(actives[..k])
    decreases k
  {
    if j < k {
      SumOfPrefix(actives, k - 1);
      SumGrows(actives, j, k - 1);
    }
  }

  // ------------------------------------------------------------------ water filling

  /** `m` processors are kept and filled up to `avg` with `total` tasks from outside. */
  ghost predicate Filling(total: nat, actives: seq<Active>, m: nat, avg: nat) {
    && 1 <= m <= |actives|
    && avg == (total + SumLoads(actives[..m])) / m
    && (forall j | 0 <= j < m :: actives[j].load <= avg)
    && (forall j | m <= j < |actives| :: actives[j].load > avg)
  }

  lemma {:induction false} AtMostEach(actives: seq<Active>, m: nat, k: nat, most: nat)
    requires m <= k <= |actives| && forall j | m <= j < k :: actives[j].load <= most
    ensures SumLoads(actives[..k]) <= SumLoads(actives[..m]) + (k - m) * most
    decreases k
  {
    if m < k {
      SumOfPrefix(actives, k - 1);
      AtMostEach(actives, m, k - 1, most);
      assert (k - m) * most == (k - 1 - m) * most + most;
    }
  }

  lemma DivisionBounds(s: nat, m: nat)
    requires m > 0
    ensures (s / m) * m <= s < (s / m + 1) * m
    ensures s == (s / m) * m + s % m && s % m < m
  {
  }

  lemma DivisionLess(s: nat, m: nat, q: nat)
    requires m > 0 && s < q * m
    ensures s / m < q
  {
    if s / m >= q {
      DivisionBounds(s, m);
      TimesMonotone(q, s / m, m);
    }
  }

  lemma TimesMonotone(a: nat, b: nat, c: nat)
    requires a <= b
    ensures a * c <= b * c
  {
  }

  lemma LevelBound(s: nat, m: nat, m': nat, avg: nat, avg': nat)
    requires 0 < m < m' && avg < avg' && s < (avg + 1) * m
    ensures s + (m' - m) * avg' < avg' * m'
  {
    TimesMonotone(avg + 1, avg', m);
    assert avg' * m' == avg' * m + (m' - m) * avg';
  }

  lemma NoSecondLevel(total: nat, actives: seq<Active>, m: nat, avg: nat, m': nat, avg': nat)
    requires Filling(total, actives, m, avg) && m < m'
    ensures !Filling(total, actives, m', avg')
  {
    if Filling(total, actives, m', avg') {
      // the processors between m and m' hold more than avg and at most avg'
      assert avg < actives[m].load <= avg';
      AtMostEach(actives, m, m', avg');
      DivisionBounds(total + SumLoads(actives[..m]), m);
      LevelBound(total + SumLoads(actives[..m]), m, m', avg, avg');
      DivisionBounds(total + SumLoads(actives[..m']), m');
    }
  }

  /** The level is determined: there is only one way to fill. */
  lemma FillingIsUnique(total: nat, actives: seq<Active>, m: nat, avg: nat, m': nat, avg': nat)
    requires Filling(total, actives, m, avg) && Filling(total, actives, m', avg')
    ensures m == m' && avg == avg'
  {
    if m < m' {
      NoSecondLevel(total, actives, m, avg, m', avg');
    } else if m' < m {
      NoSecondLevel(total, actives, m', avg', m, avg);
    }
  }

  lemma RejectedAfterRecompute(s: nat, load: nat, m: nat)
    requires m > 0 && load > (s + load) / (m + 1)
    ensures load > s / m
  {
    var q := (s + load) / (m + 1);
    DivisionBounds(s + load, m + 1);
    TimesMonotone(q + 1, load, m + 1);
    assert load * (m + 1) == load * m + load;
    DivisionLess(s, m, load);
  }

  /** `k` processors have been kept, with `sum` tasks among them, `avg` for each. */
  ghost predicate Planning(total: nat, actives: seq<Active>, k: nat, sum: nat, avg: nat) {
    && k <= |actives| && sum == total + SumLoads(actives[..k])
    && (k > 0 ==> avg == sum / k && forall j | 0 <= j < k :: actives[j].load <= avg)
  }

  /** A processor that is rejected is above the average without it, as are all behind it; the
      first one never is rejected. */
  lemma Rejected(total: nat, actives: seq<Active>, k: nat, sum: nat, avg: nat)
    requires Sorted(actives) && k < |actives| && Planning(total, actives, k, sum, avg)
    requires actives[k].load > (sum + actives[k].load) / (k + 1)
    ensures k > 0 && Filling(total, actives, k, sum / k)
  {
    FirstIsKept(sum, actives[k].load, k);
    RejectedAfterRecompute(sum, actives[k].load, k);
    AboveFrom(actives, k, sum / k);
  }

  lemma Kept(total: nat, actives: seq<Active>, k: nat, sum: nat, avg: nat)
    requires Sorted(actives) && k < |actives| && Planning(total, actives, k, sum, avg)
    requires actives[k].load <= (sum + actives[k].load) / (k + 1)
    ensures Planning(total, actives, k + 1, sum + actives[k].load, (sum + actives[k].load) / (k + 1))
  {
    SumOfPrefix(actives, k);
    BelowUpTo(actives, k, (sum + actives[k].load) / (k + 1));
  }

  lemma FirstIsKept(s: nat, load: nat, k: nat)
    requires load > (s + load) / (k + 1)
    ensures k > 0
  {
  }

  lemma AboveFrom(actives: seq<Active>, k: nat, avg: nat)
    requires Sorted(actives) && k < |actives| && actives[k].load > avg
    ensures forall j | k <= j < |actives| :: actives[j].load > avg
  {
  }

  lemma BelowUpTo(actives: seq<Active>, k: nat, avg: nat)
    requires Sorted(actives) && k < |actives| && actives[k].load <= avg
    ensures forall j | 0 <= j <= k :: actives[j].load <= avg
  {
  }

  /** The loop of balanceBlock: it stops at the first processor whose load exceeds the average
      so far, takes it out again and steps past it. The divisor is never zero. */
  method Plan(total: nat, actives: seq<Active>) returns (avg: nat, lowerNum: nat, stop: nat)
    requires actives != [] && Sorted(actives)
    ensures Filling(total, actives, lowerNum, avg)
    ensures stop == if lowerNum < |actives| then lowerNum + 1 else lowerNum
  {
    var totalBlockTasks: nat := total;
    lowerNum, avg := 0, 0;
    var lowerActive := 0;
    while lowerActive < |actives|
      invariant lowerActive == lowerNum <= |actives|
      invariant Planning(total, actives, lowerNum, totalBlockTasks, avg)
    {
      ghost var sum, k, before := totalBlockTasks, lowerNum, avg;
      totalBlockTasks := totalBlockTasks + actives[lowerActive].load;
      lowerNum := lowerNum + 1;
      avg := totalBlockTasks / lowerNum;
      if actives[lowerActive].load > avg {
        totalBlockTasks := totalBlockTasks - actives[lowerActive].load;
        lowerNum := lowerNum - 1;
        assert totalBlockTasks == sum && lowerNum == k;
        Rejected(total, actives, k, sum, before);
        avg := totalBlockTasks / lowerNum;
        break;
      }
      Kept(total, actives, k, sum, before);
      lowerActive := lowerActive + 1;
    }
    stop := if lowerActive != |actives| then lowerActive + 1 else lowerActive;
  }

  // ------------------------------------------------------------------ shares

  function Deficit(a: Active, avg: nat): nat {
    if a.load < avg then avg - a.load else 0
  }

  function Surplus(a: Active, avg: nat): nat {
    if a.load > avg then a.load - avg else 0
  }

  /** What it takes to raise the first `k` processors to `avg`. */
  function Deficits(actives: seq<Active>, k: nat, avg: nat): nat
    requires k <= |actives|
  {
    if k == 0 then 0 else Deficits(actives, k - 1, avg) + Deficit(actives[k - 1], avg)
  }

  /** What the processors from `k` on hold above `avg`. */
  function Surpluses(actives: seq<Active>, k: nat, avg: nat): nat
    requires k <= |actives|
    decreases |actives| - k
  {
    if k == |actives| then 0 else Surplus(actives[k], avg) + Surpluses(actives, k + 1, avg)
  }

  lemma {:induction false} DeficitsGrow(actives: seq<Active>, j: nat, k: nat, avg: nat)
    requires j <= k <= |actives|
    ensures Deficits(actives, j, avg) <= Deficits(actives, k, avg)
    decreases k
  {
    if j < k {
      DeficitsGrow(actives, j, k - 1, avg);
    }
  }

  lemma {:induction false} DeficitsOfKept(actives: seq<Active>, k: nat, avg: nat)
    requires k <= |actives| && forall j | 0 <= j < k :: actives[j].load <= avg
    ensures Deficits(actives, k, avg) + SumLoads(actives[..k]) == k * avg
  {
    if k > 0 {
      DeficitsOfKept(actives, k - 1, avg);
      SumOfPrefix(actives, k - 1);
      assert k * avg == (k - 1) * avg + avg;
    }
  }

  /** The tasks suffice to raise every kept processor to the level; the rest is the remainder
      of the division. */
  lemma FillingLeavesRemainder(total: nat, actives: seq<Active>, m: nat, avg: nat)
    requires Filling(total, actives, m, avg)
    ensures Deficits(actives, m, avg) <= total
    ensures total - Deficits(actives, m, avg) == (total + SumLoads(actives[..m])) % m < m
  {
    DeficitsOfKept(actives, m, avg);
    RestOfDivision(total + SumLoads(actives[..m]), m, avg);
  }

  lemma RestOfDivision(s: nat, m: nat, q: nat)
    requires m > 0 && q == s / m
    ensures m * q <= s && s - m * q == s % m < m
  {
  }

  lemma {:induction false} NoMoreDeficits(actives: seq<Active>, j: nat, k: nat, avg: nat)
    requires j <= k <= |actives| && forall i | j <= i < k :: actives[i].load >= avg
    ensures Deficits(actives, k, avg) == Deficits(actives, j, avg)
    decreases k
  {
    if j < k {
      NoMoreDeficits(actives, j, k - 1, avg);
    }
  }

  lemma {:induction false} NoSurplusBelow(actives: seq<Active>, k: nat, avg: nat)
    requires k <= |actives| && forall i | 0 <= i < k :: actives[i].load <= avg
    ensures Surpluses(actives, 0, avg) == Surpluses(actives, k, avg)
  {
    if k > 0 {
      NoSurplusBelow(actives, k - 1, avg);
    }
  }

  lemma {:induction false} SurplusSplit(actives: seq<Active>, k: nat, avg: nat)
    requires k <= |actives|
    ensures Surpluses(actives, 0, avg) + Deficits(actives, 0, avg) - Surpluses(actives, k, avg) + k * avg
         == SumLoads(actives[..k]) + Deficits(actives, k, avg)
  {
    if k > 0 {
      SurplusSplit(actives, k - 1, avg);
      SumOfPrefix(actives, k - 1);
      assert k * avg == (k - 1) * avg + avg;
    }
  }

  /** What is stolen above the average covers every deficit; the rest is the remainder. */
  lemma SurplusCoversDeficits(actives: seq<Active>, avg: nat)
    requires actives != [] && avg == SumLoads(actives) / |actives|
    ensures Surpluses(actives, 0, avg)
         == Deficits(actives, |actives|, avg) + SumLoads(actives) % |actives|
  {
    SurplusSplit(actives, |actives|, avg);
    assert actives[..|actives|] == actives;
    DivisionBounds(SumLoads(actives), |actives|);
  }

  /** Who gets what is left over: the rejected processor the loop has stepped past, unless the
      hand-out ended early at a processor that already is at the level or there is none. */
  function Receiver(actives: seq<Active>, m: nat, avg: nat): nat
    requires 1 <= m <= |actives|
  {
    if m < |actives| && actives[m - 1].load < avg then m else 0
  }

  /** What balanceBlock hands to the `j`-th active processor. */
  function Share(total: nat, actives: seq<Active>, m: nat, avg: nat, j: nat): nat
    requires 1 <= m <= |actives| && j < |actives|
  {
    Deficit(actives[j], avg) +
    if j == Receiver(actives, m, avg) then (total + SumLoads(actives[..m])) % m else 0
  }

  /** Every kept processor ends at exactly the level, up to the remainder, which is smaller
      than the number of kept processors. */
  lemma SharesLevel(total: nat, actives: seq<Active>, m: nat, avg: nat, j: nat)
    requires Filling(total, actives, m, avg) && j < |actives|
    ensures j < m && j != Receiver(actives, m, avg) ==> actives[j].load + Share(total, actives, m, avg, j) == avg
    ensures j < m && j == Receiver(actives, m, avg) ==> avg <= actives[j].load + Share(total, actives, m, avg, j) < avg + m
    ensures j >= m && j != Receiver(actives, m, avg) ==> Share(total, actives, m, avg, j) == 0
  {
  }

  /** The machine word `avg - load` of a rejected processor asks for more than is left. */
  lemma WrappedDemand(avg: nat, load: nat, left: nat)
    requires avg < load && load + left < SIZE
    ensures WrappingSub(avg, load) >= left
  {
  }

  // ------------------------------------------------------------------ the hand-out loop

  /** What the loop gives to the processors `j`, `j + 1`, ... with `left` tasks in hand. */
  function Handed(left: nat, actives: seq<Active>, avg: nat, j: nat, stop: nat): (given: seq<nat>)
    requires j <= stop <= |actives|
    ensures |given| <= stop - j && SumOf(given) <= left
    decreases stop - j
  {
    if j == stop then []
    else
      var n := Min(WrappingSub(avg, actives[j].load), left);
      if n == 0 then []
      else
        var rest := Handed(left - n, actives, avg, j + 1, stop);
        SumOfCons(n, rest);
        [n] + rest
  }

  function SumOf(s: seq<nat>): nat {
    if s == [] then 0 else SumOf(s[..|s| - 1]) + s[|s| - 1]
  }

  /** What processor `i` got, when `given` lists what the first actives got. */
  function Owed(actives: seq<Active>, given: seq<nat>, i: nat): nat
    requires |given| <= |actives|
  {
    if given == [] then 0
    else
      var n := |given| - 1;
      Owed(actives, given[..n], i) + if actives[n].index == i then given[n] else 0
  }

  /** What the hand-out loop has given so far, and that it will go on as planned. */
  ghost predicate HandingOut(total: nat, actives: seq<Active>, avg: nat, stop: nat, j: nat, gave: bool, left: nat, given: seq<nat>)
    requires stop <= |actives|
  {
    && j <= stop && |given| == j && left + SumOf(given) == total
    && Handed(total, actives, avg, 0, stop) == given + if gave then Handed(left, actives, avg, j, stop) else []
  }

  lemma HandedStep(total: nat, actives: seq<Active>, avg: nat, stop: nat, j: nat, left: nat, given: seq<nat>)
    requires j < stop <= |actives| && HandingOut(total, actives, avg, stop, j, true, left, given)
    ensures var n := Min(WrappingSub(avg, actives[j].load), left);
      if n > 0 then HandingOut(total, actives, avg, stop, j + 1, true, left - n, given + [n])
      else HandingOut(total, actives, avg, stop, j, false, left, given)
  {
    var n := Min(WrappingSub(avg, actives[j].load), left);
    assert (given + [n])[..|given|] == given;
    if n > 0 {
      assert given + Handed(left, actives, avg, j, stop) == given + [n] + Handed(left - n, actives, avg, j + 1, stop);
    }
  }

  // ------------------------------------------------------------------ lengths of all queues

  function Plus(ws: seq<nat>, i: nat, n: nat): (r: seq<nat>)
    ensures |r| == |ws|
  {
    if i < |ws| then ws[i := ws[i] + n] else ws
  }

  /** The lengths after the first actives got what `given` lists. */
  function AfterHandOut(ws: seq<nat>, actives: seq<Active>, given: seq<nat>): (r: seq<nat>)
    ensures |r| == |ws|
  {
    if given == [] || |given| > |actives| then ws
    else
      var n := |given| - 1;
      Plus(AfterHandOut(ws, actives, given[..n]), actives[n].index, given[n])
  }

  lemma HandOutSnoc(ws: seq<nat>, actives: seq<Active>, given: seq<nat>, n: nat)
    requires |given| < |actives|
    ensures AfterHandOut(ws, actives, given + [n]) == Plus(AfterHandOut(ws, actives, given), actives[|given|].index, n)
    ensures n == 0 ==> AfterHandOut(ws, actives, given + [n]) == AfterHandOut(ws, actives, given)
  {
    assert (given + [n])[..|given|] == given;
  }

  function MoreGiven(given: seq<nat>, n: nat): seq<nat> {
    if n > 0 then given + [n] else given
  }

  /** One demand and its effect on the lengths. */
  lemma HandOutNext(total: nat, actives: seq<Active>, avg: nat, stop: nat, j: nat, left: nat, given: seq<nat>, ws: seq<nat>)
    requires j < stop <= |actives| && HandingOut(total, actives, avg, stop, j, true, left, given)
    ensures var n := Min(WrappingSub(avg, actives[j].load), left);
      && HandingOut(total, actives, avg, stop, if n > 0 then j + 1 else j, n > 0, left - n, MoreGiven(given, n))
      && AfterHandOut(ws, actives, MoreGiven(given, n)) == Plus(AfterHandOut(ws, actives, given), actives[j].index, n)
  {
    HandedStep(total, actives, avg, stop, j, left, given);
    HandOutSnoc(ws, actives, given, Min(WrappingSub(avg, actives[j].load), left));
  }

  lemma {:induction false} AfterHandOutAt(ws: seq<nat>, actives: seq<Active>, given: seq<nat>, i: nat)
    requires |given| <= |actives| && i < |ws|
    ensures AfterHandOut(ws, actives, given)[i] == ws[i] + Owed(actives, given, i)
  {
    if given != [] {
      AfterHandOutAt(ws, actives, given[..|given| - 1], i);
    }
  }

  function GivenTo(given: seq<nat>, k: nat): nat {
    if k < |given| then given[k] else 0
  }

  predicate DistinctIndexes(actives: seq<Active>) {
    forall j, k | 0 <= j < k < |actives| :: actives[j].index != actives[k].index
  }

  lemma {:induction false} OwedToActive(actives: seq<Active>, given: seq<nat>, k: nat)
    requires |given| <= |actives| && k < |actives| && DistinctIndexes(actives)
    ensures Owed(actives, given, actives[k].index) == GivenTo(given, k)
  {
    if given != [] {
      OwedToActive(actives, given[..|given| - 1], k);
    }
  }

  lemma {:induction false} OwedToOthers(actives: seq<Active>, given: seq<nat>, i: nat)
    requires |given| <= |actives| && forall a | a in actives :: a.index != i
    ensures Owed(actives, given, i) == 0
  {
    if given != [] {
      assert actives[|given| - 1] in actives;
      OwedToOthers(actives, given[..|given| - 1], i);
    }
  }

  lemma {:induction false} SumOfCons(n: nat, s: seq<nat>)
    ensures SumOf([n] + s) == n + SumOf(s)
  {
    var u := [n] + s;
    if s == [] {
      assert u[..0] == [];
    } else {
      SumOfCons(n, s[..|s| - 1]);
      assert u[..|u| - 1] == [n] + s[..|s| - 1];
    }
  }

  /** Whether the loop, standing at `j`, gets as far as the rejected processor. */
  predicate Reaches(actives: seq<Active>, m: nat, avg: nat, j: nat)
    requires 1 <= m <= |actives|
  {
    m < |actives| && (j == m || (j < m && actives[m - 1].load < avg))
  }

  function Remainder(total: nat, actives: seq<Active>, m: nat): nat
    requires 1 <= m <= |actives|
  {
    (total + SumLoads(actives[..m])) % m
  }

  /** What the loop, from `j` on, has to give to processor `k`. */
  function Due(total: nat, actives: seq<Active>, m: nat, avg: nat, j: nat, k: nat): nat
    requires 1 <= m <= |actives| && k < |actives|
  {
    if k != m then Deficit(actives[k], avg)
    else if Reaches(actives, m, avg, j) then Remainder(total, actives, m)
    else 0
  }

  ghost predicate Meets(total: nat, actives: seq<Active>, m: nat, avg: nat, j: nat, left: nat, given: seq<nat>)
    requires 1 <= m <= |actives|
  {
    && (forall k | j <= k < |actives| :: GivenTo(given, k - j) == Due(total, actives, m, avg, j, k))
    && (j <= m ==> SumOf(given) + (if Reaches(actives, m, avg, j) then 0 else Remainder(total, actives, m)) == left)
    && (j > m ==> SumOf(given) == left == 0)
  }

  /** What the loop does at processor `j` is what has to be done there. */
  lemma DemandMet(total: nat, actives: seq<Active>, m: nat, avg: nat, j: nat, left: nat)
    requires Filling(total, actives, m, avg) && j <= m && j < |actives|
    requires left + Deficits(actives, j, avg) == total
    requires actives[j].load + |actives| < SIZE
    ensures j < m ==> Min(WrappingSub(avg, actives[j].load), left) == Deficit(actives[j], avg)
    ensures j < m ==> left - Deficit(actives[j], avg) + Deficits(actives, j + 1, avg) == total
    ensures j == m ==> Min(WrappingSub(avg, actives[j].load), left) == left == Remainder(total, actives, m)
  {
    FillingLeavesRemainder(total, actives, m, avg);
    if j < m {
      KeptDemandMet(total, actives, m, avg, j, left);
    } else {
      WrappedDemand(avg, actives[j].load, left);
    }
  }

  lemma KeptDemandMet(total: nat, actives: seq<Active>, m: nat, avg: nat, j: nat, left: nat)
    requires j < m <= |actives| && actives[j].load <= avg && Deficits(actives, m, avg) <= total
    requires left + Deficits(actives, j, avg) == total
    ensures Min(WrappingSub(avg, actives[j].load), left) == Deficit(actives[j], avg)
    ensures left - Deficit(actives[j], avg) + Deficits(actives, j + 1, avg) == total
  {
    DeficitsGrow(actives, j + 1, m, avg);
  }

  /** A demand of zero means that this and all later kept processors are at the level already. */
  lemma EndedEarly(total: nat, actives: seq<Active>, m: nat, avg: nat, j: nat, left: nat)
    requires Sorted(actives) && Filling(total, actives, m, avg) && j < m && actives[j].load == avg
    requires left + Deficits(actives, j, avg) == total
    ensures Meets(total, actives, m, avg, j, left, [])
  {
    assert forall k | j <= k < m :: actives[k].load >= avg;
    assert actives[m - 1].load >= avg;
    NoMoreDeficits(actives, j, m, avg);
    FillingLeavesRemainder(total, actives, m, avg);
    assert left == Remainder(total, actives, m);
  }

  lemma NothingLeft(total: nat, actives: seq<Active>, m: nat, avg: nat, j: nat)
    requires Filling(total, actives, m, avg) && m <= j
    requires j == m ==> Remainder(total, actives, m) == 0 || m == |actives|
    ensures Meets(total, actives, m, avg, j, if j == m then Remainder(total, actives, m) else 0, [])
  {
  }

  lemma MeetsCons(total: nat, actives: seq<Active>, m: nat, avg: nat, j: nat, left: nat, n: nat, tail: seq<nat>)
    requires Filling(total, actives, m, avg) && j <= m && j < |actives| && n <= left && SumOf([n] + tail) == n + SumOf(tail)
    requires n > 0 && n == if j < m then Deficit(actives[j], avg) else left
    requires j == m ==> left == Remainder(total, actives, m)
    requires Sorted(actives)
    requires Meets(total, actives, m, avg, j + 1, left - n, tail)
    ensures Meets(total, actives, m, avg, j, left, [n] + tail)
  {
    forall k | j <= k < |actives| ensures GivenTo([n] + tail, k - j) == Due(total, actives, m, avg, j, k) {
      if k > j {
        assert GivenTo(tail, k - (j + 1)) == Due(total, actives, m, avg, j + 1, k);
      }
    }
  }

  /** The loop ends at `j`: at the end of the list or because the demand gets nothing. */
  lemma HandedEnds(total: nat, actives: seq<Active>, m: nat, avg: nat, j: nat, stop: nat, left: nat)
    requires Sorted(actives) && Filling(total, actives, m, avg)
    requires stop == (if m < |actives| then m + 1 else m) && j <= stop
    requires j <= m ==> left + Deficits(actives, j, avg) == total
    requires j > m ==> left == 0
    requires j < |actives| ==> actives[j].load + |actives| < SIZE
    requires j == stop || Min(WrappingSub(avg, actives[j].load), left) == 0
    ensures Meets(total, actives, m, avg, j, left, [])
  {
    if j < m {
      DemandMet(total, actives, m, avg, j, left);
      EndedEarly(total, actives, m, avg, j, left);
    } else {
      if j == m {
        FillingLeavesRemainder(total, actives, m, avg);
        if j < |actives| {
          DemandMet(total, actives, m, avg, j, left);
        }
      }
      NothingLeft(total, actives, m, avg, j);
    }
  }

  lemma HandedGoesOn(total: nat, actives: seq<Active>, m: nat, avg: nat, j: nat, left: nat, n: nat, tail: seq<nat>)
    requires Sorted(actives) && Filling(total, actives, m, avg) && j <= m && j < |actives|
    requires left + Deficits(actives, j, avg) == total
    requires actives[j].load + |actives| < SIZE
    requires n == Min(WrappingSub(avg, actives[j].load), left) > 0
    requires Meets(total, actives, m, avg, j + 1, left - n, tail)
    ensures Meets(total, actives, m, avg, j, left, [n] + tail)
  {
    DemandMet(total, actives, m, avg, j, left);
    SumOfCons(n, tail);
    MeetsCons(total, actives, m, avg, j, left, n, tail);
  }

  lemma {:induction false} HandedMeets(total: nat, actives: seq<Active>, m: nat, avg: nat, j: nat, stop: nat, left: nat)
    requires Sorted(actives) && Filling(total, actives, m, avg)
    requires stop == (if m < |actives| then m + 1 else m) && j <= stop
    requires j <= m ==> left + Deficits(actives, j, avg) == total
    requires j > m ==> left == 0
    requires forall k | 0 <= k < |actives| :: actives[k].load + |actives| < SIZE
    ensures Meets(total, actives, m, avg, j, left, Handed(left, actives, avg, j, stop))
    decreases stop - j
  {
    if j == stop || Min(WrappingSub(avg, actives[j].load), left) == 0 {
      HandedEnds(total, actives, m, avg, j, stop, left);
    } else {
      var n := Min(WrappingSub(avg, actives[j].load), left);
      DemandMet(total, actives, m, avg, j, left);
      HandedMeets(total, actives, m, avg, j + 1, stop, left - n);
      HandedGoesOn(total, actives, m, avg, j, left, n, Handed(left - n, actives, avg, j + 1, stop));
    }
  }

  lemma MeetsGivesShares(total: nat, actives: seq<Active>, m: nat, avg: nat, given: seq<nat>, k: nat)
    requires Filling(total, actives, m, avg) && k < |actives|
    requires Meets(total, actives, m, avg, 0, total, given)
    ensures SumOf(given) <= total
    ensures GivenTo(given, k) + (if k == 0 then total - SumOf(given) else 0) == Share(total, actives, m, avg, k)
  {
    assert GivenTo(given, k - 0) == Due(total, actives, m, avg, 0, k);
  }

  /** The loop and the hand-over of what is left give every active processor its share. */
  lemma SharesAreHanded(total: nat, actives: seq<Active>, m: nat, avg: nat, stop: nat, k: nat)
    requires Sorted(actives) && Filling(total, actives, m, avg)
    requires stop == (if m < |actives| then m + 1 else m) && k < |actives|
    requires forall k | 0 <= k < |actives| :: actives[k].load + |actives| < SIZE
    ensures var given := Handed(total, actives, avg, 0, stop);
      && SumOf(given) <= total
      && GivenTo(given, k) + (if k == 0 then total - SumOf(given) else 0) == Share(total, actives, m, avg, k)
  {
    HandedMeets(total, actives, m, avg, 0, stop, total);
    MeetsGivesShares(total, actives, m, avg, Handed(total, actives, avg, 0, stop), k);
  }

  lemma {:induction false} SumOfGiven(given: seq<nat>, rest: nat, s: seq<nat>, k: nat)
    requires k <= |s| && forall j | 0 <= j < |s| :: s[j] == GivenTo(given, j) + if j == 0 then rest else 0
    ensures SumOf(s[..k]) == SumOf(given[..Min(k, |given|)]) + if k > 0 then rest else 0
    decreases k
  {
    if k > 0 {
      SumOfGiven(given, rest, s, k - 1);
      assert s[..k][..k - 1] == s[..k - 1];
      if k <= |given| {
        assert given[..k][..k - 1] == given[..k - 1];
      } else {
        assert Min(k, |given|) == Min(k - 1, |given|) == |given|;
      }
    }
  }

  /** The shares are what was taken, no more and no less. */
  lemma SharesAddUp(total: nat, actives: seq<Active>, m: nat, avg: nat)
    requires Sorted(actives) && Filling(total, actives, m, avg)
    requires forall k | 0 <= k < |actives| :: actives[k].load + |actives| < SIZE
    ensures SumOf(seq(|actives|, j requires 0 <= j < |actives| => Share(total, actives, m, avg, j))) == total
  {
    var n := |actives|;
    var stop := if m < n then m + 1 else m;
    var given := Handed(total, actives, avg, 0, stop);
    var s := seq(n, j requires 0 <= j < n => Share(total, actives, m, avg, j));
    forall j | 0 <= j < n ensures s[j] == GivenTo(given, j) + if j == 0 then total - SumOf(given) else 0 {
      SharesAreHanded(total, actives, m, avg, stop, j);
    }
    SumOfGiven(given, total - SumOf(given), s, n);
    assert s[..n] == s && given[..Min(n, |given|)] == given;
  }

  /** What balanceBlock gives to processor `i`: in the loop, and of the rest if it is the least
      loaded one. */
  function LoopGain(total: nat, actives: seq<Active>, avg: nat, stop: nat, i: nat): nat
    requires actives != [] && stop <= |actives|
  {
    var given := Handed(total, actives, avg, 0, stop);
    Owed(actives, given, i) + if actives[0].index == i then total - SumOf(given) else 0
  }

  function BlockGain(total: nat, actives: seq<Active>, m: nat, avg: nat, i: nat): nat
    requires 1 <= m <= |actives|
  {
    LoopGain(total, actives, avg, if m < |actives| then m + 1 else m, i)
  }

  lemma GainOfActive(total: nat, actives: seq<Active>, m: nat, avg: nat, j: nat)
    requires Sorted(actives) && Filling(total, actives, m, avg) && DistinctIndexes(actives) && j < |actives|
    requires forall k | 0 <= k < |actives| :: actives[k].load + |actives| < SIZE
    ensures BlockGain(total, actives, m, avg, actives[j].index) == Share(total, actives, m, avg, j)
  {
    var stop := if m < |actives| then m + 1 else m;
    OwedToActive(actives, Handed(total, actives, avg, 0, stop), j);
    SharesAreHanded(total, actives, m, avg, stop, j);
    assert j > 0 ==> actives[0].index != actives[j].index;
  }

  lemma GainOfOthers(total: nat, actives: seq<Active>, m: nat, avg: nat, i: nat)
    requires 1 <= m <= |actives| && forall a | a in actives :: a.index != i
    ensures BlockGain(total, actives, m, avg, i) == 0
  {
    assert actives[0] in actives;
    OwedToOthers(actives, Handed(total, actives, avg, 0, if m < |actives| then m + 1 else m), i);
  }

  // ------------------------------------------------------------------ levelling the active processors

  /** What processor `i` loses when the actives from `k` on are cut down to `avg`. */
  function Taken(actives: seq<Active>, k: nat, avg: nat, i: nat): nat
    requires k <= |actives|
    decreases |actives| - k
  {
    if k == |actives| then 0
    else (if actives[k].index == i then Surplus(actives[k], avg) else 0) + Taken(actives, k + 1, avg, i)
  }

  /** What processor `i` gains when the first `k` actives are raised to `avg`. */
  function Raised(actives: seq<Active>, k: nat, avg: nat, i: nat): nat
    requires k <= |actives|
  {
    if k == 0 then 0
    else Raised(actives, k - 1, avg, i) + if actives[k - 1].index == i then Deficit(actives[k - 1], avg) else 0
  }

  lemma {:induction false} TakenFromActive(actives: seq<Active>, k: nat, avg: nat, j: nat)
    requires k <= |actives| && j < |actives| && DistinctIndexes(actives)
    ensures Taken(actives, k, avg, actives[j].index) == if j >= k then Surplus(actives[j], avg) else 0
    decreases |actives| - k
  {
    if k < |actives| {
      TakenFromActive(actives, k + 1, avg, j);
    }
  }

  lemma {:induction false} RaisedAtActive(actives: seq<Active>, k: nat, avg: nat, j: nat)
    requires k <= |actives| && j < |actives| && DistinctIndexes(actives)
    ensures Raised(actives, k, avg, actives[j].index) == if j < k then Deficit(actives[j], avg) else 0
  {
    if k > 0 {
      RaisedAtActive(actives, k - 1, avg, j);
    }
  }

  lemma {:induction false} OthersUntouched(actives: seq<Active>, k: nat, avg: nat, i: nat)
    requires k <= |actives| && forall a | a in actives :: a.index != i
    ensures Taken(actives, k, avg, i) == 0
    decreases |actives| - k
  {
    if k < |actives| {
      assert actives[k] in actives;
      OthersUntouched(actives, k + 1, avg, i);
    }
  }

  lemma {:induction false} OthersNotRaised(actives: seq<Active>, k: nat, avg: nat, i: nat)
    requires k <= |actives| && forall a | a in actives :: a.index != i
    ensures Raised(actives, k, avg, i) == 0
  {
    if k > 0 {
      assert actives[k - 1] in actives;
      OthersNotRaised(actives, k - 1, avg, i);
    }
  }

  lemma LevelOfActive(actives: seq<Active>, avg: nat, j: nat)
    requires DistinctIndexes(actives) && j < |actives|
    ensures var i := actives[j].index;
      && actives[j].load + Raised(actives, |actives|, avg, i) == avg + Taken(actives, 0, avg, i)
      && (actives[0].index == i <==> j == 0)
  {
    TakenFromActive(actives, 0, avg, j);
    RaisedAtActive(actives, |actives|, avg, j);
  }

  /** When nothing is above the average and nothing remains, nothing is below it either. */
  lemma NothingToRaise(actives: seq<Active>, avg: nat)
    requires actives != [] && avg == SumLoads(actives) / |actives|
    ensures Surpluses(actives, 0, avg) == 0 ==>
      && SumLoads(actives) % |actives| == 0
      && forall i :: Taken(actives, 0, avg, i) == 0 == Raised(actives, |actives|, avg, i)
  {
    SurplusCoversDeficits(actives, avg);
    forall i ensures Taken(actives, 0, avg, i) <= Surpluses(actives, 0, avg) {
      TakenAtMost(actives, 0, avg, i);
    }
    forall i ensures Raised(actives, |actives|, avg, i) <= Deficits(actives, |actives|, avg) {
      RaisedAtMost(actives, |actives|, avg, i);
    }
  }

  lemma {:induction false} TakenAtMost(actives: seq<Active>, k: nat, avg: nat, i: nat)
    requires k <= |actives|
    ensures Taken(actives, k, avg, i) <= Surpluses(actives, k, avg)
    decreases |actives| - k
  {
    if k < |actives| {
      TakenAtMost(actives, k + 1, avg, i);
    }
  }

  lemma {:induction false} RaisedAtMost(actives: seq<Active>, k: nat, avg: nat, i: nat)
    requires k <= |actives|
    ensures Raised(actives, k, avg, i) <= Deficits(actives, k, avg)
  {
    if k > 0 {
      RaisedAtMost(actives, k - 1, avg, i);
    }
  }

  // ------------------------------------------------------------------ results on all lengths

  /** Every load fits the machine word with room for a remainder. */
  predicate FitWord(actives: seq<Active>) {
    forall k | 0 <= k < |actives| :: actives[k].load + |actives| < SIZE
  }

  /** The active processors have got their shares of `total` tasks, the others nothing. */
  ghost predicate SharedOut(before: seq<nat>, after: seq<nat>, total: nat, actives: seq<Active>, m: nat, level: nat) {
    && |after| == |before| && 1 <= m <= |actives|
    && (forall j | 0 <= j < |actives| :: actives[j].index < |after| &&
          after[actives[j].index] == before[actives[j].index] + Share(total, actives, m, level, j))
    && (forall i | 0 <= i < |after| && (forall a | a in actives :: a.index != i) :: after[i] == before[i])
  }

  /** The lengths after the loop and the hand-over of the rest. */
  function AfterSharing(before: seq<nat>, total: nat, actives: seq<Active>, stop: nat, level: nat): (after: seq<nat>)
    requires actives != [] && stop <= |actives|
    ensures |after| == |before|
  {
    var given := Handed(total, actives, level, 0, stop);
    Plus(AfterHandOut(before, actives, given), actives[0].index, total - SumOf(given))
  }

  lemma SharingIs(before: seq<nat>, total: nat, actives: seq<Active>, stop: nat, level: nat, given: seq<nat>, left: nat)
    requires actives != [] && stop <= |actives|
    requires given == Handed(total, actives, level, 0, stop) && left + SumOf(given) == total
    ensures AfterSharing(before, total, actives, stop, level) ==
      Plus(AfterHandOut(before, actives, given), actives[0].index, left)
  {
  }

  lemma SharingAt(before: seq<nat>, total: nat, actives: seq<Active>, stop: nat, level: nat, i: nat)
    requires actives != [] && stop <= |actives| && i < |before|
    ensures AfterSharing(before, total, actives, stop, level)[i] == before[i] + LoopGain(total, actives, level, stop, i)
  {
    AfterHandOutAt(before, actives, Handed(total, actives, level, 0, stop), i);
  }

  lemma SharesArrive(before: seq<nat>, total: nat, actives: seq<Active>, m: nat, level: nat)
    requires Sorted(actives) && DistinctIndexes(actives) && FitWord(actives)
    requires forall a | a in actives :: a.index < |before|
    requires Filling(total, actives, m, level)
    ensures SharedOut(before, AfterSharing(before, total, actives, if m < |actives| then m + 1 else m, level), total, actives, m, level)
  {
    var stop := if m < |actives| then m + 1 else m;
    var after := AfterSharing(before, total, actives, stop, level);
    forall j | 0 <= j < |actives|
      ensures actives[j].index < |after| && after[actives[j].index] == before[actives[j].index] + Share(total, actives, m, level, j)
    {
      ShareArrives(before, total, actives, m, level, stop, j);
    }
    forall i | 0 <= i < |after| && (forall a | a in actives :: a.index != i) ensures after[i] == before[i] {
      NoShareArrives(before, total, actives, m, level, stop, i);
    }
  }

  lemma ShareArrives(before: seq<nat>, total: nat, actives: seq<Active>, m: nat, level: nat, stop: nat, j: nat)
    requires Sorted(actives) && DistinctIndexes(actives) && FitWord(actives) && j < |actives|
    requires forall a | a in actives :: a.index < |before|
    requires Filling(total, actives, m, level) && stop == if m < |actives| then m + 1 else m
    ensures actives[j].index < |before|
    ensures AfterSharing(before, total, actives, stop, level)[actives[j].index] ==
      before[actives[j].index] + Share(total, actives, m, level, j)
  {
    assert actives[j] in actives;
    SharingAt(before, total, actives, stop, level, actives[j].index);
    GainOfActive(total, actives, m, level, j);
  }

  lemma NoShareArrives(before: seq<nat>, total: nat, actives: seq<Active>, m: nat, level: nat, stop: nat, i: nat)
    requires 1 <= m <= |actives| && stop == (if m < |actives| then m + 1 else m) && i < |before|
    requires forall a | a in actives :: a.index != i
    ensures AfterSharing(before, total, actives, stop, level)[i] == before[i]
  {
    SharingAt(before, total, actives, stop, level, i);
    GainOfOthers(total, actives, m, level, i);
  }

  /** The effect of balanceBlock on all lengths but those of the blocked processors. */
  ghost predicate BlockBalanced(before: seq<nat>, after: seq<nat>, blockings: seq<nat>, total: nat, actives: seq<Active>, m: nat, level: nat) {
    && |after| == |before| && 1 <= m <= |actives|
    && (forall j | 0 <= j < |actives| && actives[j].index < |after| && actives[j].index !in blockings ::
          after[actives[j].index] == before[actives[j].index] +
            if total > 0 then Share(total, actives, m, level, j) else 0)
    && (forall i | 0 <= i < |after| && (forall a | a in actives :: a.index != i) && i !in blockings :: after[i] == before[i])
  }

  lemma BlockedInTwo(before: seq<nat>, between: seq<nat>, after: seq<nat>, blockings: seq<nat>, total: nat, actives: seq<Active>, m: nat, level: nat)
    requires |between| == |before| && total > 0
    requires forall i | 0 <= i < |before| && i !in blockings :: between[i] == before[i]
    requires SharedOut(between, after, total, actives, m, level)
    ensures BlockBalanced(before, after, blockings, total, actives, m, level)
  {
  }

  function PlusSurplus(ws: seq<nat>, actives: seq<Active>, k: nat, avg: nat): (r: seq<nat>)
    requires k <= |actives|
    ensures |r| == |ws|
    decreases |actives| - k
  {
    if k == |actives| then ws
    else PlusSurplus(Plus(ws, actives[k].index, Surplus(actives[k], avg)), actives, k + 1, avg)
  }

  function PlusDeficit(ws: seq<nat>, actives: seq<Active>, k: nat, avg: nat): (r: seq<nat>)
    requires k <= |actives|
    ensures |r| == |ws|
  {
    if k == 0 then ws
    else Plus(PlusDeficit(ws, actives, k - 1, avg), actives[k - 1].index, Deficit(actives[k - 1], avg))
  }

  lemma {:induction false} PlusNoSurplus(ws: seq<nat>, actives: seq<Active>, k: nat, avg: nat)
    requires k <= |actives| && forall j | 0 <= j < k :: actives[j].load <= avg
    ensures PlusSurplus(ws, actives, 0, avg) == PlusSurplus(ws, actives, k, avg)
  {
    if k > 0 {
      PlusNoSurplus(ws, actives, k - 1, avg);
      assert Plus(ws, actives[k - 1].index, 0) == ws;
    }
  }

  lemma {:induction false} PlusNoDeficit(ws: seq<nat>, actives: seq<Active>, k: nat, n: nat, avg: nat)
    requires k <= n <= |actives| && forall j | k <= j < n :: actives[j].load >= avg
    ensures PlusDeficit(ws, actives, n, avg) == PlusDeficit(ws, actives, k, avg)
    decreases n
  {
    if k < n {
      PlusNoDeficit(ws, actives, k, n - 1, avg);
    }
  }

  /** The first `j` processors have been raised, if the `total` tasks suffice for all. */
  ghost predicate Raising(total: nat, left: nat, actives: seq<Active>, j: nat, avg: nat, before: seq<nat>, now: seq<nat>)
    requires j <= |actives|
  {
    total >= Deficits(actives, |actives|, avg) ==>
      left + Deficits(actives, j, avg) == total && now == PlusDeficit(before, actives, j, avg)
  }

  lemma RaisingStep(total: nat, left: nat, actives: seq<Active>, j: nat, avg: nat, before: seq<nat>, now: seq<nat>)
    requires j < |actives| && actives[j].load < avg && Raising(total, left, actives, j, avg, before, now)
    ensures var n := Min(avg - actives[j].load, left);
      Raising(total, left - n, actives, j + 1, avg, before, Plus(now, actives[j].index, n))
  {
    DeficitsGrow(actives, j + 1, |actives|, avg);
  }

  lemma RaisingEnds(total: nat, left: nat, actives: seq<Active>, j: nat, avg: nat, before: seq<nat>, now: seq<nat>)
    requires j <= |actives| && Raising(total, left, actives, j, avg, before, now)
    requires forall i | j <= i < |actives| :: actives[i].load >= avg
    ensures Raising(total, left, actives, |actives|, avg, before, now)
  {
    NoMoreDeficits(actives, j, |actives|, avg);
    PlusNoDeficit(before, actives, j, |actives|, avg);
  }

  lemma {:induction false} PlusSurplusAt(ws: seq<nat>, actives: seq<Active>, k: nat, avg: nat, i: nat)
    requires k <= |actives| && i < |ws|
    ensures PlusSurplus(ws, actives, k, avg)[i] == ws[i] + Taken(actives, k, avg, i)
    decreases |actives| - k
  {
    if k < |actives| {
      PlusSurplusAt(Plus(ws, actives[k].index, Surplus(actives[k], avg)), actives, k + 1, avg, i);
    }
  }

  lemma {:induction false} PlusDeficitAt(ws: seq<nat>, actives: seq<Active>, k: nat, avg: nat, i: nat)
    requires k <= |actives| && i < |ws|
    ensures PlusDeficit(ws, actives, k, avg)[i] == ws[i] + Raised(actives, k, avg, i)
  {
    if k > 0 {
      PlusDeficitAt(ws, actives, k - 1, avg, i);
    }
  }

  lemma PlusNothing(ws: seq<nat>, i: nat)
    ensures Plus(ws, i, 0) == ws
  {
  }

  /** What levelling leaves at the `j`-th active processor, beyond what was not recorded. */
  function Levelled(actives: seq<Active>, j: nat): nat
    requires actives != []
  {
    SumLoads(actives) / |actives| + if j == 0 then SumLoads(actives) % |actives| else 0
  }

  lemma {:induction false} SumOfLevels(avg: nat, rest: nat, s: seq<nat>, k: nat)
    requires k <= |s| && forall j | 0 <= j < |s| :: s[j] == avg + if j == 0 then rest else 0
    ensures SumOf(s[..k]) == k * avg + if k > 0 then rest else 0
    decreases k
  {
    if k > 0 {
      SumOfLevels(avg, rest, s, k - 1);
      assert s[..k][..k - 1] == s[..k - 1];
      assert k * avg == (k - 1) * avg + avg;
    }
  }

  /** Levelling keeps the sum, and no two processors differ by as much as there are processors. */
  lemma LevelsAreFair(actives: seq<Active>)
    requires actives != []
    ensures SumOf(seq(|actives|, j requires 0 <= j < |actives| => Levelled(actives, j))) == SumLoads(actives)
    ensures forall i, j | 0 <= i < |actives| && 0 <= j < |actives| :: Levelled(actives, i) < Levelled(actives, j) + |actives|
  {
    var n := |actives|;
    var s := seq(n, j requires 0 <= j < n => Levelled(actives, j));
    DivisionBounds(SumLoads(actives), n);
    SumOfLevels(SumLoads(actives) / n, SumLoads(actives) % n, s, n);
    assert s[..n] == s;
  }

  /** Every active processor holds the average instead of its recorded load, the least loaded
      one also the remainder; the other processors hold what they held. */
  ghost predicate LevelledOut(before: seq<nat>, after: seq<nat>, actives: seq<Active>) {
    && |after| == |before| && actives != []
    && (forall j | 0 <= j < |actives| :: actives[j].index < |after| &&
          after[actives[j].index] + actives[j].load == before[actives[j].index] + Levelled(actives, j))
    && (forall i | 0 <= i < |after| && (forall a | a in actives :: a.index != i) :: after[i] == before[i])
  }

  lemma LevelsReached(before: seq<nat>, between: seq<nat>, actives: seq<Active>, avg: nat)
    requires actives != [] && avg == SumLoads(actives) / |actives| && DistinctIndexes(actives)
    requires forall a | a in actives :: a.index < |between|
    ensures before == PlusSurplus(between, actives, 0, avg) ==>
      LevelledOut(before, Plus(PlusDeficit(between, actives, |actives|, avg), actives[0].index, SumLoads(actives) % |actives|), actives)
  {
    if before == PlusSurplus(between, actives, 0, avg) {
      var after := Plus(PlusDeficit(between, actives, |actives|, avg), actives[0].index, SumLoads(actives) % |actives|);
      assert actives[0] in actives;
      forall j | 0 <= j < |actives|
        ensures actives[j].index < |after| && after[actives[j].index] + actives[j].load == before[actives[j].index] + Levelled(actives, j)
      {
        assert actives[j] in actives;
        PlusSurplusAt(between, actives, 0, avg, actives[j].index);
        PlusDeficitAt(between, actives, |actives|, avg, actives[j].index);
        LevelOfActive(actives, avg, j);
      }
      forall i | 0 <= i < |after| && (forall a | a in actives :: a.index != i) ensures after[i] == before[i] {
        PlusSurplusAt(between, actives, 0, avg, i);
        PlusDeficitAt(between, actives, |actives|, avg, i);
        OthersUntouched(actives, 0, avg, i);
        OthersNotRaised(actives, |actives|, avg, i);
      }
    }
  }

  lemma LevelsWithout(before: seq<nat>, between: seq<nat>, actives: seq<Active>, avg: nat)
    requires actives != [] && avg == SumLoads(actives) / |actives| && DistinctIndexes(actives)
    requires forall a | a in actives :: a.index < |between|
    ensures before == PlusSurplus(between, actives, 0, avg) && Surpluses(actives, 0, avg) == 0 ==>
      LevelledOut(before, between, actives)
  {
    if before == PlusSurplus(between, actives, 0, avg) && Surpluses(actives, 0, avg) == 0 {
      NothingToRaise(actives, avg);
      LevelsReached(before, between, actives, avg);
      assert PlusDeficit(between, actives, |actives|, avg) == between by {
        forall i | 0 <= i < |between| ensures PlusDeficit(between, actives, |actives|, avg)[i] == between[i] {
          PlusDeficitAt(between, actives, |actives|, avg, i);
        }
      }
      PlusNothing(between, actives[0].index);
    }
  }
}
