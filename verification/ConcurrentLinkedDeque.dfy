/** The task queue: a linked list whose bulk operations splice whole ranges. */
module ConcurrentLinkedDeques {
  import opened Common

  class ConcurrentLinkedDeque<T> {
    var queue: seq<T>

    constructor ()
      ensures queue == []
    {
      queue := [];
    }

    method PushBack(val: T)
      modifies this
      ensures queue == old(queue) + [val]
    {
      queue := queue + [val];
    }

    /** Splices all of `other` to the back; `other` is left empty. */
    method PushBackAll(other: ConcurrentLinkedDeque<T>)
      requires other != this
      modifies this, other
      ensures queue == old(queue) + old(other.queue) && other.queue == []
    {
      queue := queue + other.queue;
      other.queue := [];
    }

    method PushFrontAll(other: ConcurrentLinkedDeque<T>)
      requires other != this
      modifies this, other
      ensures queue == old(other.queue) + old(queue) && other.queue == []
    {
      queue := other.queue + queue;
      other.queue := [];
    }

    method PopFront() returns (val: Option<T>)
      modifies this
      ensures val.None? ==> old(queue) == [] && queue == []
      ensures val.Some? ==> old(queue) == [val.value] + queue
    {
      if queue == [] {
        return None;
      }
      val := Some(queue[0]);
      queue := queue[1..];
    }

    method PopBack() returns (val: Option<T>)
      modifies this
      ensures val.None? ==> old(queue) == [] && queue == []
      ensures val.Some? ==> old(queue) == queue + [val.value]
    {
      if queue == [] {
        return None;
      }
      val := Some(queue[|queue| - 1]);
      queue := queue[..|queue| - 1];
    }

    method PopAll() returns (result: ConcurrentLinkedDeque<T>)
      modifies this
      ensures fresh(result) && result.queue == old(queue) && queue == []
    {
      result := new ConcurrentLinkedDeque();
      result.PushFrontAll(this);
    }

    /** Moves the range [lo, hi) of this list to the front of `target`. */
    method SpliceTo(target: ConcurrentLinkedDeque<T>, lo: nat, hi: nat)
      requires target != this && lo <= hi <= |queue|
      modifies this, target
      ensures target.queue == old(queue)[lo..hi] + old(target.queue)
      ensures queue == old(queue)[..lo] + old(queue)[hi..]
    {
      target.queue := queue[lo..hi] + target.queue;
      queue := queue[..lo] + queue[hi..];
    }

    /** Takes the first `n` elements, walking to the cut from the nearer end. The walk from
        the front splices at once, and the common splice after it then moves an empty range. */
    method InnerPopFrontBulk(n: nat, target: ConcurrentLinkedDeque<T>)
      requires target != this && target.queue == []
      modifies this, target
      ensures target.queue == FirstOf(old(queue), n)
      ensures queue == AllAfter(old(queue), n)
    {
      var queSize := |queue|;
      if n >= queSize {
        target.queue := queue;
        queue := [];
      } else {
        var halfSize := queSize / 2;
        var iter;
        if halfSize > n {
          iter := n;
          SpliceTo(target, 0, iter);
          // the iterator stays on its element, which is the first one now
          iter := 0;
        } else {
          iter := queSize;
          iter := iter - (queSize - n);
        }
        SpliceTo(target, 0, iter);
      }
    }

    /** Takes the last `n` elements, walking to the cut from the nearer end. */
    method InnerPopBackBulk(n: nat, target: ConcurrentLinkedDeque<T>)
      requires target != this && target.queue == []
      modifies this, target
      ensures target.queue == LastOf(old(queue), n)
      ensures queue == AllBut(old(queue), n)
    {
      var queSize := |queue|;
      if n >= queSize {
        target.queue := queue;
        queue := [];
      } else {
        var halfSize := queSize / 2;
        var iter;
        if halfSize > n {
          iter := queSize;
          iter := iter - n;
        } else {
          iter := 0;
          iter := iter + (queSize - n);
        }
        SpliceTo(target, iter, queSize);
      }
    }

    method PopFrontBulk(n: nat) returns (result: ConcurrentLinkedDeque<T>)
      modifies this
      ensures fresh(result) && result.queue == FirstOf(old(queue), n)
      ensures queue == AllAfter(old(queue), n)
    {
      result := new ConcurrentLinkedDeque();
      InnerPopFrontBulk(n, result);
    }

    method PopBackBulk(n: nat) returns (result: ConcurrentLinkedDeque<T>)
      modifies this
      ensures fresh(result) && result.queue == LastOf(old(queue), n)
      ensures queue == AllBut(old(queue), n)
    {
      result := new ConcurrentLinkedDeque();
      InnerPopBackBulk(n, result);
    }
  }

  /** Successive bulk pops from the front are one pop of the sum, cut in two. */
  lemma BulkPopsCompose<T>(s: seq<T>, a: nat, b: nat)
    ensures FirstOf(s, a + b) == FirstOf(s, a) + FirstOf(AllAfter(s, a), b)
    ensures AllAfter(s, a + b) == AllAfter(AllAfter(s, a), b)
  {
    if a < |s| {
      assert s[a..][Min(b, |s| - a)..] == s[Min(a + b, |s|)..];
    }
  }
}
