/** The file log appender object. Every method is one region that runs without interruption, and
    each is shown to do exactly a step of the state machine in LogMachine; `ok` is false when the
    process ends in it. */
module LogAppenders {
  import opened Common
  import opened Buffers
  import opened LogMachine

  class FileLogAppender {
    const capacity: nat
    var currBuff: Pointer
    var nextBuff: Pointer
    var buffers: seq<Contents>
    var running: bool
    var file: Contents

    // the consumer's local variables, and how far it has come
    var newBuff1: Pointer
    var newBuff2: Pointer
    var buffsToWrite: seq<Contents>
    var consumer: Pc

    ghost var accepted: Contents
    ghost var drained: Contents

    ghost function View(): State
      reads this
    {
      State(capacity, currBuff, nextBuff, buffers, running, file, newBuff1, newBuff2, buffsToWrite, consumer, accepted, drained)
    }

    constructor (capacity: nat)
      ensures View() == Fresh(capacity)
    {
      this.capacity := capacity;
      currBuff, nextBuff, buffers, running := Some([]), Some([]), [], false;
      newBuff1, newBuff2, buffsToWrite, file := None, None, [], [];
      consumer, accepted, drained := NotStarted, [], [];
    }

    /** The locked region of log. */
    method Store(msg: Contents) returns (ok: bool)
      modifies `currBuff, `nextBuff, `buffers, `accepted
      ensures Step(old(View()), LogMachine.Store(msg)) == if ok then Some(View()) else None
      ensures ok <==> old(currBuff).Some?
      ensures ok && |old(currBuff).value| + |msg| < capacity ==>
        currBuff == Some(old(currBuff).value + msg) && nextBuff == old(nextBuff) && buffers == old(buffers)
      ensures ok && |old(currBuff).value| + |msg| >= capacity ==>
        var other := if old(nextBuff).Some? then old(nextBuff).value else [];
        && currBuff == Some(if |other| + |msg| <= capacity then other + msg else other)
        && nextBuff == None && buffers == old(buffers) + [old(currBuff).value]
    {
      if currBuff.None? {
        return false;
      }
      if capacity - |currBuff.value| > |msg| {
        currBuff := Some(FixedAppend(currBuff.value, capacity, msg));
      } else {
        buffers := buffers + [currBuff.value];
        if nextBuff.Some? {
          currBuff, nextBuff := nextBuff, None;
        } else {
          currBuff := Some([]);
        }
        currBuff := Some(FixedAppend(currBuff.value, capacity, msg));
      }
      accepted := accepted + Fitting(capacity, msg);
      return true;
    }

    method Start()
      requires Possible(View(), LogMachine.Start)
      modifies `running, `consumer, `newBuff1, `newBuff2, `buffsToWrite
      ensures Step(old(View()), LogMachine.Start) == Some(View())
    {
      if running {
        return;
      }
      running := true;
      newBuff1, newBuff2, buffsToWrite := Some([]), Some([]), [];
      consumer := Entry;
    }

    /** log as a whole, when nothing comes in between: the consumer is started if there is none. */
    method Log(msg: Contents) returns (ok: bool)
      requires Possible(View(), LogMachine.Start)
      modifies `running, `consumer, `newBuff1, `newBuff2, `buffsToWrite, `currBuff, `nextBuff, `buffers, `accepted
      ensures Step(Started(old(View())), LogMachine.Store(msg)) == if ok then Some(View()) else None
    {
      if !running {
        Start();
      }
      ok := Store(msg);
    }

    /** stop asks the consumer to finish; joining it means waiting for `Exited`. */
    method Stop()
      modifies `running
      ensures Step(old(View()), LogMachine.Stop) == Some(View())
    {
      running := false;
    }

    // ---------------------------------------------------------------- the consumer

    /** The assertion on entry. */
    method Enter() returns (ok: bool)
      requires consumer == Entry
      modifies `consumer
      ensures Consumed(old(View())) == if ok then Some(View()) else None
    {
      if !running {
        return false;
      }
      consumer := Head;
      return true;
    }

    /** The loop condition and the three assertions behind it. */
    method CheckRunning() returns (ok: bool)
      requires consumer == Head
      modifies `consumer
      ensures Consumed(old(View())) == if ok then Some(View()) else None
    {
      if !running {
        consumer := ToDrain;
        return true;
      }
      if newBuff1.None? || newBuff1.value != [] || newBuff2.None? || newBuff2.value != [] || buffsToWrite != [] {
        return false;
      }
      consumer := ToSwap;
      return true;
    }

    /** The locked region of the loop, entered after a wait that may have timed out. */
    method Swap() returns (ok: bool)
      requires consumer == ToSwap
      modifies `currBuff, `nextBuff, `buffers, `newBuff1, `newBuff2, `buffsToWrite, `consumer
      ensures Consumed(old(View())) == if ok then Some(View()) else None
    {
      if currBuff.None? {
        // write dereferences what is moved into the batch here
        return false;
      }
      buffers := buffers + [currBuff.value];
      GiveSpares();
      buffsToWrite, buffers := buffers, buffsToWrite;
      consumer := Writing(0);
      return true;
    }

    /** The consumer's spare buffers replace the current one, and the spare one if that is gone. */
    method GiveSpares()
      modifies `currBuff, `nextBuff, `newBuff1, `newBuff2
      ensures currBuff == old(newBuff1) && newBuff1 == None
      ensures nextBuff == if old(nextBuff).None? then old(newBuff2) else old(nextBuff)
      ensures newBuff2 == if old(nextBuff).None? then None else old(newBuff2)
    {
      currBuff, newBuff1 := newBuff1, None;
      if nextBuff.None? {
        nextBuff, newBuff2 := newBuff2, None;
      }
    }

    /** The body of write's loop: one buffer goes to the file. */
    method WriteOne()
      requires (consumer.Writing? || consumer.LastWriting?) && consumer.k < |buffsToWrite|
      modifies `file, `consumer
      ensures Consumed(old(View())) == Some(View())
    {
      var k := consumer.k;
      file := file + buffsToWrite[k];
      consumer := if consumer.Writing? then Writing(k + 1) else LastWriting(k + 1);
    }

    /** The rest of the loop: the batch is dropped and the spare buffers are refilled from it. */
    method Refill() returns (ok: bool)
      requires consumer.Writing? && consumer.k >= |buffsToWrite|
      modifies `newBuff1, `newBuff2, `buffsToWrite, `consumer
      ensures Consumed(old(View())).None? <==> !ok
      ensures ok ==> Consumed(old(View())) == Some(View())
    {
      if |buffsToWrite| > 2 {
        buffsToWrite := buffsToWrite[..2];
      }
      if newBuff1.None? {
        if buffsToWrite == [] {
          return false;
        }
        newBuff1, buffsToWrite := Some([]), buffsToWrite[..|buffsToWrite| - 1];
      }
      if newBuff2.None? {
        if buffsToWrite == [] {
          return false;
        }
        newBuff2, buffsToWrite := Some([]), buffsToWrite[..|buffsToWrite| - 1];
      }
      buffsToWrite := [];
      consumer := Head;
      return true;
    }

    /** The last locked region, after the loop: everything that is left is taken. */
    method Drain()
      requires consumer == ToDrain
      modifies `currBuff, `nextBuff, `buffers, `buffsToWrite, `consumer, `drained
      ensures Consumed(old(View())) == Some(View())
    {
      CollectFilled();
      buffsToWrite, buffers := buffers, buffsToWrite;
      consumer, drained := LastWriting(0), accepted;
    }

    /** The current and the spare buffer go behind the full ones if there is anything in them. */
    method CollectFilled()
      modifies `currBuff, `nextBuff, `buffers
      ensures buffers == old(buffers) + IfFilled(old(currBuff)) + IfFilled(old(nextBuff))
      ensures currBuff == if IfFilled(old(currBuff)) != [] then None else old(currBuff)
      ensures nextBuff == if IfFilled(old(nextBuff)) != [] then None else old(nextBuff)
    {
      if currBuff.Some? && currBuff.value != [] {
        buffers, currBuff := buffers + [currBuff.value], None;
      }
      if nextBuff.Some? && nextBuff.value != [] {
        buffers, nextBuff := buffers + [nextBuff.value], None;
      }
    }

    method Exit()
      requires consumer.LastWriting? && consumer.k >= |buffsToWrite|
      modifies `consumer
      ensures Consumed(old(View())) == Some(View())
    {
      consumer := Exited;
    }

    /** Whatever the consumer thread does next. */
    method Consume() returns (ok: bool)
      requires Possible(View(), LogMachine.Consume)
      modifies this
      ensures Consumed(old(View())).None? <==> !ok
      ensures ok ==> Consumed(old(View())) == Some(View())
    {
      ok := true;
      match consumer {
        case Entry => ok := Enter();
        case Head => ok := CheckRunning();
        case ToSwap => ok := Swap();
        case Writing(k) => if k < |buffsToWrite| { WriteOne(); } else { ok := Refill(); }
        case ToDrain => Drain();
        case LastWriting(k) => if k < |buffsToWrite| { WriteOne(); } else { Exit(); }
      }
    }

    // ---------------------------------------------------------------- the end

    /** write on a whole batch. */
    method Write(batch: seq<Contents>)
      modifies `file
      ensures file == old(file) + Flattened(batch)
    {
      for k := 0 to |batch|
        invariant file == old(file) + Flattened(batch[..k])
      {
        ghost var written := Flattened(batch[..k]);
        FlattenedSnoc(batch[..k], batch[k]);
        Regrouped(old(file), written, batch[k]);
        assert batch[..k + 1] == batch[..k] + [batch[k]];
        file := file + batch[k];
      }
      assert batch[..|batch|] == batch;
    }

    /** The destructor, once stop has returned: whatever no consumer has taken is written. */
    method Destroy()
      requires Inv(View()) && (consumer == NotStarted || consumer == Exited)
      modifies `currBuff, `nextBuff, `buffers, `file
      ensures file == accepted
    {
      ghost var before := View();
      CollectFilled();
      Write(buffers);
      FilledIsWaiting(before);
    }
  }

  lemma FilledIsWaiting(s: State)
    requires Shaped(s)
    ensures Flattened(s.buffers + IfFilled(s.curr) + IfFilled(s.next)) == Flattened(Waiting(s))
  {
    assert s.buffers + IfFilled(s.curr) + IfFilled(s.next) == s.buffers + IfFilled(s.curr);
    if s.curr == Some([]) {
      FlattenedSnoc(s.buffers, []);
      assert s.buffers + IfFilled(s.curr) == s.buffers;
    } else {
      assert s.buffers + IfFilled(s.curr) == Waiting(s);
    }
  }
}
