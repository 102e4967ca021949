/** A byte buffer on the heap, of fixed size or growing. */
module Buffers {
  import opened Common

  /** A buffer of fixed size takes a message whole or not at all. */
  function FixedAppend(contents: seq<Byte>, capacity: nat, data: seq<Byte>): seq<Byte> {
    if |contents| + |data| <= capacity then contents + data else contents
  }

  class Buffer {
    var buff: array<Byte>
    var curr: nat
    const fixed: bool

    ghost predicate Valid()
      reads this
    {
      curr <= buff.Length
    }

    function Contents(): (c: seq<Byte>)
      requires Valid()
      reads this, buff
      ensures |c| == curr
    {
      buff[..curr]
    }

    constructor (n: nat, fixed: bool)
      ensures Valid() && fresh(buff) && buff.Length == n && Contents() == [] && this.fixed == fixed
    {
      buff := new Byte[n];
      curr, this.fixed := 0, fixed;
    }

    function Avail(): nat
      requires Valid()
      reads this
    {
      buff.Length - curr
    }

    method Clear()
      requires Valid()
      modifies `curr
      ensures Valid() && Contents() == []
    {
      curr := 0;
    }

    method EnsureCapacity(n: nat)
      requires Valid() && curr <= n
      modifies `buff
      ensures Valid() && fresh(buff) && buff.Length == n && Contents() == old(Contents())
    {
      var newBuff := new Byte[n];
      forall i | 0 <= i < curr {
        newBuff[i] := buff[i];
      }
      buff := newBuff;
    }

    /** Stores `data` behind the contents. A fixed buffer refuses what does not fit, a growing
        one makes room; the contents before are kept in every case. */
    method Append(data: seq<Byte>) returns (len: nat)
      requires Valid()
      modifies this, buff
      ensures Valid() && (buff == old(buff) || fresh(buff))
      ensures fixed ==> buff == old(buff) && Contents() == FixedAppend(old(Contents()), buff.Length, data)
      ensures fixed && old(Avail()) < |data| ==> Contents() == old(Contents())
      ensures !fixed || |data| <= old(Avail()) ==> Contents() == old(Contents()) + data
      ensures len == |Contents()| - |old(Contents())|
    {
      if Avail() < |data| {
        if fixed {
          return 0;
        }
        var twice, more := curr * 2, |data| + |data| / 2 + curr;
        EnsureCapacity(if twice > more then twice else more);
      }
      forall i | 0 <= i < |data| {
        buff[curr + i] := data[i];
      }
      curr := curr + |data|;
      len := |data|;
    }

    /** Sets the size to `n`; what was stored in the first `n` bytes is kept. */
    method Resize(n: nat)
      requires Valid()
      modifies this
      ensures Valid() && |Contents()| == n
      ensures forall i | 0 <= i < n && i < |old(Contents())| :: Contents()[i] == old(Contents())[i]
      ensures buff.Length == if n < old(buff.Length) then old(buff.Length) else n
    {
      if n < buff.Length {
        curr := n;
      } else {
        EnsureCapacity(n);
        curr := buff.Length;
      }
    }
  }
}
