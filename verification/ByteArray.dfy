/** A byte stream written into a linked list of blocks of equal size. */
module ByteArrays {
  import opened Common
  import opened Varints
  import opened Zigzags

  class Block {
    var next: Block?
    const data: array<Byte>

    constructor (size: nat)
      ensures next == null && data.Length == size && fresh(data)
    {
      next, data := null, new Byte[size];
    }
  }

  lemma {:induction false} FlattenedLength(parts: seq<seq<Byte>>, size: nat)
    requires forall p | p in parts :: |p| == size
    ensures |Flattened(parts)| == |parts| * size
    decreases |parts|
  {
    if parts != [] {
      FlattenedLength(parts[1..], size);
      assert |parts| * size == (|parts| - 1) * size + size;
    }
  }

  /** What `n` blocks hold. */
  function Room(n: nat, blockSize: nat): nat {
    if n == 0 then 0 else Room(n - 1, blockSize) + blockSize
  }

  lemma {:induction false} RoomIsTimes(n: nat, blockSize: nat)
    ensures Room(n, blockSize) == n * blockSize
    decreases n
  {
    if n > 0 {
      RoomIsTimes(n - 1, blockSize);
      assert n * blockSize == (n - 1) * blockSize + blockSize;
    }
  }

  lemma {:induction false} RoomGrows(a: nat, b: nat, blockSize: nat)
    requires a <= b
    ensures Room(a, blockSize) <= Room(b, blockSize)
    decreases b
  {
    if a < b {
      RoomGrows(a, b - 1, blockSize);
    }
  }

  /** `extra` blocks are exactly enough for `size` bytes when `left` bytes are free already. */
  ghost predicate Enough(size: nat, left: nat, extra: nat, blockSize: nat) {
    size <= left + Room(extra, blockSize) && (extra > 0 ==> size > left + Room(extra - 1, blockSize))
  }

  /** Only one number of blocks is exactly enough. */
  lemma EnoughIsUnique(size: nat, left: nat, blockSize: nat, a: nat, b: nat)
    requires Enough(size, left, a, blockSize) && Enough(size, left, b, blockSize)
    ensures a == b
  {
    if a < b {
      RoomGrows(a, b - 1, blockSize);
    } else if b < a {
      RoomGrows(b, a - 1, blockSize);
    }
  }

  lemma CeilingIsEnough(size: nat, left: nat, blockSize: nat)
    requires size > left && blockSize > 0
    ensures var n := (size - left) / blockSize;
      Enough(size, left, if (size - left) % blockSize != 0 then n + 1 else n, blockSize)
  {
    var n, r := (size - left) / blockSize, (size - left) % blockSize;
    assert size - left == n * blockSize + r;
    RoomIsTimes(n, blockSize);
  }

  lemma EnoughNext(size: nat, left: nat, extra: nat, blockSize: nat)
    requires Enough(size, left, extra, blockSize) && size > left
    ensures extra > 0 && Enough(size - left, blockSize, extra - 1, blockSize)
  {
  }

  lemma EnoughHere(size: nat, left: nat, extra: nat, blockSize: nat)
    requires Enough(size, left, extra, blockSize) && size <= left
    ensures extra == 0
  {
  }

  ghost predicate Linked(blocks: seq<Block>)
    reads set b | b in blocks
  {
    forall i | 0 <= i < |blocks| :: blocks[i].next == if i + 1 < |blocks| then blocks[i + 1] else null
  }

  ghost predicate Apart(blocks: seq<Block>) {
    forall i, j | 0 <= i < j < |blocks| :: blocks[i] != blocks[j] && blocks[i].data != blocks[j].data
  }

  ghost predicate Sized(blocks: seq<Block>, n: nat) {
    forall i | 0 <= i < |blocks| :: blocks[i].data.Length == n
  }

  /** The first blocks are full, with these contents. */
  ghost predicate Stored(blocks: seq<Block>, full: seq<seq<Byte>>)
    reads set b | b in blocks :: b.data
  {
    |full| <= |blocks| && forall i | 0 <= i < |full| :: blocks[i].data[..] == full[i]
  }

  class ByteArray {
    const blockSize: nat
    var firstNode: Block
    var lastNode: Block
    var nodeCount: nat
    var lastNodeBytesUsed: nat
    /** The blocks in the order of the links, and the contents of those before the last one written to. */
    ghost var blocks: seq<Block>
    ghost var full: seq<seq<Byte>>

    /** Blocks may have been allocated behind the last one written to. */
    ghost predicate Chain()
      reads this, set b | b in blocks
    {
      && Sized(blocks, blockSize) && Apart(blocks) && Linked(blocks)
      && |full| < |blocks| == nodeCount && firstNode == blocks[0] && lastNode == blocks[|full|]
      && lastNodeBytesUsed <= blockSize
    }

    ghost predicate Valid()
      reads this, set b | b in blocks, set b | b in blocks :: b.data
    {
      Chain() && Stored(blocks, full) && |full| + 1 == |blocks|
    }

    ghost function Contents(): seq<Byte>
      requires Valid()
      reads this, set b | b in blocks, set b | b in blocks :: b.data
    {
      Flattened(full) + lastNode.data[..lastNodeBytesUsed]
    }

    /** One empty block. */
    constructor (blockSize: nat)
      ensures Valid() && fresh(blocks) && fresh(lastNode.data) && this.blockSize == blockSize
      ensures Contents() == []
    {
      var b := new Block(blockSize);
      this.blockSize := blockSize;
      firstNode, lastNode, nodeCount, lastNodeBytesUsed := b, b, 1, 0;
      blocks, full := [b], [];
    }

    method GetTotalBytes() returns (n: nat)
      requires Valid()
      ensures n == |Contents()|
    {
      StoredLength(blocks, full, blockSize);
      FlattenedLength(full, blockSize);
      n := (nodeCount - 1) * blockSize + lastNodeBytesUsed;
    }

    method AllocateNode() returns (b: Block)
      modifies this`nodeCount
      ensures fresh(b) && fresh(b.data) && b.next == null && b.data.Length == blockSize
      ensures nodeCount == old(nodeCount) + 1
    {
      b := new Block(blockSize);
      nodeCount := nodeCount + 1;
    }

    /** Allocates a block and links it behind the last one. */
    method AllocateBehind(curr: Block) returns (tmp: Block)
      requires Chain() && Stored(blocks, full) && curr == blocks[|blocks| - 1]
      modifies this`nodeCount, this`blocks, curr`next
      ensures Chain() && Stored(blocks, full) && blocks == old(blocks) + [tmp]
      ensures fresh(tmp) && fresh(tmp.data)
    {
      tmp := AllocateNode();
      curr.next := tmp;
      blocks := blocks + [tmp];
    }

    /** Links `n` new blocks behind the last one. */
    method AllocateBlocks(n: nat) returns (ghost added: seq<Block>)
      requires Valid()
      modifies this`nodeCount, this`blocks, lastNode`next
      ensures Chain() && Stored(blocks, full) && blocks == old(blocks) + added && |added| == n
      ensures forall b | b in added :: fresh(b) && fresh(b.data)
    {
      var nodesNeeded, curr := n, lastNode;
      added := [];
      while nodesNeeded > 0
        invariant Chain() && Stored(blocks, full)
        invariant blocks == old(blocks) + added && |added| + nodesNeeded == n
        invariant forall b | b in added :: fresh(b) && fresh(b.data)
        invariant curr == blocks[|blocks| - 1] && (added == [] ==> curr == lastNode) && (added != [] ==> curr in added)
      {
        curr := AllocateBehind(curr);
        added := added + [curr];
        nodesNeeded := nodesNeeded - 1;
      }
    }

    /** Links exactly as many new blocks behind the last one as `size` more bytes need. */
    method EnsureWritableSize(size: nat) returns (ghost added: seq<Block>)
      requires Valid() && (size == 0 || blockSize > 0)
      modifies this`nodeCount, this`blocks, lastNode`next
      ensures Chain() && Stored(blocks, full) && blocks == old(blocks) + added
      ensures forall b | b in added :: fresh(b) && fresh(b.data)
      ensures Enough(size, blockSize - lastNodeBytesUsed, |added|, blockSize)
    {
      var left := blockSize - lastNodeBytesUsed;
      if size <= left {
        added := [];
        return;
      }
      var sizeNeeded := size - left;
      var nodesNeeded := sizeNeeded / blockSize;
      if sizeNeeded % blockSize != 0 {
        nodesNeeded := nodesNeeded + 1;
      }
      CeilingIsEnough(size, left, blockSize);
      added := AllocateBlocks(nodesNeeded);
    }

    /** Everything up to `nodePos` in the block being written. */
    ghost function Written(nodePos: nat): seq<Byte>
      requires Chain() && nodePos <= blockSize
      reads this, set b | b in blocks, set b | b in blocks :: b.data
    {
      Flattened(full) + lastNode.data[..nodePos]
    }

    /** Copies into the block being written, behind its first `nodePos` bytes. */
    method FillLast(nodePos: nat, src: seq<Byte>)
      requires Chain() && Stored(blocks, full) && nodePos + |src| <= blockSize
      modifies lastNode.data
      ensures Stored(blocks, full)
      ensures lastNode.data[..nodePos + |src|] == old(lastNode.data[..nodePos]) + src
      ensures Written(nodePos + |src|) == old(Written(nodePos)) + src
    {
      ghost var stored := lastNode.data[..nodePos];
      var data := lastNode.data;
      forall k | 0 <= k < |src| {
        data[nodePos + k] := src[k];
      }
      assert data[..nodePos] == stored;
      assert data[nodePos..nodePos + |src|] == src;
      assert data[..nodePos + |src|] == stored + src;
      Regrouped(Flattened(full), stored, src);
    }

    /** Goes on from a full block to the next one. */
    method Advance()
      requires Chain() && Stored(blocks, full) && |full| + 1 < |blocks|
      modifies this`full, this`lastNode
      ensures Chain() && Stored(blocks, full) && |full| == |old(full)| + 1
      ensures Written(0) == old(Written(blockSize))
    {
      assert lastNode.next == blocks[|full| + 1];
      FlattenedSnoc(full, lastNode.data[..]);
      full, lastNode := full + [lastNode.data[..]], lastNode.next;
    }

    /** Fills up the block being written and goes on to the next one. */
    method FillUp(nodePos: nat, src: seq<Byte>)
      requires Chain() && Stored(blocks, full) && nodePos + |src| == blockSize && |full| + 1 < |blocks|
      modifies this`full, this`lastNode, lastNode.data
      ensures Chain() && Stored(blocks, full) && |full| == |old(full)| + 1
      ensures Written(0) == old(Written(nodePos)) + src
    {
      FillLast(nodePos, src);
      Advance();
    }

    /** Of `buf`, the first `pos` bytes have been copied behind what was there at the start, and
        `size` bytes are left. The block being written has `left` bytes free behind `nodePos`,
        and exactly enough blocks follow. */
    ghost predicate Copying(buf: seq<Byte>, pos: nat, size: nat, nodePos: nat, left: nat, extra: nat, start: seq<Byte>)
      reads this, set b | b in blocks, set b | b in blocks :: b.data
    {
      && Chain() && Stored(blocks, full)
      && size > 0 && pos + size == |buf| && nodePos + left == blockSize
      && |blocks| == |full| + 1 + extra && Enough(size, left, extra, blockSize)
      && Written(nodePos) == start + buf[..pos]
    }

    /** What is left fits the block. */
    method CopyRest(buf: seq<Byte>, pos: nat, size: nat, nodePos: nat, left: nat, ghost extra: nat, ghost start: seq<Byte>)
      requires Copying(buf, pos, size, nodePos, left, extra, start) && left >= size
      modifies lastNode.data
      ensures Chain() && Stored(blocks, full) && |full| + 1 == |blocks| && nodePos + size <= blockSize
      ensures Written(nodePos + size) == start + buf
    {
      EnoughHere(size, left, extra, blockSize);
      TakeMore(buf, pos, size, start);
      FillLast(nodePos, buf[pos..pos + size]);
    }

    /** The block is filled up, and the next one is written to. */
    method CopyBlock(buf: seq<Byte>, pos: nat, size: nat, nodePos: nat, left: nat, ghost extra: nat, ghost start: seq<Byte>)
      requires Copying(buf, pos, size, nodePos, left, extra, start) && left < size
      modifies this`full, this`lastNode, lastNode.data
      ensures extra > 0 && Copying(buf, pos + left, size - left, 0, blockSize, extra - 1, start)
      ensures |full| == |old(full)| + 1
    {
      EnoughNext(size, left, extra, blockSize);
      TakeMore(buf, pos, left, start);
      FillUp(nodePos, buf[pos..pos + left]);
    }

    /** Copies `buf` into the blocks, when exactly enough of them are there. */
    method CopyIn(buf: seq<Byte>, ghost extra: nat, ghost room: set<array<Byte>>) returns (nodePos: nat)
      requires Chain() && Copying(buf, 0, |buf|, lastNodeBytesUsed, blockSize - lastNodeBytesUsed, extra, Written(lastNodeBytesUsed))
      requires forall i | |full| <= i < |blocks| :: blocks[i].data in room
      modifies this`full, this`lastNode, room
      ensures Chain() && Stored(blocks, full) && |full| + 1 == |blocks| && nodePos <= blockSize
      ensures Written(nodePos) == old(Written(lastNodeBytesUsed)) + buf
    {
      nodePos := CopyBlocks(buf, lastNodeBytesUsed, blockSize - lastNodeBytesUsed, extra, Written(lastNodeBytesUsed), room);
    }

    /** The loop, from the first block on. */
    method CopyBlocks(buf: seq<Byte>, startPos: nat, startLeft: nat, ghost blocksLeft: nat, ghost start: seq<Byte>,
                      ghost room: set<array<Byte>>) returns (nodePos: nat)
      requires Copying(buf, 0, |buf|, startPos, startLeft, blocksLeft, start)
      requires forall i | |full| <= i < |blocks| :: blocks[i].data in room
      modifies this`full, this`lastNode, room
      ensures Chain() && Stored(blocks, full) && |full| + 1 == |blocks| && nodePos <= blockSize
      ensures Written(nodePos) == start + buf
    {
      nodePos := startPos;
      var nodeBytesLeft: nat := startLeft;
      var pos: nat, size: nat := 0, |buf|;
      ghost var extra: nat := blocksLeft;
      while size > 0
        invariant Copying(buf, pos, size, nodePos, nodeBytesLeft, extra, start) && |old(full)| <= |full|
        decreases extra
      {
        if nodeBytesLeft >= size {
          CopyRest(buf, pos, size, nodePos, nodeBytesLeft, extra, start);
          nodePos := nodePos + size;
          break;
        } else {
          CopyBlock(buf, pos, size, nodePos, nodeBytesLeft, extra, start);
          pos, size, extra := pos + nodeBytesLeft, size - nodeBytesLeft, extra - 1;
          nodePos, nodeBytesLeft := 0, blockSize;
        }
      }
    }

    /** Appends `buf`, block by block, with exactly as many new blocks as it takes. */
    method Write(buf: seq<Byte>) returns (ghost added: seq<Block>)
      requires Valid() && (buf == [] || blockSize > 0)
      modifies this`nodeCount, this`blocks, this`full, this`lastNode, this`lastNodeBytesUsed, lastNode`next, lastNode.data
      ensures Valid() && Contents() == old(Contents()) + buf
      ensures blocks == old(blocks) + added && forall b | b in added :: fresh(b) && fresh(b.data)
      ensures Enough(|buf|, blockSize - old(lastNodeBytesUsed), |added|, blockSize)
    {
      added := [];
      if |buf| == 0 {
        return;
      }
      added := EnsureWritableSize(|buf|);
      WriteInto(buf, added);
    }

    method WriteInto(buf: seq<Byte>, ghost added: seq<Block>)
      requires Chain() && Stored(blocks, full) && |buf| > 0 && |blocks| == |full| + 1 + |added|
      requires forall i | 0 <= i < |added| :: blocks[|full| + 1 + i] == added[i]
      requires Enough(|buf|, blockSize - lastNodeBytesUsed, |added|, blockSize)
      modifies this`full, this`lastNode, this`lastNodeBytesUsed, lastNode.data, set b | b in added :: b.data
      ensures Valid() && Contents() == old(Written(lastNodeBytesUsed)) + buf
    {
      ghost var room := {lastNode.data} + set b | b in added :: b.data;
      forall i | |full| <= i < |blocks| ensures blocks[i].data in room {
        if i > |full| {
          assert blocks[i] == added[i - |full| - 1];
        }
      }
      var nodePos := CopyIn(buf, |added|, room);
      lastNodeBytesUsed := nodePos;
    }

    /** Writes an unsigned 32-bit number; five bytes of scratch space are enough. */
    method WriteUint32(value: nat) returns (ghost added: seq<Block>)
      requires Valid() && blockSize > 0 && value < MAX32
      modifies this`nodeCount, this`blocks, this`full, this`lastNode, this`lastNodeBytesUsed, lastNode`next, lastNode.data
      ensures Valid() && Contents() == old(Contents()) + Encoded(value)
      ensures blocks == old(blocks) + added && forall b | b in added :: fresh(b) && fresh(b.data)
    {
      AtMost(value);
      var tmp := new Byte[5];
      var i := PutVarint(tmp, value);
      added := Write(tmp[..i]);
    }

    method WriteUint64(value: nat) returns (ghost added: seq<Block>)
      requires Valid() && blockSize > 0 && value < MAX64
      modifies this`nodeCount, this`blocks, this`full, this`lastNode, this`lastNodeBytesUsed, lastNode`next, lastNode.data
      ensures Valid() && Contents() == old(Contents()) + Encoded(value)
      ensures blocks == old(blocks) + added && forall b | b in added :: fresh(b) && fresh(b.data)
    {
      AtMost(value);
      var tmp := new Byte[10];
      var i := PutVarint(tmp, value);
      added := Write(tmp[..i]);
    }

    method WriteInt32(value: Int32) returns (ghost added: seq<Block>)
      requires Valid() && blockSize > 0
      modifies this`nodeCount, this`blocks, this`full, this`lastNode, this`lastNodeBytesUsed, lastNode`next, lastNode.data
      ensures Valid() && Contents() == old(Contents()) + Encoded(EncodeZigzag32(value))
      ensures blocks == old(blocks) + added && forall b | b in added :: fresh(b) && fresh(b.data)
    {
      added := WriteUint32(EncodeZigzag32(value));
    }
  }

  /** Puts the bytes of a number into the scratch space. */
  method PutVarint(tmp: array<Byte>, value: nat) returns (i: nat)
    requires |Encoded(value)| <= tmp.Length
    modifies tmp
    ensures i == |Encoded(value)| && tmp[..i] == Encoded(value)
  {
    var v := value;
    i := 0;
    while v >= 0x80
      invariant i + |Encoded(v)| == |Encoded(value)| && tmp[..i] + Encoded(v) == Encoded(value)
      decreases v
    {
      ghost var put := tmp[..i];
      Regrouped(put, [v % 0x80 + 0x80], Encoded(v / 0x80));
      tmp[i] := v % 0x80 + 0x80;
      assert tmp[..i + 1] == put + [v % 0x80 + 0x80];
      i := i + 1;
      v := v / 0x80;
    }
    ghost var put := tmp[..i];
    tmp[i] := v;
    assert tmp[..i + 1] == put + [v];
    i := i + 1;
  }

  lemma TakeMore(buf: seq<Byte>, pos: nat, n: nat, front: seq<Byte>)
    requires pos + n <= |buf|
    ensures front + buf[..pos] + buf[pos..pos + n] == front + buf[..pos + n]
    ensures pos + n == |buf| ==> buf[..pos + n] == buf
  {
    assert buf[..pos] + buf[pos..pos + n] == buf[..pos + n];
  }

  lemma StoredLength(blocks: seq<Block>, full: seq<seq<Byte>>, n: nat)
    requires Stored(blocks, full) && Sized(blocks, n)
    ensures forall p | p in full :: |p| == n
  {
    forall p | p in full ensures |p| == n {
      var i :| 0 <= i < |full| && full[i] == p;
    }
  }
}
