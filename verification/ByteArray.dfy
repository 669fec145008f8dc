/**
 `ByteArray`: a chain of fixed-size blocks with a cached current node, refining one flat stretch of memory with a
 data size and a position. A fresh block holds arbitrary bytes, as `new char[n]` does.
 */
module ByteArray {

  import opened Base
  import opened Blocks

  // How a method ends: normally, with std::out_of_range or std::length_error, or by dereferencing the null at the end
  // of the chain.
  datatype Outcome = Done | OutOfRange | LengthError | NullDereference

  // A difference of two size_t values.
  function Unsigned(difference: int): (r: nat)
    requires difference + WORD > 0
    ensures difference >= 0 ==> r == difference
    ensures difference < 0 ==> r < WORD && (r - difference) % WORD == 0
  {
    if difference >= 0 then difference else difference + WORD
  }

  class Node {
    const data: array<byte>
    var next: Node?

    constructor (blockSize: nat)
      ensures data.Length == blockSize && next == null && fresh(data)
    {
      data := new byte[blockSize];
      next := null;
    }
  }

  // One piece of a block, as handed to readv and writev.
  datatype IoVec = IoVec(base: array<byte>, offset: nat, length: nat)

  predicate InBounds(buffers: seq<IoVec>) {
    forall v :: v in buffers ==> v.offset + v.length <= v.base.Length
  }

  function Total(buffers: seq<IoVec>): nat {
    if buffers == [] then 0 else Total(buffers[..|buffers| - 1]) + buffers[|buffers| - 1].length
  }

  function Gathered(buffers: seq<IoVec>): seq<byte>
    requires InBounds(buffers)
    reads set v | v in buffers :: v.base
  {
    if buffers == [] then []
    else
      var v := buffers[|buffers| - 1];
      Gathered(buffers[..|buffers| - 1]) + v.base[v.offset..v.offset + v.length]
  }

  class ByteArray {
    const blockSize: nat
    var capacity: nat
    var dataSize: nat
    var position: nat
    const root: Node
    var current: Node?

    // The chain from `root`, what its blocks hold, and the number of the block the position lies in.
    ghost var nodes: seq<Node>
    ghost var blocks: seq<seq<byte>>
    ghost var index: nat

    ghost function Buffers(): set<array<byte>>
      reads this`nodes
    {
      set n | n in nodes :: n.data
    }

    // Block number i of the chain, null past its end.
    ghost function NodeAt(i: nat): Node?
      reads this`nodes
    {
      if i < |nodes| then nodes[i] else null
    }

    ghost predicate Chained()
      reads this`nodes, this`blocks, nodes, Buffers()
    {
      && blockSize > 0
      && |blocks| == |nodes| > 0 && nodes[0] == root
      && (forall i :: 0 <= i < |nodes| ==> nodes[i].data[..] == blocks[i] && |blocks[i]| == blockSize)
      && (forall i, j :: 0 <= i < j < |nodes| ==> nodes[i] != nodes[j] && nodes[i].data != nodes[j].data)
      && (forall i {:trigger nodes[i].next} :: 0 <= i < |nodes| - 1 ==> nodes[i].next == nodes[i + 1])
      && nodes[|nodes| - 1].next == null
    }

    ghost predicate Valid()
      reads this, nodes, Buffers()
    {
      && Chained()
      && capacity == At(|nodes|, blockSize) == |Memory()|
      && position <= dataSize <= capacity
      && At(index, blockSize) <= position < At(index, blockSize) + blockSize
      && current == NodeAt(index)
    }

    // All blocks end to end.
    ghost function Memory(): seq<byte>
      reads this`blocks
    {
      Flat(blocks)
    }

    // What has been stored: the memory up to the data size.
    ghost function Data(): (data: seq<byte>)
      requires dataSize <= |Memory()|
      reads this`blocks, this`dataSize
      ensures |data| == dataSize
    {
      Memory()[..dataSize]
    }

    constructor (blockSize: nat)
      requires blockSize > 0
      ensures Valid() && fresh(nodes) && fresh(Buffers())
      ensures this.blockSize == blockSize && capacity == blockSize && Data() == [] && position == 0
    {
      var first := new Node(blockSize);
      this.blockSize := blockSize;
      capacity, dataSize, position := blockSize, 0, 0;
      root, current := first, first;
      nodes, blocks, index := [first], [first.data[..]], 0;
      new;
      FlatLength(blocks, blockSize);
    }

    lemma IndexInRange()
      requires Valid()
      ensures index <= |nodes|
      ensures index == |nodes| <==> position == capacity
    {
      if index > |nodes| {
        AtMonotone(|nodes|, index, blockSize);
      } else if index < |nodes| {
        AtMonotone(index, |nodes|, blockSize);
      }
    }

    lemma SomeCapacity()
      requires Valid()
      ensures capacity > 0
    {
      AtMonotone(0, |nodes|, blockSize);
    }

    // The cached node is block number position / block size, and null exactly at the end of the capacity.
    lemma CurrentIsWhereThePositionIs()
      requires Valid()
      ensures current == null <==> position == capacity
      ensures position < capacity ==> position / blockSize < |nodes| && current == nodes[position / blockSize]
      ensures capacity == |nodes| * blockSize
    {
      IndexInRange();
      DivisionAt(position, index, blockSize);
    }

    // memcpy into a block.
    method CopyIn(block: array<byte>, ghost k: nat, offset: nat, chunk: seq<byte>)
      requires Chained() && k < |nodes| && block == nodes[k].data && offset + |chunk| <= blockSize
      modifies this`blocks, block
      ensures Chained() && blocks == old(blocks)[k := Overwrite(old(blocks)[k], offset, chunk)]
    {
      ghost var before := block[..];
      forall i | 0 <= i < |chunk| {
        block[offset + i] := chunk[i];
      }
      assert block[..] == Overwrite(before, offset, chunk);
      blocks := blocks[k := Overwrite(blocks[k], offset, chunk)];
      forall i | 0 <= i < |nodes|
        ensures nodes[i].data[..] == blocks[i] && |blocks[i]| == blockSize
      {
        if i != k {
          assert nodes[i].data != block;
          assert nodes[i].data[..] == old(nodes[i].data[..]);
        }
      }
    }

    // One more block behind the last one.
    method Append(last: Node) returns (node: Node)
      requires Chained() && last == nodes[|nodes| - 1]
      modifies this`nodes, this`blocks, last`next
      ensures Chained() && nodes == old(nodes) + [node] && |blocks| == |old(blocks)| + 1
      ensures old(blocks) == blocks[..|old(blocks)|]
      ensures fresh(node) && fresh(node.data)
    {
      node := new Node(blockSize);
      last.next := node;
      nodes := nodes + [node];
      blocks := blocks + [node.data[..]];
      forall i | 0 <= i < |nodes| - 1
        ensures nodes[i].next == nodes[i + 1]
      {
        if i < |nodes| - 2 {
          assert nodes[i] != last;
        }
      }
    }

    // Walks the chain to its end.
    method Last() returns (last: Node)
      requires Chained()
      ensures last == nodes[|nodes| - 1]
    {
      last := root;
      ghost var k := 0;
      while last.next != null
        invariant 0 <= k < |nodes| && last == nodes[k]
        decreases |nodes| - k
      {
        last := last.next;
        k := k + 1;
      }
    }

    // The old nodes come first; every node and buffer behind them is newly allocated.
    twostate predicate Extended()
      reads this
    {
      && old(nodes) <= nodes
      && forall i :: |old(nodes)| <= i < |nodes| ==> fresh(nodes[i]) && fresh(nodes[i].data)
    }

    // `count` more blocks; when the array was full, the first of them becomes the current one.
    method AppendBlocks(count: nat, full: bool)
      requires Chained() && capacity == At(|nodes|, blockSize)
      modifies this`capacity, this`current, this`nodes, this`blocks, nodes
      ensures Chained() && |nodes| == |old(nodes)| + count && capacity == At(|nodes|, blockSize)
      ensures Extended() && old(blocks) <= blocks
      ensures current == if full && count > 0 then nodes[|old(nodes)|] else old(current)
    {
      hide At, BlocksFor, Flat;
      var last := Last();
      var i := 0;
      while i < count
        invariant 0 <= i <= count
        invariant Chained() && |nodes| == |old(nodes)| + i && last == nodes[|nodes| - 1]
        invariant capacity == At(|nodes|, blockSize)
        invariant Extended() && old(blocks) <= blocks
        invariant current == if full && i > 0 then nodes[|old(nodes)|] else old(current)
      {
        AtSum(|nodes|, 1, blockSize);
        last := Append(last);
        if i == 0 && full {
          current := last;
        }
        capacity := capacity + blockSize;
        i := i + 1;
      }
    }

    // The capacity once there is room for `required` bytes from the position on, with less than a block to spare.
    ghost function Expanded(required: nat): (r: nat)
      requires blockSize > 0
      reads this`capacity, this`position
      ensures required <= capacity - position ==> r == capacity
      ensures required > capacity - position ==> position + required <= r < position + required + blockSize
    {
      if required <= capacity - position then capacity
      else capacity + At(BlocksFor(required - (capacity - position), blockSize), blockSize)
    }

    // Hangs as many blocks behind the chain as the request needs.
    method ExpandCapacity(required: nat)
      requires Valid()
      modifies this`capacity, this`current, this`nodes, this`blocks, nodes
      ensures Valid() && capacity - position >= required
      ensures Extended() && old(blocks) <= blocks
      ensures capacity == old(Expanded(required))
    {
      IndexInRange();
      hide At, BlocksFor;
      var available := capacity - position;
      if available >= required {
        return;
      }
      var count := BlocksFor(required - available, blockSize);
      AtSum(|nodes|, count, blockSize);
      AppendBlocks(count, available == 0);
      FlatLength(blocks, blockSize);
    }

    // The chain reaches exactly as far as the capacity.
    lemma ReachOf(i: nat)
      requires Chained() && capacity == At(|nodes|, blockSize)
      ensures i < |nodes| <==> At(i, blockSize) < capacity
      ensures i < |nodes| ==> At(i, blockSize) + blockSize <= capacity
      ensures i < |nodes| ==> NodeAt(i) == nodes[i] && nodes[i].next == NodeAt(i + 1)
      ensures i < |nodes| ==> nodes[i].data.Length == blockSize
      ensures i >= |nodes| ==> NodeAt(i) == null
      ensures NodeAt(0) == root
      ensures At(i + 1, blockSize) == At(i, blockSize) + blockSize
    {
      AtSum(i, 1, blockSize);
      if i < |nodes| {
        AtMonotone(i, |nodes|, blockSize);
        var last := i == |nodes| - 1;
        assert !last ==> nodes[i].next == nodes[i + 1];
      } else if i > |nodes| {
        AtMonotone(|nodes|, i, blockSize);
      }
    }

    // memcpy of `n` more bytes into block k, for a write that began at `start` in memory `mem`.
    method Poke(block: array<byte>, ghost k: nat, offset: nat, buffer: seq<byte>, done: nat, n: nat,
                ghost mem: seq<byte>, ghost start: nat)
      requires Chained() && k < |nodes| && block == nodes[k].data && offset + n <= blockSize
      requires done + n <= |buffer| && start + done == At(k, blockSize) + offset && start + |buffer| <= |mem|
      requires Memory() == Overwrite(mem, start, buffer[..done])
      modifies this`blocks, Buffers()
      ensures Chained() && Memory() == Overwrite(mem, start, buffer[..done + n])
    {
      hide At, Flat, Overwrite;
      FlatOverwrite(blocks, blockSize, k, offset, buffer[done..done + n]);
      CopyIn(block, k, offset, buffer[done..done + n]);
      OverwriteConcat(mem, start, buffer[..done], buffer[done..done + n]);
      TakeMore(buffer, done, n);
    }

    // The position moves on.
    method Advance(n: nat)
      requires Chained()
      modifies this`position
      ensures position == old(position) + n && Chained() && Memory() == old(Memory())
    {
      position := position + n;
    }

    // A full block is left behind.
    method LeaveBlock()
      requires Chained() && index < |nodes| && current == NodeAt(index)
      modifies this`current, this`index
      ensures index == old(index) + 1 && current == NodeAt(index)
      ensures At(index, blockSize) == At(old(index), blockSize) + blockSize
      ensures Chained() && Memory() == old(Memory())
    {
      AtSum(index, 1, blockSize);
      current := current.next;
      index := index + 1;
    }

    method Write(buffer: seq<byte>)
      requires Valid()
      modifies this, nodes, Buffers()
      ensures Valid() && position == old(position) + |buffer|
      ensures Data() == Written(old(Data()), old(position), buffer)
      ensures Extended()
      ensures capacity == old(Expanded(|buffer|))
    {
      hide At, Flat, Overwrite, Written, Chained, NodeAt;
      ExpandCapacity(|buffer|);
      ghost var mem := Memory();
      FlatPrefix(old(blocks), blocks);
      PrefixTake(old(Memory()), mem, dataSize);
      WrittenIsOverwrite(mem, dataSize, position, buffer);
      Fill(buffer);
      if position > dataSize {
        dataSize := position;
      }
    }

    // The copying loop of `write`, once there is room.
    method Fill(buffer: seq<byte>)
      requires Valid() && |buffer| <= capacity - position
      modifies this`blocks, this`position, this`current, this`index, Buffers()
      ensures Chained() && position == old(position) + |buffer|
      ensures At(index, blockSize) <= position < At(index, blockSize) + blockSize && current == NodeAt(index)
      ensures Memory() == Overwrite(old(Memory()), old(position), buffer)
    {
      hide At, Flat, Overwrite, Chained, Memory, NodeAt;
      DivisionAt(position, index, blockSize);
      ghost var mem, start := Memory(), position;
      OverwriteNothing(mem, start);
      var offset: nat := position % blockSize;
      var room: nat := blockSize - offset;
      var done: nat := 0;
      var remaining: nat := |buffer|;
      assert buffer[..0] == [];
      while remaining > 0
        invariant Chained() && done + remaining == |buffer| && offset + room == blockSize && room > 0
        invariant position == start + done == At(index, blockSize) + offset
        invariant current == NodeAt(index)
        invariant Memory() == Overwrite(mem, start, buffer[..done])
      {
        ReachOf(index);
        if room > remaining {
          Poke(current.data, index, offset, buffer, done, remaining, mem, start);
          Advance(remaining);
          done := done + remaining;
          offset := offset + remaining;
          room := room - remaining;
          remaining := 0;
        } else {
          Poke(current.data, index, offset, buffer, done, room, mem, start);
          Advance(room);
          done := done + room;
          remaining := remaining - room;
          LeaveBlock();
          room := blockSize;
          offset := 0;
        }
      }
      assert buffer[..done] == buffer;
    }

    // memcpy out of a block: its bytes from `offset` on continue what was read of the memory from `start` on.
    lemma NextPiece(i: nat, offset: nat, n: nat, start: nat, data: seq<byte>)
      requires Chained() && i < |nodes| && offset + n <= blockSize
      requires start + |data| == At(i, blockSize) + offset <= |Memory()|
      requires data == Memory()[start..start + |data|]
      ensures nodes[i].data.Length == blockSize && start + |data| + n <= |Memory()|
      ensures data + nodes[i].data[offset..offset + n] == Memory()[start..start + |data| + n]
    {
      hide At, Flat;
      FlatPiece(blocks, blockSize, i, offset, n);
      assert nodes[i].data[offset..offset + n] == blocks[i][offset..offset + n];
      SliceMore(Memory(), start, |data|, n);
    }

    // Reads and moves on; out of range exactly when more is asked for than lies between position and data size.
    method Read(size: nat) returns (outcome: Outcome, data: seq<byte>)
      requires Valid()
      modifies this`position, this`current, this`index
      ensures Valid()
      ensures outcome == if size > dataSize - old(position) then OutOfRange else Done
      ensures position == old(position) + |data|
      ensures data == if outcome.Done? then Data()[old(position)..old(position) + size] else []
    {
      hide At, Flat, Chained, Memory, NodeAt;
      if size > dataSize - position {
        return OutOfRange, [];
      }
      data := Drain(size);
      PrefixSlice(Memory(), dataSize, old(position), size);
      outcome := Done;
    }

    // The copying loop of `read`, once there is enough.
    method Drain(size: nat) returns (data: seq<byte>)
      requires Valid() && size <= capacity - position
      modifies this`position, this`current, this`index
      ensures Chained() && Memory() == old(Memory()) && position == old(position) + size <= |Memory()|
      ensures At(index, blockSize) <= position < At(index, blockSize) + blockSize && current == NodeAt(index)
      ensures |data| == size && data == Memory()[old(position)..position]
    {
      hide At, Flat, Chained, Memory, NodeAt;
      DivisionAt(position, index, blockSize);
      ghost var start := position;
      var offset: nat := position % blockSize;
      var room: nat := blockSize - offset;
      var remaining: nat := size;
      data := [];
      while remaining > 0
        invariant Chained() && Memory() == old(Memory()) && |data| + remaining == size
        invariant offset + room == blockSize && room > 0 && current == NodeAt(index)
        invariant position == start + |data| == At(index, blockSize) + offset
        invariant data == Memory()[start..start + |data|]
      {
        ReachOf(index);
        if room > remaining {
          NextPiece(index, offset, remaining, start, data);
          data := data + current.data[offset..offset + remaining];
          Advance(remaining);
          offset := offset + remaining;
          remaining := 0;
          room := blockSize - offset;
        } else {
          NextPiece(index, offset, room, start, data);
          data := data + current.data[offset..offset + room];
          Advance(room);
          remaining := remaining - room;
          LeaveBlock();
          room := blockSize;
          offset := 0;
        }
      }
    }

    // Where `ReadWithoutMoving` really begins: always in the current block.
    ghost function Effective(at: nat): nat
      requires blockSize > 0
      reads this`index
    {
      At(index, blockSize) + at % blockSize
    }

    // Reads from `at` without moving, starting in the current block whatever `at` is; `dataSize - at` is unsigned.
    method ReadWithoutMoving(size: nat, at: nat) returns (outcome: Outcome, data: seq<byte>)
      requires Valid() && at < dataSize + WORD
      ensures Valid() && Data() == old(Data())
      ensures outcome == if size > Unsigned(dataSize - at) then OutOfRange
                         else if size > 0 && Effective(at) + size > capacity then NullDereference else Done
      ensures outcome.Done? && size > 0 ==> data == Memory()[Effective(at)..Effective(at) + size]
      ensures outcome.Done? && size == 0 ==> data == []
    {
      hide At, Flat, Chained, Memory, NodeAt, Unsigned;
      data := [];
      if size > Unsigned(dataSize - at) {
        return OutOfRange, data;
      }
      var offset: nat := at % blockSize;
      var room: nat := blockSize - offset;
      var remaining: nat := size;
      var node := current;
      ghost var k: nat, start: nat := index, Effective(at);
      while remaining > 0
        invariant Valid() && Data() == old(Data())
        invariant |data| + remaining == size && node == NodeAt(k)
        invariant remaining > 0 ==> offset + room == blockSize && room > 0
        invariant remaining > 0 ==> start + |data| == At(k, blockSize) + offset
        invariant start + |data| <= capacity || data == []
        invariant data != [] ==> data == Memory()[start..start + |data|]
      {
        ReachOf(k);
        if node == null {
          return NullDereference, data;
        }
        NextPiece(k, offset, if room >= remaining then remaining else room, start, data);
        if room >= remaining {
          data := data + node.data[offset..offset + remaining];
          remaining := 0;
        } else {
          data := data + node.data[offset..offset + room];
          remaining := remaining - room;
          node := node.next;
          k := k + 1;
          room := blockSize;
          offset := 0;
        }
      }
      outcome := Done;
    }

    // It begins in the block of the position, at the offset asked for, and so reads from where it was asked to exactly
    // when that lies in this block.
    lemma ReadsWhereAsked(at: nat)
      requires Valid()
      ensures Effective(at) / blockSize == position / blockSize && Effective(at) % blockSize == at % blockSize
      ensures Effective(at) == at <==> at / blockSize == position / blockSize
    {
      DivisionAt(Effective(at), index, blockSize);
      DivisionAt(position, index, blockSize);
      if at / blockSize == index {
        assert at == (at / blockSize) * blockSize + at % blockSize;
      } else if Effective(at) == at {
        DivisionAt(at, index, blockSize);
      }
    }

    // Everything from the position to the end of the data.
    method ToString() returns (outcome: Outcome, text: seq<byte>)
      requires Valid()
      ensures Valid() && Data() == old(Data())
      ensures outcome == Done && text == Data()[position..]
    {
      hide At, Flat, Chained, Memory, NodeAt;
      outcome, text := Done, [];
      if dataSize - position > 0 {
        DivisionAt(position, index, blockSize);
        ReadsWhereAsked(position);
        outcome, text := ReadWithoutMoving(dataSize - position, position);
        PrefixSlice(Memory(), dataSize, position, dataSize - position);
      }
    }

    // Moves to `p`, growing the data when `p` lies beyond it. The walk from the root runs off the chain at the very end
    // of the capacity.
    method SetPosition(p: nat) returns (outcome: Outcome)
      requires Valid()
      modifies this`position, this`dataSize, this`current, this`index
      ensures outcome == if p > capacity then OutOfRange else if p == capacity then NullDereference else Done
      ensures !outcome.NullDereference? ==> Valid()
      ensures outcome.OutOfRange? ==> position == old(position) && dataSize == old(dataSize)
      ensures outcome.Done? ==> position == p && dataSize == if p > old(dataSize) then p else old(dataSize)
      ensures outcome.Done? ==> Memory() == old(Memory()) && Data()[..old(dataSize)] == old(Data())
    {
      hide At, Flat, Chained, Memory, NodeAt;
      if p > capacity {
        return OutOfRange;
      }
      MoveTo(p);
      outcome := Seek(p);
      assert outcome.Done? ==> Memory()[..dataSize][..old(dataSize)] == Memory()[..old(dataSize)];
    }

    method MoveTo(p: nat)
      requires Chained()
      modifies this`position, this`dataSize
      ensures Chained() && Memory() == old(Memory())
      ensures position == p && dataSize == if p > old(dataSize) then p else old(dataSize)
    {
      position := p;
      if position > dataSize {
        dataSize := position;
      }
    }

    // Makes the first block current.
    method Rewind()
      requires Chained()
      modifies this`current, this`index
      ensures Chained() && Memory() == old(Memory())
      ensures index == 0 && current == NodeAt(0) && At(0, blockSize) == 0
    {
      AtSum(0, 0, blockSize);
      current := root;
      index := 0;
    }

    // Makes the block of position `p` current, walking from the root.
    method Seek(p: nat) returns (outcome: Outcome)
      requires Chained() && capacity == At(|nodes|, blockSize) && p <= capacity
      modifies this`current, this`index
      ensures Chained() && Memory() == old(Memory())
      ensures outcome == if p == capacity then NullDereference else Done
      ensures outcome.Done? ==>
                At(index, blockSize) <= p < At(index, blockSize) + blockSize && current == NodeAt(index)
    {
      hide At, Flat, Memory, Chained, NodeAt;
      var rest := p;
      Rewind();
      while current != null && rest >= blockSize
        invariant Chained() && Memory() == old(Memory())
        invariant 0 <= rest && p == At(index, blockSize) + rest && current == NodeAt(index)
        decreases rest
      {
        ReachOf(index);
        rest := rest - blockSize;
        LeaveBlock();
      }
      ReachOf(index);
      outcome := if current == null then NullDereference else Done;
    }

    // Back to one empty block; the others are released.
    method Clear()
      requires Valid()
      modifies this, nodes
      ensures Valid() && nodes == old(nodes)[..1]
      ensures Data() == [] && position == 0 && capacity == blockSize
    {
      position, dataSize, capacity := 0, 0, blockSize;
      current := root;
      root.next := null;
      nodes, blocks, index := nodes[..1], blocks[..1], 0;
      FlatLength(blocks, blockSize);
    }

    // --- scatter and gather ------------------------------------------------------------------------------------

    // The pieces lie in consecutive blocks from block `first` on and cover the memory from `start` to `end`.
    ghost predicate Laid(buffers: seq<IoVec>, first: nat, start: nat, end: nat)
      reads this`nodes
    {
      if buffers == [] then start == end
      else
        var i, v := first + |buffers| - 1, buffers[|buffers| - 1];
        && i < |nodes| && v.base == nodes[i].data && v.offset + v.length <= blockSize
        && end == At(i, blockSize) + v.offset + v.length
        && Laid(buffers[..|buffers| - 1], first, start, At(i, blockSize) + v.offset)
    }

    lemma NothingLaid(first: nat, start: nat)
      ensures Laid([], first, start, start)
    {
    }

    lemma LaidMore(buffers: seq<IoVec>, v: IoVec, first: nat, start: nat, end: nat)
      requires Laid(buffers, first, start, end) && first + |buffers| < |nodes|
      requires v.base == nodes[first + |buffers|].data && v.offset + v.length <= blockSize
      requires end == At(first + |buffers|, blockSize) + v.offset
      ensures Laid(buffers + [v], first, start, end + v.length)
    {
      assert (buffers + [v])[..|buffers|] == buffers;
    }

    // What writev sends: the pieces one after the other.
    lemma {:induction false} GatheredIsSlice(buffers: seq<IoVec>, first: nat, start: nat, end: nat)
      requires Chained() && Laid(buffers, first, start, end) && start <= |Memory()|
      ensures start <= end <= |Memory()| && end == start + Total(buffers)
      ensures InBounds(buffers)
      ensures Gathered(buffers) == Memory()[start..end]
    {
      hide At, Memory, Flat;
      if buffers != [] {
        var i, v, front := first + |buffers| - 1, buffers[|buffers| - 1], buffers[..|buffers| - 1];
        GatheredIsSlice(front, first, start, At(i, blockSize) + v.offset);
        NextPiece(i, v.offset, v.length, start, Gathered(front));
      }
    }

    // The loop shared by both buffer getters: lays out `size` bytes from `offset` in block k on.
    method Lay(from: Node?, ghost k: nat, offset: nat, size: nat) returns (outcome: Outcome, buffers: seq<IoVec>)
      requires Valid() && from == NodeAt(k) && offset < blockSize
      ensures Valid() && Memory() == old(Memory())
      ensures outcome == if size > 0 && At(k, blockSize) + offset + size > capacity then NullDereference else Done
      ensures outcome.Done? ==> Laid(buffers, k, At(k, blockSize) + offset, At(k, blockSize) + offset + size)
      ensures outcome.Done? && size == 0 ==> buffers == []
    {
      hide At, Flat, Chained, Memory, NodeAt, Laid;
      var node := from;
      var room: nat, remaining: nat, inBlock: nat := blockSize - offset, size, offset;
      ghost var start: nat, done: nat := At(k, blockSize) + offset, 0;
      buffers := [];
      ReachOf(k);
      NothingLaid(k, start);
      while remaining > 0
        invariant Valid() && Memory() == old(Memory()) && done + remaining == size
        invariant remaining > 0 ==> node == NodeAt(k + |buffers|)
        invariant remaining > 0 ==> inBlock + room == blockSize && room > 0
        invariant remaining > 0 ==> start + done == At(k + |buffers|, blockSize) + inBlock
        invariant done > 0 ==> start + done <= capacity
        invariant Laid(buffers, k, start, start + done) && (done == 0 ==> buffers == [])
      {
        ReachOf(k + |buffers|);
        ReachOf(k + |buffers| + 1);
        if node == null {
          return NullDereference, buffers;
        }
        if room >= remaining {
          LaidMore(buffers, IoVec(node.data, inBlock, remaining), k, start, start + done);
          buffers := buffers + [IoVec(node.data, inBlock, remaining)];
          done := done + remaining;
          remaining := 0;
        } else {
          LaidMore(buffers, IoVec(node.data, inBlock, room), k, start, start + done);
          buffers := buffers + [IoVec(node.data, inBlock, room)];
          remaining := remaining - room;
          node := node.next;
          if node == null {
            return NullDereference, buffers;
          }
          done := done + room;
          room := node.data.Length;
          inBlock := 0;
        }
      }
      outcome := Done;
    }

    // Follows `count` links from the root.
    method WalkTo(count: nat) returns (outcome: Outcome, node: Node?)
      requires Valid()
      ensures Valid() && Memory() == old(Memory())
      ensures outcome == if count > |nodes| then NullDereference else Done
      ensures outcome.Done? ==> node == NodeAt(count)
    {
      hide At, Flat, Chained, Memory, NodeAt;
      node := root;
      var steps := count;
      ghost var k: nat := 0;
      ReachOf(0);
      while steps > 0
        invariant Valid() && Memory() == old(Memory())
        invariant node == NodeAt(k) && k + steps == count && k <= |nodes|
      {
        ReachOf(k);
        if node == null {
          return NullDereference, node;
        }
        node := node.next;
        steps := steps - 1;
        k := k + 1;
      }
      outcome := Done;
    }

    // What `writev` would send of `size` bytes from `at` on; nothing when more is asked for than is left to read.
    method GetReadBuffers(size: nat, at: nat) returns (outcome: Outcome, count: nat, buffers: seq<IoVec>)
      requires Valid()
      ensures var served, past := size <= dataSize - position, size > 0 && at + size > capacity;
              outcome == if served && (past || (at != position && at / blockSize > |nodes|)) then NullDereference
              else Done
      ensures outcome.Done? ==> count == if size <= dataSize - position then size else 0
      ensures outcome.Done? && count == 0 ==> buffers == []
      ensures outcome.Done? && count > 0 ==>
                InBounds(buffers) && Total(buffers) == count && Gathered(buffers) == Memory()[at..at + count]
    {
      hide At, Flat, Chained, Memory, NodeAt, Laid, Gathered, InBounds, Total;
      if size > dataSize - position {
        return Done, 0, [];
      }
      var node: Node? := root;
      ghost var k: nat := 0;
      Divided(at, blockSize);
      if at == position {
        node := current;
        k := index;
        DivisionAt(position, index, blockSize);
      } else {
        outcome, node := WalkTo(at / blockSize);
        if outcome.NullDereference? {
          return NullDereference, 0, [];
        }
        k := at / blockSize;
      }
      outcome, buffers := Lay(node, k, at % blockSize, size);
      count := size;
      if outcome.Done? && size > 0 {
        GatheredIsSlice(buffers, k, at, at + size);
      }
    }

    // From anywhere up to the position the getter is safe, and what is sent is a slice of the data.
    lemma ReadBuffersHoldData(size: nat, at: nat)
      requires Valid() && size <= dataSize - position && at <= position
      ensures at + size <= capacity && (at != position ==> at / blockSize <= |nodes|)
      ensures Memory()[at..at + size] == Data()[at..at + size]
    {
      IndexInRange();
      DivisionAt(position, index, blockSize);
      PrefixSlice(Memory(), dataSize, at, size);
      Divided(at, blockSize);
      if at / blockSize > index {
        AtMonotone(index, at / blockSize, blockSize);
      }
    }

    // Makes room and lays out the next `size` bytes; it looks at the current block even when nothing is asked for.
    method GetWriteBuffers(size: nat) returns (outcome: Outcome, buffers: seq<IoVec>)
      requires Valid()
      modifies this`capacity, this`current, this`nodes, this`blocks, nodes
      ensures Valid() && Data() == old(Data()) && capacity == old(Expanded(size))
      ensures Extended() && old(blocks) <= blocks
      ensures outcome == if size == 0 && position == capacity then NullDereference else Done
      ensures outcome.Done? ==> position + size <= capacity && Laid(buffers, index, position, position + size)
    {
      hide At, Flat, Chained, NodeAt;
      ExpandCapacity(size);
      FlatPrefix(old(blocks), blocks);
      PrefixTake(old(Memory()), Memory(), dataSize);
      ReachOf(index);
      IndexInRange();
      if current == null {
        return NullDereference, [];
      }
      DivisionAt(position, index, blockSize);
      outcome, buffers := Lay(current, index, position % blockSize, size);
    }

    // The kernel filling the pieces in order with what arrived.
    method Scatter(buffers: seq<IoVec>, bytes: seq<byte>, ghost first: nat, ghost start: nat, ghost end: nat)
      requires Chained() && Laid(buffers, first, start, end) && start <= |Memory()| && start + |bytes| <= end
      modifies this`blocks, Buffers()
      ensures Chained() && start + |bytes| <= |old(Memory())|
      ensures Memory() == Overwrite(old(Memory()), start, bytes)
      decreases |buffers|
    {
      hide At, Flat, Overwrite, Chained;
      GatheredIsSlice(buffers, first, start, end);
      OverwriteNothing(Memory(), start);
      if bytes == [] {
        return;
      }
      var v, front := buffers[|buffers| - 1], buffers[..|buffers| - 1];
      ghost var i, from := first + |front|, end - v.length;
      GatheredIsSlice(front, first, start, from);
      var before := Total(front);
      if |bytes| <= before {
        Scatter(front, bytes, first, start, from);
      } else {
        Scatter(front, bytes[..before], first, start, from);
        Poke(v.base, i, v.offset, bytes, before, |bytes| - before, old(Memory()), start);
        assert bytes[..before + (|bytes| - before)] == bytes;
      }
    }

    // `SocketStream::read` into this array: room for `size` bytes is laid out, `bytes` of them arrive, and the position
    // is set behind them. Equal to writing them, except that it dies when they end exactly at the end of the capacity.
    method Receive(size: nat, bytes: seq<byte>) returns (outcome: Outcome)
      requires Valid() && |bytes| <= size
      modifies this, nodes, Buffers()
      ensures outcome ==
              if old(position) + |bytes| == old(Expanded(size)) && (size == 0 || bytes != []) then NullDereference
              else Done
      ensures outcome.Done? ==>
                && Valid() && position == old(position) + |bytes| && capacity == old(Expanded(size))
                && Data() == Written(old(Data()), old(position), bytes)
    {
      hide At, Flat, Chained, Memory, NodeAt, Laid, Overwrite;
      var buffers;
      outcome, buffers := GetWriteBuffers(size);
      if outcome.NullDereference? {
        return;
      }
      ghost var mem, was := Memory(), dataSize;
      WrittenIsOverwrite(mem, dataSize, position, bytes);
      Scatter(buffers, bytes, index, position, position + size);
      if bytes == [] {
        OverwriteNothing(mem, position);
      } else {
        outcome := SetPosition(position + |bytes|);
      }
    }

    // It dies exactly when everything asked for arrives and ends on a block border at or beyond the old capacity.
    lemma ReceiveDiesIff(size: nat, n: nat)
      requires Valid() && n <= size
      ensures position + n == Expanded(size) <==>
              n == size && position + n >= capacity && (position + n) % blockSize == 0
    {
      hide At, BlocksFor, Chained;
      if size > capacity - position {
        var missing := size - (capacity - position);
        ExactFit(missing, blockSize);
        BehindBlocks(|nodes|, blockSize, missing);
      } else {
        BehindBlocks(|nodes|, blockSize, 0);
      }
    }
  }
}
