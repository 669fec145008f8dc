/** Bytes in equal blocks laid end to end. */
module Blocks {

  newtype byte = x: int | 0 <= x < 256

  // `mem` with `chunk` written at `at`.
  function Overwrite(mem: seq<byte>, at: nat, chunk: seq<byte>): (r: seq<byte>)
    requires at + |chunk| <= |mem|
    ensures |r| == |mem|
  {
    mem[..at] + chunk + mem[at + |chunk|..]
  }

  lemma OverwriteNothing(mem: seq<byte>, at: nat)
    requires at <= |mem|
    ensures Overwrite(mem, at, []) == mem
  {
  }

  lemma OverwriteConcat(mem: seq<byte>, at: nat, a: seq<byte>, b: seq<byte>)
    requires at + |a| + |b| <= |mem|
    ensures Overwrite(Overwrite(mem, at, a), at + |a|, b) == Overwrite(mem, at, a + b)
  {
    assert Overwrite(mem, at, a)[..at + |a|] == mem[..at] + a;
    assert Overwrite(mem, at, a)[at + |a| + |b|..] == mem[at + |a| + |b|..];
  }

  // Where block i begins.
  function At(i: nat, size: nat): nat {
    i * size
  }

  lemma AtSum(i: nat, j: nat, size: nat)
    ensures At(i + j, size) == At(i, size) + At(j, size)
    ensures At(i + 1, size) == At(i, size) + size
  {
  }

  lemma {:induction false} AtMonotone(i: nat, j: nat, size: nat)
    requires i < j
    ensures At(i, size) + size <= At(j, size)
  {
    hide At;
    AtSum(j - 1, 1, size);
    if i < j - 1 {
      AtMonotone(i, j - 1, size);
    }
  }

  lemma DivisionAt(position: nat, index: nat, size: nat)
    requires size > 0 && At(index, size) <= position < At(index, size) + size
    ensures position / size == index && position % size == position - At(index, size)
  {
    var q := position / size;
    if q < index {
      AtMonotone(q, index, size);
    } else if index < q {
      AtMonotone(index, q, size);
    }
  }

  lemma Divided(at: nat, size: nat)
    requires size > 0
    ensures at == At(at / size, size) + at % size
  {
  }

  // Missing bytes rounded up to whole blocks.
  function BlocksFor(missing: nat, size: nat): (count: nat)
    requires size > 0 && missing > 0
    ensures count > 0 && missing <= At(count, size) < missing + size
  {
    var q, r := missing / size, missing % size;
    assert missing == q * size + r;
    assert (q + 1) * size == q * size + size;
    q + if r == 0 then 0 else 1
  }

  lemma ExactFit(missing: nat, size: nat)
    requires size > 0 && missing > 0
    ensures At(BlocksFor(missing, size), size) == missing <==> missing % size == 0
  {
    Divided(missing, size);
    AtSum(missing / size, 1, size);
  }

  lemma {:induction false} BehindBlocks(i: nat, size: nat, rest: nat)
    requires size > 0
    ensures (At(i, size) + rest) % size == rest % size
  {
    if i > 0 {
      BehindBlocks(i - 1, size, size + rest);
      AtSum(i - 1, 1, size);
      assert (size + rest) % size == rest % size by { DivisionAt(size + rest, rest / size + 1, size); }
    }
  }

  function Flat(blocks: seq<seq<byte>>): seq<byte> {
    if blocks == [] then [] else blocks[0] + Flat(blocks[1..])
  }

  predicate Uniform(blocks: seq<seq<byte>>, size: nat) {
    forall i :: 0 <= i < |blocks| ==> |blocks[i]| == size
  }

  lemma {:induction false} FlatLength(blocks: seq<seq<byte>>, size: nat)
    requires Uniform(blocks, size)
    ensures |Flat(blocks)| == At(|blocks|, size)
  {
    if blocks != [] {
      FlatLength(blocks[1..], size);
      assert |blocks| * size == size + (|blocks| - 1) * size;
    }
  }

  lemma {:induction false} FlatConcat(a: seq<seq<byte>>, b: seq<seq<byte>>)
    ensures Flat(a + b) == Flat(a) + Flat(b)
  {
    if a == [] {
      assert a + b == b;
    } else {
      assert (a + b)[1..] == a[1..] + b;
      FlatConcat(a[1..], b);
    }
  }

  lemma SliceBehind(a: seq<byte>, b: seq<byte>, at: nat, n: nat)
    requires at + n <= |b|
    ensures (a + b)[|a| + at..|a| + at + n] == b[at..at + n]
  {
  }

  // Block i of the flat memory.
  lemma {:induction false} FlatSlice(blocks: seq<seq<byte>>, size: nat, i: nat)
    requires Uniform(blocks, size) && i < |blocks|
    ensures At(i, size) + size <= |Flat(blocks)|
    ensures Flat(blocks)[At(i, size)..At(i, size) + size] == blocks[i]
  {
    FlatLength(blocks, size);
    AtMonotone(i, |blocks|, size);
    if i > 0 {
      FlatSlice(blocks[1..], size, i - 1);
      AtSum(i - 1, 1, size);
      SliceBehind(blocks[0], Flat(blocks[1..]), At(i - 1, size), size);
    }
  }

  lemma {:induction false} FlatSplit(blocks: seq<seq<byte>>, k: nat)
    requires k < |blocks|
    ensures Flat(blocks) == Flat(blocks[..k]) + blocks[k] + Flat(blocks[k + 1..])
  {
    assert blocks == blocks[..k] + ([blocks[k]] + blocks[k + 1..]);
    FlatConcat(blocks[..k], [blocks[k]] + blocks[k + 1..]);
    FlatConcat([blocks[k]], blocks[k + 1..]);
    assert Flat([blocks[k]]) == blocks[k];
  }

  lemma OverwriteInside(a: seq<byte>, b: seq<byte>, c: seq<byte>, offset: nat, chunk: seq<byte>)
    requires offset + |chunk| <= |b|
    ensures Overwrite(a + b + c, |a| + offset, chunk) == a + Overwrite(b, offset, chunk) + c
  {
    assert (a + b + c)[..|a| + offset] == a + b[..offset];
    assert (a + b + c)[|a| + offset + |chunk|..] == b[offset + |chunk|..] + c;
  }

  // Writing inside a block is writing in the flat memory.
  lemma FlatOverwrite(blocks: seq<seq<byte>>, size: nat, k: nat, offset: nat, chunk: seq<byte>)
    requires Uniform(blocks, size) && k < |blocks| && offset + |chunk| <= size
    ensures At(k, size) + offset + |chunk| <= |Flat(blocks)|
    ensures Flat(blocks[k := Overwrite(blocks[k], offset, chunk)]) ==
            Overwrite(Flat(blocks), At(k, size) + offset, chunk)
  {
    hide At, Flat, Overwrite;
    FlatSlice(blocks, size, k);
    var updated := blocks[k := Overwrite(blocks[k], offset, chunk)];
    FlatSplit(blocks, k);
    FlatSplit(updated, k);
    assert updated[..k] == blocks[..k] && updated[k + 1..] == blocks[k + 1..];
    FlatLength(blocks[..k], size);
    OverwriteInside(Flat(blocks[..k]), blocks[k], Flat(blocks[k + 1..]), offset, chunk);
  }

  // Blocks hung behind the others leave the memory before them as it was.
  lemma FlatPrefix(a: seq<seq<byte>>, b: seq<seq<byte>>)
    requires a <= b
    ensures Flat(a) <= Flat(b)
  {
    assert b == a + b[|a|..];
    FlatConcat(a, b[|a|..]);
  }

  lemma TakeMore(s: seq<byte>, n: nat, m: nat)
    requires n + m <= |s|
    ensures s[..n] + s[n..n + m] == s[..n + m]
  {
  }

  lemma SliceMore(s: seq<byte>, at: nat, n: nat, m: nat)
    requires at + n + m <= |s|
    ensures s[at..at + n] + s[at + n..at + n + m] == s[at..at + n + m]
  {
  }

  lemma PrefixSlice(s: seq<byte>, n: nat, at: nat, m: nat)
    requires at + m <= n <= |s|
    ensures s[..n][at..at + m] == s[at..at + m]
  {
  }

  lemma PrefixTake(a: seq<byte>, b: seq<byte>, n: nat)
    requires a <= b && n <= |a|
    ensures a[..n] == b[..n]
  {
  }

  lemma SliceOfSlice(s: seq<byte>, lo: nat, size: nat, offset: nat, length: nat)
    requires lo + size <= |s| && offset + length <= size
    ensures s[lo..lo + size][offset..offset + length] == s[lo + offset..lo + offset + length]
  {
    var a, b := s[lo..lo + size][offset..offset + length], s[lo + offset..lo + offset + length];
    assert forall i :: 0 <= i < length ==> a[i] == b[i];
  }

  // A slice inside one block, seen in the flat memory.
  lemma FlatPiece(blocks: seq<seq<byte>>, size: nat, k: nat, offset: nat, length: nat)
    requires Uniform(blocks, size) && k < |blocks| && offset + length <= size
    ensures At(k, size) + offset + length <= |Flat(blocks)|
    ensures Flat(blocks)[At(k, size) + offset..At(k, size) + offset + length] == blocks[k][offset..offset + length]
  {
    hide At, Flat;
    FlatSlice(blocks, size, k);
    SliceOfSlice(Flat(blocks), At(k, size), size, offset, length);
  }

  // --- the flat buffer the blocks stand for ------------------------------------------------------------------

  // The data after a write at `position`: overwritten where there was data, longer where there was not.
  function Written(data: seq<byte>, position: nat, chunk: seq<byte>): (r: seq<byte>)
    requires position <= |data|
    ensures |r| == if position + |chunk| < |data| then |data| else position + |chunk|
    ensures r[..position] == data[..position]
    ensures r[position..position + |chunk|] == chunk
  {
    data[..position] + chunk + if position + |chunk| < |data| then data[position + |chunk|..] else []
  }

  // Byte by byte: the chunk where it stands, the old bytes everywhere else.
  lemma WrittenAt(data: seq<byte>, position: nat, chunk: seq<byte>, i: nat)
    requires position <= |data| && i < |Written(data, position, chunk)|
    ensures Written(data, position, chunk)[i] ==
            if position <= i < position + |chunk| then chunk[i - position] else data[i]
  {
  }

  lemma OverwriteAt(mem: seq<byte>, at: nat, chunk: seq<byte>, i: nat)
    requires at + |chunk| <= |mem| && i < |mem|
    ensures Overwrite(mem, at, chunk)[i] == if at <= i < at + |chunk| then chunk[i - at] else mem[i]
  {
  }

  lemma WrittenIsOverwrite(mem: seq<byte>, size: nat, position: nat, chunk: seq<byte>)
    requires position <= size <= |mem| && position + |chunk| <= |mem|
    ensures var size' := if position + |chunk| < size then size else position + |chunk|;
            Overwrite(mem, position, chunk)[..size'] == Written(mem[..size], position, chunk)
  {
  }

  // Two writes in a row are one.
  lemma WrittenTwice(data: seq<byte>, position: nat, a: seq<byte>, b: seq<byte>)
    requires position <= |data|
    ensures Written(Written(data, position, a), position + |a|, b) == Written(data, position, a + b)
  {
    var once := Written(data, position, a);
    assert once[..position + |a|] == data[..position] + a;
    if position + |a| + |b| < |once| {
      assert once[position + |a| + |b|..] == data[position + |a| + |b|..];
    }
  }

  lemma WrittenNothing(data: seq<byte>, position: nat)
    requires position <= |data|
    ensures Written(data, position, []) == data
  {
  }
}
