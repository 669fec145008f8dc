/** Whole runs of `ByteArray` operations against the flat buffer they refine. */
module Sessions {

  // The flat buffer is one byte sequence, a position and a capacity. Its only freedom is what the bytes between the old
  // data and a position set beyond it hold.

  import opened Blocks
  import B = ByteArray

  datatype View = View(data: seq<byte>, position: nat, capacity: nat)

  datatype Op = Write(bytes: seq<byte>) | Read(size: nat) | SetPosition(at: nat) | Clear | ToString

  // How an operation ended and the bytes it returned.
  datatype Answer = Answer(outcome: B.Outcome, bytes: seq<byte>)

  predicate Sound(v: View, blockSize: nat) {
    blockSize > 0 && v.position <= |v.data| <= v.capacity && v.capacity > 0 && v.capacity % blockSize == 0
  }

  // What is left to read.
  function Rest(v: View): seq<byte>
    requires v.position <= |v.data|
  {
    v.data[v.position..]
  }

  predicate Step(blockSize: nat, a: View, op: Op, answer: Answer, z: View)
    requires Sound(a, blockSize)
  {
    match op
    case Write(bytes) =>
      && answer == Answer(B.Done, [])
      && z.data == Written(a.data, a.position, bytes) && z.position == a.position + |bytes|
      && z.capacity == Room(a, |bytes|, blockSize)
    case Read(size) =>
      if size > |Rest(a)| then answer == Answer(B.OutOfRange, []) && z == a
      else answer == Answer(B.Done, Rest(a)[..size]) && z == a.(position := a.position + size)
    case SetPosition(at) =>
      if at > a.capacity then answer == Answer(B.OutOfRange, []) && z == a
      else if at == a.capacity then answer == Answer(B.NullDereference, [])
      else
        && answer == Answer(B.Done, []) && z.position == at && z.capacity == a.capacity
        && a.data <= z.data && |z.data| == if at > |a.data| then at else |a.data|
    case Clear => answer == Answer(B.Done, []) && z == View([], 0, blockSize)
    case ToString => answer == Answer(B.Done, Rest(a)) && z == a
  }

  // The capacity with room for `size` more bytes: as it was, or the fewest whole blocks more.
  function Room(a: View, size: nat, blockSize: nat): (r: nat)
    requires Sound(a, blockSize)
    ensures a.position + size <= a.capacity ==> r == a.capacity
    ensures a.position + size > a.capacity ==> a.position + size <= r < a.position + size + blockSize
  {
    if a.position + size <= a.capacity then a.capacity
    else a.capacity + At(BlocksFor(a.position + size - a.capacity, blockSize), blockSize)
  }

  // A run: `views` are the buffers before, between and after the operations that were answered.
  predicate Trace(blockSize: nat, ops: seq<Op>, answers: seq<Answer>, views: seq<View>) {
    && |views| == |answers| + 1 && |answers| <= |ops|
    && (forall i :: 0 <= i < |answers| ==>
                      Sound(views[i], blockSize) && Step(blockSize, views[i], ops[i], answers[i], views[i + 1]))
  }

  predicate Crashed(answers: seq<Answer>) {
    answers != [] && answers[|answers| - 1].outcome.NullDereference?
  }

  lemma BlocksDivide(i: nat, size: nat)
    requires size > 0
    ensures At(i, size) % size == 0
  {
    BehindBlocks(i, size, 0);
  }

  // A step that does not crash keeps position, data and capacity in order and the capacity in whole blocks; it crashes
  // exactly when the position is set to the capacity.
  lemma StepSound(blockSize: nat, a: View, op: Op, answer: Answer, z: View)
    requires Sound(a, blockSize) && Step(blockSize, a, op, answer, z)
    ensures answer.outcome.NullDereference? <==> op == SetPosition(a.capacity)
    ensures op != SetPosition(a.capacity) ==> Sound(z, blockSize)
  {
    hide At, BlocksFor;
    if op.Write? && a.position + |op.bytes| > a.capacity {
      var more := BlocksFor(a.position + |op.bytes| - a.capacity, blockSize);
      Divided(a.capacity, blockSize);
      AtSum(a.capacity / blockSize, more, blockSize);
      BlocksDivide(a.capacity / blockSize + more, blockSize);
    } else if op.Clear? {
      AtSum(0, 1, blockSize);
      AtSum(0, 0, blockSize);
      BlocksDivide(1, blockSize);
    }
  }

  // A write puts its bytes at the position and moves behind them, lengthens the data no further than that, leaves every
  // other byte, and adds no block when there is room and otherwise fewer bytes than one block too many.
  lemma WriteStep(blockSize: nat, a: View, bytes: seq<byte>, answer: Answer, z: View)
    requires Sound(a, blockSize) && Step(blockSize, a, Write(bytes), answer, z)
    ensures answer == Answer(B.Done, []) && z.position == a.position + |bytes|
    ensures |z.data| == if z.position > |a.data| then z.position else |a.data|
    ensures forall i :: 0 <= i < |z.data| ==>
                          z.data[i] == if a.position <= i < z.position then bytes[i - a.position] else a.data[i]
    ensures if z.position <= a.capacity then z.capacity == a.capacity
            else z.position <= z.capacity < z.position + blockSize && (z.capacity - a.capacity) % blockSize == 0
  {
    hide Written, At, BlocksFor;
    forall i | 0 <= i < |z.data|
      ensures z.data[i] == if a.position <= i < z.position then bytes[i - a.position] else a.data[i]
    {
      WrittenAt(a.data, a.position, bytes, i);
    }
    if z.position > a.capacity {
      BlocksDivide(BlocksFor(z.position - a.capacity, blockSize), blockSize);
    }
  }

  // Bytes written anywhere are read back from there, whatever the block size.
  lemma WrittenIsRead(blockSize: nat, bytes: seq<byte>, answers: seq<Answer>, views: seq<View>)
    requires |views| == 4 && |answers| == 3
    requires Trace(blockSize, [Write(bytes), SetPosition(views[0].position), Read(|bytes|)], answers, views)
    requires views[0].position < views[0].capacity
    ensures answers[2] == Answer(B.Done, bytes)
    ensures views[3].data == Written(views[0].data, views[0].position, bytes)
  {
    var ops := [Write(bytes), SetPosition(views[0].position), Read(|bytes|)];
    assert Step(blockSize, views[0], ops[0], answers[0], views[1]);
    assert Step(blockSize, views[1], ops[1], answers[1], views[2]);
    assert Step(blockSize, views[2], ops[2], answers[2], views[3]);
    assert views[2].data == views[1].data;
  }

  // --- the array runs as the flat buffer does ----------------------------------------------------------------

  ghost function ViewOf(b: B.ByteArray): View
    requires b.Valid()
    reads b, b.nodes, b.Buffers()
  {
    View(b.Data(), b.position, b.capacity)
  }

  lemma ViewSound(b: B.ByteArray)
    requires b.Valid()
    ensures Sound(ViewOf(b), b.blockSize)
  {
    b.SomeCapacity();
    BlocksDivide(|b.nodes|, b.blockSize);
  }

  // Nodes and blocks are the old ones or newly allocated.
  twostate predicate Fresher(b: B.ByteArray)
    reads b
  {
    forall i :: 0 <= i < |b.nodes| ==>
                  b.nodes[i] in old(b.nodes) || (fresh(b.nodes[i]) && fresh(b.nodes[i].data))
  }

  method PerformWrite(b: B.ByteArray, bytes: seq<byte>) returns (answer: Answer)
    requires b.Valid() && Sound(ViewOf(b), b.blockSize)
    modifies b, b.nodes, b.Buffers()
    ensures b.Valid() && Fresher(b)
    ensures Step(b.blockSize, old(ViewOf(b)), Write(bytes), answer, ViewOf(b))
  {
    hide At, Flat, BlocksFor, Written, B.ByteArray.Chained, B.ByteArray.Memory, B.ByteArray.NodeAt, B.ByteArray.Data;
    b.Write(bytes);
    answer := Answer(B.Done, []);
  }

  method PerformClear(b: B.ByteArray) returns (answer: Answer)
    requires b.Valid() && Sound(ViewOf(b), b.blockSize)
    modifies b, b.nodes, b.Buffers()
    ensures b.Valid() && Fresher(b)
    ensures Step(b.blockSize, old(ViewOf(b)), Clear, answer, ViewOf(b))
  {
    hide At, Flat, BlocksFor, Written, B.ByteArray.NodeAt, B.ByteArray.Data;
    b.Clear();
    answer := Answer(B.Done, []);
  }

  lemma SliceOfRest(s: seq<byte>, at: nat, n: nat)
    requires at + n <= |s|
    ensures s[at..][..n] == s[at..at + n]
  {
  }

  // The operations that leave the chain as it is.
  method PerformInPlace(b: B.ByteArray, op: Op) returns (answer: Answer)
    requires b.Valid() && Sound(ViewOf(b), b.blockSize) && !op.Write? && !op.Clear?
    modifies b`position, b`dataSize, b`current, b`index
    ensures answer.outcome.NullDereference? <==> op == SetPosition(b.capacity)
    ensures answer.outcome.NullDereference? ==> answer.bytes == []
    ensures !answer.outcome.NullDereference? ==> b.Valid()
    ensures !answer.outcome.NullDereference? ==> Step(b.blockSize, old(ViewOf(b)), op, answer, ViewOf(b))
  {
    hide At, Flat, BlocksFor, Written, B.ByteArray.Chained, B.ByteArray.Memory, B.ByteArray.NodeAt, B.ByteArray.Data;
    var outcome, bytes := B.Done, [];
    match op {
      case Read(size) =>
        outcome, bytes := b.Read(size);
        assert b.Data() == old(b.Data());
        if size <= |Rest(old(ViewOf(b)))| {
          SliceOfRest(b.Data(), old(b.position), size);
        }
      case SetPosition(at) =>
        outcome := b.SetPosition(at);
        assert outcome.OutOfRange? ==> b.Data() == old(b.Data());
        assert outcome.Done? ==> old(b.Data()) <= b.Data();
      case ToString =>
        outcome, bytes := b.ToString();
    }
    answer := Answer(outcome, bytes);
  }

  method Perform(b: B.ByteArray, op: Op) returns (answer: Answer)
    requires b.Valid() && Sound(ViewOf(b), b.blockSize)
    modifies b, b.nodes, b.Buffers()
    ensures answer.outcome.NullDereference? <==> op == SetPosition(old(b.capacity))
    ensures answer.outcome.NullDereference? ==> answer.bytes == []
    ensures !answer.outcome.NullDereference? ==> b.Valid() && Fresher(b)
    ensures !answer.outcome.NullDereference? ==> Step(b.blockSize, old(ViewOf(b)), op, answer, ViewOf(b))
  {
    hide At, Flat, BlocksFor, Written, B.ByteArray.Chained, B.ByteArray.Memory, B.ByteArray.NodeAt, B.ByteArray.Data;
    if op.Write? {
      answer := PerformWrite(b, op.bytes);
    } else if op.Clear? {
      answer := PerformClear(b);
    } else {
      answer := PerformInPlace(b, op);
    }
  }

  // Any run, from any state, for any block size: each answer and each state is the flat buffer's, until the run ends or
  // dies setting the position to the capacity.
  method Run(b: B.ByteArray, ops: seq<Op>) returns (answers: seq<Answer>, ghost views: seq<View>)
    requires b.Valid()
    modifies b, b.nodes, b.Buffers()
    ensures Trace(b.blockSize, ops, answers, views) && views[0] == old(ViewOf(b))
    ensures if Crashed(answers) then ops[|answers| - 1] == SetPosition(views[|answers| - 1].capacity)
            else |answers| == |ops| && b.Valid() && views[|ops|] == ViewOf(b)
    decreases |ops|
  {
    hide At, Flat, Written, B.ByteArray.Valid, B.ByteArray.Chained, B.ByteArray.Memory, B.ByteArray.Data, Step, Sound;
    ViewSound(b);
    ghost var before := ViewOf(b);
    answers, views := [], [before];
    if ops != [] {
      var answer := Perform(b, ops[0]);
      answers := [answer];
      if answer.outcome.NullDereference? {
        CrashIsAStep(b.blockSize, before, ops[0], answer);
        views := [before, before];
      } else {
        var more;
        ghost var rest;
        more, rest := Run(b, ops[1..]);
        answers := [answer] + more;
        views := [before] + rest;
      }
    }
  }

  lemma CrashIsAStep(blockSize: nat, a: View, op: Op, answer: Answer)
    requires Sound(a, blockSize) && op == SetPosition(a.capacity) && answer == Answer(B.NullDereference, [])
    ensures Step(blockSize, a, op, answer, a)
  {
  }
}
