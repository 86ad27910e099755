/** Any run of operations on a byte buffer, against a flat sequence with a cursor. */
module ByteRuns {
  import opened ByteArrays
  import opened ByteBuffer

  datatype Op = Write(bytes: seq<byte>) | Read(n: nat) | SetPosition(pos: nat) | Clear | ToString

  /** What an operation hands back. */
  datatype Reply = Nothing | Bytes(bytes: seq<byte>) | Thrown | Crashed

  datatype After = After(cursor: Cursor, reply: Reply)

  /** An operation on the flat sequence. */
  function FlatStep(c: Cursor, op: Op): (a: After)
    requires IsCursor(c)
    ensures IsCursor(a.cursor)
  {
    match op
    case Write(bytes) => After(Wrote(c, bytes), Nothing)
    case Read(n) =>
      if n > |c.data| - c.pos then After(c, Thrown) else After(c.(pos := c.pos + n), Bytes(Rest(c)[..n]))
    case SetPosition(pos) => if pos > |c.data| then After(c, Thrown) else After(c.(pos := pos), Nothing)
    case Clear => After(Cursor([], 0), Nothing)
    case ToString => After(c, Bytes(Rest(c)))
  }

  /** When the code as written does what the flat sequence does: not on a write with no room
      left, not on reading nothing there, and on a change of position only from the first
      block and to somewhere below the capacity. */
  predicate Safe(c: Cursor, capacity: nat, base: nat, op: Op) {
    match op
    case Write(bytes) => bytes == [] || c.pos < capacity
    case Read(n) => n > 0 || c.pos < capacity
    case SetPosition(pos) => pos > |c.data| || (c.pos < base && pos < capacity)
    case Clear => true
    case ToString => true
  }

  function Room(c: Cursor, capacity: nat, base: nat, op: Op): nat
    requires base > 0 && c.pos <= capacity
  {
    match op
    case Write(bytes) => CapacityFor(capacity, c.pos, |bytes|, base)
    case Clear => base
    case _ => capacity
  }

  ghost predicate Ready(b: ByteArray)
    reads b, b.nodes
  {
    b.Valid() && b.Synced()
  }

  lemma FirstBlock(b: ByteArray, pos: nat)
    requires b.Valid()
    ensures BlockOf(b.position, b.baseSize) == 0 <==> b.position < b.baseSize
    ensures BlockOf(b.position, b.baseSize) == 0 ==> (BlockOf(pos, b.baseSize) < |b.nodes| <==> pos < b.capacity)
  {
    hide *;
    b.ValidIs();
    InBlockAt(b.position, 0, b.baseSize);
    StartNext(0, b.baseSize);
    InBlockAt(pos, |b.nodes|, b.baseSize);
  }

  /** One operation, as written: in step with the flat sequence exactly when it is safe. */
  method Step(b: ByteArray, op: Op) returns (reply: Reply)
    requires Ready(b)
    modifies b.Objects()
    ensures forall o <- b.Objects() :: o in old(b.Objects()) || fresh(o)
    ensures b.littleEndian == old(b.littleEndian)
    ensures Safe(old(b.Value()), old(b.capacity), b.baseSize, op) <==> reply != Crashed && Ready(b)
    ensures Ready(b) && reply != Crashed ==>
      && After(b.Value(), reply) == FlatStep(old(b.Value()), op)
      && b.baseSize > 0 && old(b.position) <= old(b.capacity)
      && b.capacity == Room(old(b.Value()), old(b.capacity), b.baseSize, op)
  {
    hide *;
    ReadyIs(b);
    b.ValidIs();
    ghost var nodes0 := b.nodes;
    ObjectsAre(b);
    ghost var c, capacity := b.Value(), b.capacity;
    StepIs(c, capacity, b.baseSize, op);
    reply := Nothing;
    match op {
      case Write(bytes) =>
        b.Write(bytes);
        assert forall n <- b.nodes :: n in nodes0 || n in b.nodes[|nodes0|..];
      case Read(n) =>
        var r := b.Read(n);
        ReadReply(c, capacity, n);
        match r {
          case Done(bytes) => reply := Bytes(bytes);
          case OutOfRange => reply := Thrown;
          case NullPointer => reply := Crashed;
        }
      case SetPosition(pos) =>
        FirstBlock(b, pos);
        var r := b.SetPosition(pos);
        match r {
          case Done(_) =>
          case OutOfRange => reply := Thrown;
          case NullPointer => reply := Crashed;
        }
      case Clear =>
        b.Clear();
      case ToString =>
        var r := b.ToString();
        b.ValidIs();
        reply := Bytes(r.value);
    }
    ReadyIs(b);
    ObjectsAre(b);
  }

  lemma ObjectsAre(b: ByteArray)
    ensures forall o: object :: o in b.Objects() <==> o == b || (exists n :: n in b.nodes && (o == n || o == n.ptr))
    ensures forall i :: 0 <= i < |b.nodes| ==> b.nodes[i] in b.Objects()
    ensures forall a <- b.Arrays() :: a in b.Objects()
  {
  }

  lemma ReadyIs(b: ByteArray)
    ensures Ready(b) <==> b.Valid() && b.Synced()
  {
  }

  lemma StepIs(c: Cursor, capacity: nat, base: nat, op: Op)
    requires IsCursor(c) && c.pos <= capacity && base > 0
    ensures match op
      case Write(bytes) =>
        FlatStep(c, op) == After(Wrote(c, bytes), Nothing)
        && Room(c, capacity, base, op) == CapacityFor(capacity, c.pos, |bytes|, base)
        && (Safe(c, capacity, base, op) <==> bytes == [] || c.pos < capacity)
      case Read(n) =>
        Room(c, capacity, base, op) == capacity && (Safe(c, capacity, base, op) <==> n > 0 || c.pos < capacity)
      case SetPosition(pos) =>
        FlatStep(c, op) == (if pos > |c.data| then After(c, Thrown) else After(c.(pos := pos), Nothing))
        && Room(c, capacity, base, op) == capacity
        && (Safe(c, capacity, base, op) <==> pos > |c.data| || (c.pos < base && pos < capacity))
      case Clear =>
        FlatStep(c, op) == After(Cursor([], 0), Nothing)
        && Room(c, capacity, base, op) == base && Safe(c, capacity, base, op)
      case ToString =>
        FlatStep(c, op) == After(c, Bytes(Rest(c))) && Room(c, capacity, base, op) == capacity && Safe(c, capacity, base, op)
  {
    hide Wrote, Rest, CapacityFor;
  }

  lemma ReadReply(c: Cursor, capacity: nat, n: nat)
    requires IsCursor(c) && |c.data| <= capacity
    ensures match ReadResult(c, capacity, n)
      case Done(bytes) => FlatStep(c, Read(n)) == After(c.(pos := c.pos + n), Bytes(bytes)) && (n > 0 || c.pos < capacity)
      case OutOfRange => FlatStep(c, Read(n)) == After(c, Thrown) && n > 0
      case NullPointer => n == 0 && c.pos == capacity
  {
    hide Rest;
  }

  // ----- Runs

  function FlatRun(c: Cursor, ops: seq<Op>): Cursor
    requires IsCursor(c)
    decreases |ops|
  {
    if ops == [] then c else FlatRun(FlatStep(c, ops[0]).cursor, ops[1..])
  }

  function FlatReplies(c: Cursor, ops: seq<Op>): seq<Reply>
    requires IsCursor(c)
    decreases |ops|
  {
    if ops == [] then [] else [FlatStep(c, ops[0]).reply] + FlatReplies(FlatStep(c, ops[0]).cursor, ops[1..])
  }

  predicate SafeRun(c: Cursor, capacity: nat, base: nat, ops: seq<Op>)
    requires IsCursor(c)
    decreases |ops|
  {
    ops == [] ||
    (base > 0 && c.pos <= capacity && Safe(c, capacity, base, ops[0])
     && SafeRun(FlatStep(c, ops[0]).cursor, Room(c, capacity, base, ops[0]), base, ops[1..]))
  }

  lemma RunStep(c: Cursor, capacity: nat, base: nat, ops: seq<Op>)
    requires IsCursor(c) && SafeRun(c, capacity, base, ops) && ops != []
    ensures var a, rest := FlatStep(c, ops[0]), ops[1..];
      && base > 0 && c.pos <= capacity && Safe(c, capacity, base, ops[0])
      && SafeRun(a.cursor, Room(c, capacity, base, ops[0]), base, rest)
      && FlatRun(c, ops) == FlatRun(a.cursor, rest)
      && FlatReplies(c, ops) == [a.reply] + FlatReplies(a.cursor, rest)
  {
    hide FlatStep, Safe, Room;
  }

  /** A safe run hands back what the flat sequence does and ends where it does. */
  method Run(b: ByteArray, ops: seq<Op>) returns (replies: seq<Reply>)
    requires Ready(b) && SafeRun(b.Value(), b.capacity, b.baseSize, ops)
    modifies b.Objects()
    ensures b.littleEndian == old(b.littleEndian)
    ensures Ready(b) && replies == FlatReplies(old(b.Value()), ops) && b.Value() == FlatRun(old(b.Value()), ops)
    decreases |ops|
  {
    hide *;
    ReadyIs(b);
    b.ValidIs();
    if ops == [] {
      RunEnds(b.Value());
      return [];
    }
    RunStep(b.Value(), b.capacity, b.baseSize, ops);
    var reply := Step(b, ops[0]);
    ReadyIs(b);
    b.ValidIs();
    var rest := Run(b, ops[1..]);
    replies := [reply] + rest;
  }

  lemma RunEnds(c: Cursor)
    requires IsCursor(c)
    ensures FlatRun(c, []) == c && FlatReplies(c, []) == []
  {
  }

  // ----- The guards are needed

  /** With its block full, a new buffer can neither take more, nor read nothing, nor go back. */
  method WithBlockFull(base: nat, data: seq<byte>, op: Op) returns (buffer: ByteArray, reply: Reply)
    requires base > 0 && |data| == base
    requires (op.Write? && op.bytes != []) || op == Read(0) || (op.SetPosition? && op.pos <= base)
    ensures reply == Crashed || !Ready(buffer)
  {
    hide *;
    buffer := new ByteArray(base);
    AllNew(buffer);
    ReadyIs(buffer);
    BlockFull(base, data, op);
    reply := Step(buffer, Write(data));
    reply := Step(buffer, op);
  }

  /** Nor can it hand out ranges to write to up to its very end. */
  method RangesToTheEnd(base: nat) returns (buffer: ByteArray, r: Access<seq<Slice>>)
    requires base > 0
    ensures r.NullPointer?
  {
    hide *;
    buffer := new ByteArray(base);
    AllNew(buffer);
    buffer.ValidIs();
    EnoughRoom(base);
    ghost var at;
    r, at := buffer.AddWriteBuffers(base);
  }

  lemma EnoughRoom(base: nat)
    requires base > 0
    ensures CapacityFor(base, 0, base, base) == base && Cursor([], 0).pos == 0
  {
  }

  lemma AllNew(b: ByteArray)
    ensures forall o <- b.Objects() :: o == b || o in b.nodes || o in b.Arrays()
  {
  }

  lemma BlockFull(base: nat, data: seq<byte>, op: Op)
    requires base > 0 && |data| == base
    requires (op.Write? && op.bytes != []) || op == Read(0) || (op.SetPosition? && op.pos <= base)
    ensures var c := Cursor([], 0);
      && Safe(c, base, base, Write(data)) && FlatStep(c, Write(data)).cursor == Cursor(data, base)
      && Room(c, base, base, Write(data)) == base && !Safe(Cursor(data, base), base, base, op)
  {
  }
}
