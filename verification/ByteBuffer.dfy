/** The byte buffer on the heap: a chain of blocks of one size, and a cursor into it that is
    kept twice, as a position and as the block the position is in. */
module ByteBuffer {
  import opened ByteArrays

  class Node {
    const ptr: array<byte>
    var next: Node?

    constructor (n: nat)
      ensures fresh(ptr) && ptr.Length == n && next == null
    {
      ptr := new byte[n];
      next := null;
    }
  }

  ghost function Contents(nodes: seq<Node>): (bs: seq<seq<byte>>)
    reads set n | n in nodes :: n.ptr
    ensures |bs| == |nodes| && forall i :: 0 <= i < |nodes| ==> bs[i] == nodes[i].ptr[..]
  {
    if nodes == [] then []
    else
      var n := |nodes| - 1;
      assert nodes[n] in nodes && forall m <- nodes[..n] :: m in nodes;
      Contents(nodes[..n]) + [nodes[n].ptr[..]]
  }

  /** The nodes of a chain in their order, each with a block of its own. */
  ghost predicate IsChain(nodes: seq<Node>, base: nat)
    reads nodes
  {
    && base > 0 && |nodes| > 0
    && (forall i :: 0 <= i < |nodes| ==> nodes[i].ptr.Length == base)
    && (forall i :: 0 <= i < |nodes| ==> nodes[i].next == NodeAt(nodes, i + 1))
    && (forall i, j :: 0 <= i < j < |nodes| ==> nodes[i] != nodes[j] && nodes[i].ptr != nodes[j].ptr)
  }

  /** Block `k`, or null just behind the last. */
  ghost function NodeAt(nodes: seq<Node>, k: nat): Node? {
    if k < |nodes| then nodes[k] else null
  }

  class ByteArray {
    const baseSize: nat
    var position: nat
    var capacity: nat
    var size: nat
    var littleEndian: bool
    var root: Node
    var curr: Node?
    ghost var nodes: seq<Node>

    ghost predicate Chained()
      reads this, nodes
    {
      && IsChain(nodes, baseSize) && root == nodes[0]
      && capacity == Start(|nodes|, baseSize)
    }

    ghost predicate Valid()
      reads this, nodes
    {
      Chained() && position <= size <= capacity
    }

    /** The current block agrees with the position. */
    ghost predicate Synced()
      reads this
    {
      baseSize > 0 && curr == NodeAt(nodes, BlockOf(position, baseSize))
    }

    ghost function Arrays(): set<array<byte>>
      reads this
    {
      set n | n in nodes :: n.ptr
    }

    /** Everything an operation may change. */
    ghost function Objects(): set<object>
      reads this
    {
      var blocks: set<object> := set n: Node | n in nodes;
      {this} + blocks + Arrays()
    }

    /** All bytes of all blocks. */
    ghost function Memory(): (m: seq<byte>)
      reads this, nodes, Arrays()
      requires Chained()
      ensures |m| == capacity
    {
      MemoryLength(nodes, baseSize);
      Flat(Contents(nodes))
    }

    /** What the buffer stands for: its data and its position. */
    ghost function Value(): (c: Cursor)
      reads this, nodes, Arrays()
      requires Valid()
      ensures IsCursor(c)
    {
      Cursor(Memory()[..size], position)
    }

    constructor (base: nat)
      requires base > 0
      ensures Valid() && Synced() && fresh(nodes) && fresh(Arrays())
      ensures baseSize == base && capacity == base && Value() == Cursor([], 0)
    {
      baseSize := base;
      position, capacity, size, littleEndian := 0, base, 0, true;
      var node := new Node(base);
      root, curr, nodes := node, node, [node];
    }

    /** One more block behind the last node. */
    method Append(tmp: Node) returns (node: Node)
      requires Valid() && tmp == nodes[|nodes| - 1]
      modifies this`capacity, this`nodes, tmp`next
      ensures Valid() && fresh(node) && fresh(node.ptr) && nodes == old(nodes) + [node]
      ensures capacity == old(capacity) + baseSize
      ensures old(Memory()) <= Memory()
    {
      hide *;
      ValidIs();
      ghost var was := nodes;
      node := Link(tmp, was, baseSize);
      nodes := nodes + [node];
      capacity := capacity + baseSize;
      StartNext(|was|, baseSize);
      IsValid();
      ValidIs();
      MemoryGrows(was, node);
    }

    method Last() returns (tmp: Node)
      requires Valid()
      ensures |nodes| > 0 && tmp == nodes[|nodes| - 1]
    {
      tmp := root;
      ghost var i := 0;
      while tmp.next != null
        invariant i < |nodes| && tmp == nodes[i]
        decreases |nodes| - i
      {
        tmp, i := tmp.next, i + 1;
      }
    }

    /** `count` more blocks at the end, and the node they are behind. */
    method Grow(count: nat) returns (first: Node)
      requires Valid()
      modifies this`capacity, this`nodes, nodes
      ensures Valid() && capacity == old(capacity) + Start(count, baseSize)
      ensures |old(nodes)| > 0 && first == old(nodes)[|old(nodes)| - 1]
      ensures old(nodes) <= nodes && forall n <- nodes[|old(nodes)|..] :: fresh(n) && fresh(n.ptr)
      ensures old(Memory()) <= Memory()
    {
      hide *;
      ValidIs();
      ghost var m, k := Memory(), |nodes|;
      var tmp := Last();
      ValidIs();
      first := tmp;
      var i := 0;
      StartNext(0, baseSize);
      while i < count
        invariant i <= count && Valid() && Chained() && |nodes| > 0 && tmp == nodes[|nodes| - 1]
        invariant old(nodes) <= nodes && forall n <- nodes[k..] :: fresh(n) && fresh(n.ptr)
        invariant tmp in old(nodes) || fresh(tmp)
        invariant capacity == old(capacity) + Start(i, baseSize) && m <= Memory()
      {
        ghost var was := nodes;
        tmp := Append(tmp);
        ValidIs();
        assert nodes[k..] == was[k..] + [tmp];
        StartNext(i, baseSize);
        i := i + 1;
      }
    }

    /** Room for `n` more bytes.  When there was none left at all, the current block is set to
        the block before the first new one. */
    method AddCapacity(n: nat)
      requires Valid()
      modifies this`capacity, this`curr, this`nodes, nodes
      ensures Valid() && n <= capacity - position && capacity == CapacityFor(old(capacity), position, n, baseSize)
      ensures Tight(old(capacity) - position, capacity - old(capacity), n, baseSize)
      ensures old(nodes) <= nodes && forall n <- nodes[|old(nodes)|..] :: fresh(n) && fresh(n.ptr)
      ensures old(Memory()) <= Memory()
      ensures n <= old(capacity) - position ==> nodes == old(nodes) && curr == old(curr)
      ensures n > old(capacity) - position > 0 ==> curr == old(curr)
      ensures n > old(capacity) - position == 0 ==> |old(nodes)| > 0 && curr == old(nodes)[|old(nodes)| - 1]
    {
      hide *;
      ValidIs();
      EnoughLeft(capacity - position, n, baseSize);
      CapacityIs(capacity, position, n, baseSize);
      if n == 0 { return; }
      var oldCap := capacity - position;
      if oldCap >= n { return; }
      Enough(n, baseSize, oldCap);
      NotTooMuch(n, baseSize, oldCap);
      var first := Grow(BlocksFor(n, baseSize, oldCap));
      ValidIs();
      if oldCap == 0 { curr := first; }
      IsValid();
      ValidIs();
    }
  
    /** memcpy into block `k`. */
    method PutChunk(ghost k: nat, node: Node, npos: nat, chunk: seq<byte>)
      requires Chained() && k < |nodes| && node == nodes[k] && npos + |chunk| <= baseSize
      modifies node.ptr
      ensures Start(k, baseSize) + npos + |chunk| <= capacity
      ensures Memory() == Patch(old(Memory()), Start(k, baseSize) + npos, chunk)
    {
      hide Start, Flat, Patch, Contents, IsChain;
      MemoryLength(nodes, baseSize);
      FlatPatch(Contents(nodes), k, baseSize, npos, chunk);
      PatchBlock(nodes, k, baseSize, node, npos, chunk);
    }

    /** Bytes for one block; the current block moves on when it is full. */
    method WriteChunk(ghost k: nat, npos: nat, chunk: seq<byte>)
      requires Chained() && k < |nodes| && curr == nodes[k] && npos + |chunk| <= baseSize
      modifies this`position, this`curr, curr.ptr
      ensures position == old(position) + |chunk|
      ensures curr == NodeAt(nodes, if npos + |chunk| == baseSize then k + 1 else k)
      ensures Start(k, baseSize) + npos + |chunk| <= capacity
      ensures Memory() == Patch(old(Memory()), Start(k, baseSize) + npos, chunk)
    {
      hide Start, Flat, Contents, Patch, IsChain;
      InChain(nodes, baseSize, k);
      PutChunk(k, curr, npos, chunk);
      if npos + |chunk| == curr.ptr.Length { curr := curr.next; }
      position := position + |chunk|;
    }

    /** The loop of `write`: the bytes go to address `at`, which the current block is at. */
    method WriteChunks(buf: seq<byte>, ghost at: nat)
      requires Chained() && baseSize > 0 && buf != []
      requires OffsetIn(at, baseSize) == OffsetIn(position, baseSize)
      requires curr == NodeAt(nodes, BlockOf(at, baseSize)) && at + |buf| <= capacity
      modifies this`position, this`curr, Arrays()
      ensures Chained() && position == old(position) + |buf| && curr == NodeAt(nodes, BlockOf(at + |buf|, baseSize))
      ensures Memory() == Patch(old(Memory()), at, buf) == Flat(Contents(nodes))
    {
      hide IsChain, Start, Flat, Contents, Patch, Memory, BlockOf, OffsetIn;
      var npos: nat := OffsetIn(position, baseSize);
      var ncap := baseSize - npos;
      var bpos: nat, n: nat := 0, |buf|;
      ghost var m := Memory();
      ghost var k := BlockOf(at, baseSize);
      InBlockAt(at, k, baseSize);
      PatchNothing(m, at);
      assert buf[..0] == [];
      while n > 0
        invariant n + bpos == |buf| && position == old(position) + bpos
        invariant n > 0 ==> Start(k, baseSize) + npos == at + bpos && npos + ncap == baseSize && ncap > 0
        invariant n > 0 ==> curr == NodeAt(nodes, k)
        invariant n == 0 ==> curr == NodeAt(nodes, BlockOf(at + |buf|, baseSize))
        invariant Memory() == Patch(m, at, buf[..bpos])
      {
        AddressInChain(nodes, baseSize, k, at + bpos);
        StartNext(k, baseSize);
        var len := if ncap >= n then n else ncap;
        PatchTwice(m, at, buf[..bpos], buf[bpos..bpos + len]);
        assert buf[..bpos] + buf[bpos..bpos + len] == buf[..bpos + len];
        EndsIn(nodes, k, baseSize, npos + len, at + bpos + len);
        WriteChunk(k, npos, buf[bpos..bpos + len]);
        bpos, n := bpos + len, n - len;
        if n > 0 {
          AddressInChain(nodes, baseSize, k + 1, at + bpos);
          ncap, npos, k := curr.ptr.Length, 0, k + 1;
        }
      }
      assert buf[..|buf|] == buf;
      MemoryIs();
    }
  
    /** Room for the bytes to be written, and the address they will go to. */
    method MakeRoom(n: nat) returns (ghost at: nat)
      requires Valid() && Synced() && n > 0
      modifies this`capacity, this`curr, this`nodes, nodes
      ensures Valid() && capacity == CapacityFor(old(capacity), position, n, baseSize)
      ensures old(nodes) <= nodes && forall n <- nodes[|old(nodes)|..] :: fresh(n) && fresh(n.ptr)
      ensures forall a <- Arrays() :: a in old(Arrays()) || fresh(a)
      ensures old(Memory()) <= Memory()
      ensures at + baseSize == position || old(capacity) > position
      ensures at == position || old(capacity) == position
      ensures OffsetIn(at, baseSize) == OffsetIn(position, baseSize) && at + n <= capacity && position + n <= capacity
      ensures curr == NodeAt(nodes, BlockOf(at, baseSize))
    {
      hide *;
      ValidIs();
      SyncedIs();
      ArraysAre();
      ghost var cap, nodes0 := capacity, nodes;
      AddCapacity(n);
      ArraysAre();
      assert forall n <- nodes :: n in nodes0 || n in nodes[|nodes0|..];
      ValidIs();
      at := position;
      if cap == position {
        LastBlock(nodes, |nodes0|, baseSize, position);
        at := position - baseSize;
      } else {
        StillThere(nodes0, nodes, baseSize, position);
      }
    }

    method Write(buf: seq<byte>)
      requires Valid() && Synced()
      modifies this`position, this`size, this`capacity, this`curr, this`nodes, nodes, Arrays()
      ensures Valid() && position == old(position) + |buf|
      ensures capacity == CapacityFor(old(capacity), old(position), |buf|, baseSize)
      ensures old(nodes) <= nodes && forall n <- nodes[|old(nodes)|..] :: fresh(n) && fresh(n.ptr)
      ensures old(capacity) > old(position) || buf == [] ==> Synced() && Value() == Wrote(old(Value()), buf)
      // as written, with no room left at all the bytes go one block too early
      ensures old(capacity) == old(position) && buf != [] ==>
        && baseSize <= old(position) && !Synced()
        && Memory()[..position - baseSize] == old(Memory())[..old(position) - baseSize] + buf
    {
      hide *;
      ValidIs();
      if buf == [] {
        NoneWritten(Value());
        NoneNeeded(capacity, position, baseSize);
        return;
      }
      ghost var before, cap, pos, data := Memory(), capacity, position, size;
      ghost var at := MakeRoom(|buf|);
      ValidIs();
      ghost var m := Memory();
      WriteChunks(buf, at);
      if position > size { size := position; }
      IsValid();
      SyncedIs();
      ValueIs();
      MemoryIs();
      if cap == pos {
        TooEarly(before, m, at, baseSize, buf);
        NotSynced(nodes, position, baseSize);
      } else {
        PatchIsWrote(before, m, data, pos, buf);
      }
    }

    /** The loop of both `read`s: `n` bytes from the position on, and the block behind them. */
    method ReadChunks(n: nat, start: Node) returns (out: seq<byte>, next: Node?)
      requires Valid() && Synced() && curr == start && n <= size - position
      ensures out == Rest(Value())[..n]
      ensures next == NodeAt(nodes, BlockOf(position + n, baseSize))
    {
      hide *;
      ValidIs();
      SyncedIs();
      next := start;
      var npos: nat := OffsetIn(position, baseSize);
      var k := BlockOf(position, baseSize);
      InBlockAt(position, k, baseSize);
      ghost var at, m := position, Flat(Contents(nodes));
      CurrIn(nodes, k, start);
      InChain(nodes, baseSize, k);
      var ncap: nat := next.ptr.Length - npos;
      var bpos: nat, left: nat := 0, n;
      out := [];
      assert m[at..at] == [];
      while left > 0
        invariant left + bpos == n && out == m[at..at + bpos] && m == Flat(Contents(nodes))
        invariant left > 0 ==> Start(k, baseSize) + npos == at + bpos && npos + ncap == baseSize && ncap > 0
        invariant left > 0 ==> next == NodeAt(nodes, k)
        invariant left == 0 ==> next == NodeAt(nodes, BlockOf(at + n, baseSize))
      {
        AddressInChain(nodes, baseSize, k, at + bpos);
        NodeIs(nodes, k);
        InChain(nodes, baseSize, k);
        var len := if ncap >= left then left else ncap;
        OutGrows(nodes, k, baseSize, npos, len, m, at, at + bpos);
        StartNext(k, baseSize);
        EndsIn(nodes, k, baseSize, npos + len, at + bpos + len);
        out := out + next.ptr[npos..npos + len];
        bpos, left := bpos + len, left - len;
        if npos + len == next.ptr.Length { next := next.next; }
        if left > 0 {
          AddressInChain(nodes, baseSize, k + 1, at + bpos);
          NodeIs(nodes, k + 1);
          ncap, npos, k := next.ptr.Length, 0, k + 1;
        }
      }
      ValidIs();
      RestIs(m, size, at, n);
    }

    /** `read(buf, size)` */
    method Read(n: nat) returns (r: Access<seq<byte>>)
      requires Valid() && Synced()
      modifies this`position, this`curr
      ensures Valid() && Synced() && Memory() == old(Memory())
      ensures r == ReadResult(old(Value()), old(capacity), n)
      ensures Value() == old(Value()).(pos := old(position) + if r.Done? then n else 0)
    {
      hide *;
      ValidIs();
      ghost var c := Value();
      ReadResultIs(c, capacity, n);
      if n > size - position { return OutOfRange; }
      NullAtEnd();
      if curr == null { return NullPointer; }
      var out, next := ReadChunks(n, curr);
      ValidIs();
      position, curr := position + n, next;
      IsValid();
      ValidIs();
      SyncedIs();
      r := Done(out);
    }

    /** `read(buf, size, pos)`, which counts `pos` up but reads from the position all the same. */
    method ReadAt(n: nat, pos: nat) returns (r: Access<seq<byte>>)
      requires Valid() && Synced()
      ensures r == ReadResult(Value(), capacity, n)
    {
      hide *;
      ValidIs();
      ghost var c := Value();
      ReadResultIs(c, capacity, n);
      if n > size - position { return OutOfRange; }
      NullAtEnd();
      if curr == null { return NullPointer; }
      var out, next := ReadChunks(n, curr);
      ValidIs();
      r := Done(out);
    }

    method ToString() returns (r: Access<seq<byte>>)
      requires Valid() && Synced()
      ensures r == Done(Rest(Value()))
    {
      hide *;
      ValidIs();
      WholeRest(Memory(), size, position, capacity);
      if size - position == 0 { return Done([]); }
      r := ReadAt(size - position, position);
      ValidIs();
    }

    /** It walks on from the block it is at, as if that were the first one. */
    method SetPosition(pos: nat) returns (r: Access<()>)
      requires Valid() && Synced()
      modifies this`position, this`curr
      ensures r.OutOfRange? <==> pos > size
      ensures r.NullPointer? <==>
        pos <= size && BlockOf(old(position), baseSize) + BlockOf(pos, baseSize) >= |nodes|
      ensures r.OutOfRange? ==> Valid() && Synced() && Value() == old(Value())
      ensures r.Done? ==> Valid() && Value() == old(Value()).(pos := pos)
      ensures r.Done? ==> (Synced() <==> BlockOf(old(position), baseSize) == 0)
    {
      hide *;
      ValidIs();
      SyncedIs();
      if pos > size { return OutOfRange; }
      ghost var k0, k, k1 := BlockOf(position, baseSize), 0, BlockOf(pos, baseSize);
      InBlockAt(pos, k1, baseSize);
      StartNext(0, baseSize);
      position := pos;
      var left: nat := pos;
      while true
        invariant position == pos && curr == NodeAt(nodes, k0 + k) && Start(k, baseSize) + left == pos && k <= k1
        decreases left
      {
        NodeIs(nodes, k0 + k);
        EndIsNull(nodes, k0 + k);
        if curr == null { return NullPointer; }
        InChain(nodes, baseSize, k0 + k);
        StartNext(k, baseSize);
        InBlockAt(pos, k, baseSize);
        InBlockAt(pos, k + 1, baseSize);
        if left < curr.ptr.Length { break; }
        left, curr, k := left - curr.ptr.Length, curr.next, k + 1;
      }
      IsValid();
      ValidIs();
      SyncedIs();
      OneNode(nodes, baseSize, k0 + k1, k1);
      r := Done(());
    }

    method Clear()
      requires Valid()
      modifies this`position, this`size, this`capacity, this`curr, this`nodes, root`next
      ensures Valid() && Synced() && Value() == Cursor([], 0) && capacity == baseSize
      ensures old(nodes) != [] && nodes == [old(nodes)[0]]
    {
      hide *;
      ValidIs();
      OneBlock(nodes, baseSize);
      position, size, capacity := 0, 0, baseSize;
      curr := root;
      root.next := null;
      nodes := [root];
      OnlyRoot(root, baseSize);
      IsValid();
      ValidIs();
      SyncedIs();
    }

    /** The ranges that hold the next bytes to be read; the cursor stays where it is. */
    method AddReadBuffers(len: nat) returns (iovs: seq<Slice>, total: nat)
      requires Valid() && Synced()
      ensures total == if len > size - position then size - position else len
      ensures Lie(iovs, nodes, baseSize, position) && Total(iovs) == total
      ensures Gathered(iovs) == Rest(Value())[..total]
    {
      hide *;
      ValidIs();
      SyncedIs();
      NoSlices(nodes, baseSize, position);
      RestIs(Memory(), size, position, 0);
      assert Memory()[position..position] == [] && Rest(Value())[..0] == [];
      iovs := [];
      total := if len > size - position then size - position else len;
      if total == 0 { return; }
      NullAtEnd();
      var node: Node := curr;
      ghost var at: nat, k: nat := position, BlockOf(position, baseSize);
      CurrIn(nodes, k, node);
      InChain(nodes, baseSize, k);
      InBlockAt(position, k, baseSize);
      var npos: nat := OffsetIn(position, baseSize);
      var ncap: nat := node.ptr.Length - npos;
      var left: nat := total;
      while left > 0
        invariant left <= total && Lie(iovs, nodes, baseSize, at) && Total(iovs) == total - left
        invariant left > 0 ==> k < |nodes| && node == nodes[k] && Start(k, baseSize) + npos == at + (total - left)
        invariant left > 0 ==> npos + ncap == baseSize && ncap > 0
      {
        InChain(nodes, baseSize, k);
        StartNext(k, baseSize);
        if ncap >= left {
          OneMoreSlice(iovs, nodes, baseSize, at, k, npos, left);
          iovs, left := iovs + [Slice(node, npos, left)], 0;
        } else {
          OneMoreSlice(iovs, nodes, baseSize, at, k, npos, ncap);
          iovs, left := iovs + [Slice(node, npos, ncap)], left - ncap;
          AddressInChain(nodes, baseSize, k + 1, at + (total - left));
          NodeIs(nodes, k + 1);
          node, k := node.next, k + 1;
          ncap, npos := node.ptr.Length, 0;
        }
      }
      GatheredIs(iovs, nodes, baseSize, at);
      ValidIs();
      RestIs(Memory(), size, at, total);
    }

    /** The ranges the next bytes may be put in by someone else.  It looks at the size of the
        block behind a range that fills its block, and adds the length to the size whether or
        not the range lies behind the data already there. */
    method AddWriteBuffers(len: nat) returns (r: Access<seq<Slice>>, ghost at: nat)
      requires Valid() && Synced()
      modifies this`size, this`capacity, this`curr, this`nodes, nodes
      ensures Chained() && capacity == CapacityFor(old(capacity), position, len, baseSize)
      ensures old(Memory()) <= Memory()
      ensures at == if len > 0 && old(capacity) == position then position - baseSize else position
      ensures r.NullPointer? <==> len > 0 && at + len == capacity
      ensures r.Done? ==> Lie(r.value, nodes, baseSize, at) && Total(r.value) == len && size == old(size) + len
      ensures !r.OutOfRange?
    {
      hide *;
      ValidIs();
      at := position;
      NoSlices(nodes, baseSize, at);
      NoneNeeded(capacity, position, baseSize);
      if len == 0 { return Done([]), at; }
      at := MakeRoom(len);
      ValidIs();
      NoSlices(nodes, baseSize, at);
      ghost var k: nat := BlockOf(at, baseSize);
      InBlockAt(at, k, baseSize);
      AddressInChain(nodes, baseSize, k, at);
      NodeIs(nodes, k);
      InChain(nodes, baseSize, k);
      var node := curr;
      var npos: nat := OffsetIn(position, baseSize);
      var ncap: nat := node.ptr.Length - npos;
      var left: nat := len;
      var iovs: seq<Slice> := [];
      while left > 0
        modifies this`size
        invariant left <= len && Lie(iovs, nodes, baseSize, at) && Total(iovs) == len - left
        invariant size == old(size) + (len - left)
        invariant left > 0 ==> Start(k, baseSize) + npos == at + (len - left)
        invariant left == 0 ==> at + len != capacity
        invariant k < |nodes| && node == nodes[k] && npos + ncap == baseSize && ncap > 0
      {
        InChain(nodes, baseSize, k);
        StartNext(k, baseSize);
        if ncap > left {
          OneMoreSlice(iovs, nodes, baseSize, at, k, npos, left);
          NotTheEnd(nodes, baseSize, k, npos + left);
          iovs, size, left := iovs + [Slice(node, npos, left)], size + left, 0;
        } else {
          OneMoreSlice(iovs, nodes, baseSize, at, k, npos, ncap);
          NodeIs(nodes, k + 1);
          EndIsNull(nodes, k + 1);
          iovs, size, left := iovs + [Slice(node, npos, ncap)], size + ncap, left - ncap;
          if node.next == null {
            TheEnd(nodes, baseSize, k);
            StillChained();
            return NullPointer, at;
          }
          NotTheEnd(nodes, baseSize, k + 1, 0);
          node, k := node.next, k + 1;
          InChain(nodes, baseSize, k);
          ncap, npos := node.ptr.Length, 0;
        }
      }
      StillChained();
      r := Done(iovs);
    }

    lemma StillChained()
      requires IsChain(nodes, baseSize) && |nodes| > 0 && root == nodes[0] && capacity == Start(|nodes|, baseSize)
      ensures Chained() && Memory() == Flat(Contents(nodes))
    {
      hide IsChain, Start, Flat, Contents;
    }

    /** What a scattering reader does with the ranges it is given. */
    method Scatter(iovs: seq<Slice>, data: seq<byte>, ghost at: nat)
      requires Chained() && Lie(iovs, nodes, baseSize, at) && |data| == Total(iovs) && at <= capacity
      modifies Arrays()
      ensures at + |data| <= capacity && Memory() == Patch(old(Memory()), at, data)
    {
      hide *;
      ghost var m := Memory();
      NoSlices(nodes, baseSize, at);
      PatchNothing(m, at);
      var done: nat := 0;
      assert iovs[..0] == [] && data[..0] == [];
      for i := 0 to |iovs|
        invariant Chained() && Total(iovs[..i]) == done && Lie(iovs[..i], nodes, baseSize, at)
        invariant done <= |data| && at + done <= capacity && Memory() == Patch(m, at, data[..done])
      {
        NextSlice(iovs, i, nodes, baseSize, at);
        var v := iovs[i];
        ghost var k :| 0 <= k < |nodes| && nodes[k] == v.node && Start(k, baseSize) + v.off == at + done;
        ArraysAre();
        assert v.node in nodes;
        PutChunk(k, v.node, v.off, data[done..done + v.len]);
        PatchTwice(m, at, data[..done], data[done..done + v.len]);
        assert data[..done] + data[done..done + v.len] == data[..done + v.len];
        done := done + v.len;
      }
      assert iovs[..|iovs|] == iovs && data[..|data|] == data;
    }

    lemma NullAtEnd()
      requires Valid() && Synced()
      ensures curr == null <==> position == capacity
    {
      hide *;
      ValidIs();
      SyncedIs();
      InBlockAt(position, |nodes|, baseSize);
      NodeIs(nodes, BlockOf(position, baseSize));
      EndIsNull(nodes, BlockOf(position, baseSize));
    }

    lemma ValidIs()
      requires Valid()
      ensures Chained() && position <= size <= capacity == Start(|nodes|, baseSize)
      ensures IsChain(nodes, baseSize) && |nodes| > 0 && baseSize > 0 && root == nodes[0]
      ensures Value() == Cursor(Memory()[..size], position) && Memory() == Flat(Contents(nodes))
    {
      hide IsChain, Start, Flat, Contents;
      MemoryLength(nodes, baseSize);
    }

    lemma ArraysAre()
      ensures Arrays() == set n | n in nodes :: n.ptr
    {
    }

    lemma IsValid()
      requires IsChain(nodes, baseSize) && |nodes| > 0 && root == nodes[0] && capacity == Start(|nodes|, baseSize)
      requires position <= size <= capacity
      ensures Valid()
    {
      hide IsChain, Start;
    }

    lemma MemoryIs()
      requires Chained()
      ensures Memory() == Flat(Contents(nodes))
    {
      hide IsChain, Start, Flat, Contents;
    }

    lemma ValueIs()
      requires Valid()
      ensures Chained() && Value() == Cursor(Memory()[..size], position)
    {
      hide Memory, Chained;
    }

    lemma SyncedIs()
      requires baseSize > 0
      ensures Synced() <==> curr == NodeAt(nodes, BlockOf(position, baseSize))
    {
    }
  }

  /** What becomes of a call that follows pointers and checks a range. */
  datatype Access<T> = Done(value: T) | OutOfRange | NullPointer

  /** Reading at the end of the last block follows a null pointer, for no bytes. */
  function ReadResult(c: Cursor, capacity: nat, n: nat): Access<seq<byte>>
    requires IsCursor(c)
  {
    if n > |c.data| - c.pos then OutOfRange
    else if n == 0 && c.pos == capacity then NullPointer
    else Done(Rest(c)[..n])
  }

  // ----- Ranges of blocks

  datatype Slice = Slice(node: Node, off: nat, len: nat)

  function Total(iovs: seq<Slice>): nat {
    if iovs == [] then 0 else Total(iovs[..|iovs| - 1]) + iovs[|iovs| - 1].len
  }

  /** A range within one block, at `address` in the whole memory. */
  ghost predicate LiesAt(iov: Slice, nodes: seq<Node>, base: nat, address: nat) {
    0 < iov.len && iov.off + iov.len <= base
    && exists k :: 0 <= k < |nodes| && nodes[k] == iov.node && Start(k, base) + iov.off == address
  }

  /** Ranges that follow one another from `at` on, each within one block. */
  ghost predicate Lie(iovs: seq<Slice>, nodes: seq<Node>, base: nat, at: nat) {
    iovs == [] ||
    (var n := |iovs| - 1;
     Lie(iovs[..n], nodes, base, at) && LiesAt(iovs[n], nodes, base, at + Total(iovs[..n])))
  }

  ghost function Gathered(iovs: seq<Slice>): seq<byte>
    reads set v | v in iovs :: v.node.ptr
  {
    if iovs == [] then []
    else
      var n := |iovs| - 1;
      assert iovs[n] in iovs && forall v <- iovs[..n] :: v in iovs;
      var v := iovs[n];
      Gathered(iovs[..n]) + (if v.off + v.len <= v.node.ptr.Length then v.node.ptr[v.off..v.off + v.len] else [])
  }

  lemma NoSlices(nodes: seq<Node>, base: nat, at: nat)
    ensures Lie([], nodes, base, at) && Total([]) == 0 && Gathered([]) == []
  {
  }

  lemma OneMoreSlice(iovs: seq<Slice>, nodes: seq<Node>, base: nat, at: nat, k: nat, off: nat, len: nat)
    requires Lie(iovs, nodes, base, at) && k < |nodes| && Start(k, base) + off == at + Total(iovs)
    requires 0 < len && off + len <= base
    ensures var more := iovs + [Slice(nodes[k], off, len)];
      Lie(more, nodes, base, at) && Total(more) == Total(iovs) + len
  {
    var more := iovs + [Slice(nodes[k], off, len)];
    assert more[..|more| - 1] == iovs;
    hide Start;
  }

  /** Gathering the ranges reads the memory. */
  lemma {:induction false} GatheredIs(iovs: seq<Slice>, nodes: seq<Node>, base: nat, at: nat)
    requires IsChain(nodes, base) && Lie(iovs, nodes, base, at) && at <= |Flat(Contents(nodes))|
    ensures at + Total(iovs) <= |Flat(Contents(nodes))|
    ensures Gathered(iovs) == Flat(Contents(nodes))[at..at + Total(iovs)]
    decreases |iovs|
  {
    hide Start, Flat, Contents, IsChain;
    if iovs != [] {
      var n := |iovs| - 1;
      GatheredIs(iovs[..n], nodes, base, at);
      var k :| 0 <= k < |nodes| && nodes[k] == iovs[n].node && Start(k, base) + iovs[n].off == at + Total(iovs[..n]);
      OutGrows(nodes, k, base, iovs[n].off, iovs[n].len, Flat(Contents(nodes)), at, at + Total(iovs[..n]));
    }
  }

  lemma {:induction false} NextSlice(iovs: seq<Slice>, i: nat, nodes: seq<Node>, base: nat, at: nat)
    requires i < |iovs| && Lie(iovs, nodes, base, at)
    ensures Lie(iovs[..i + 1], nodes, base, at) && LiesAt(iovs[i], nodes, base, at + Total(iovs[..i]))
    ensures Total(iovs[..i + 1]) == Total(iovs[..i]) + iovs[i].len <= Total(iovs)
    ensures 0 < iovs[i].len && iovs[i].off + iovs[i].len <= base
    ensures exists k :: 0 <= k < |nodes| && nodes[k] == iovs[i].node && Start(k, base) + iovs[i].off == at + Total(iovs[..i])
    decreases |iovs|
  {
    hide Start;
    assert iovs[..i + 1][..i] == iovs[..i];
    if i + 1 == |iovs| {
      assert iovs[..i + 1] == iovs;
    } else {
      var n := |iovs| - 1;
      assert iovs[..n][..i] == iovs[..i] && iovs[..n][..i + 1] == iovs[..i + 1];
      NextSlice(iovs[..n], i, nodes, base, at);
    }
  }

  lemma NotTheEnd(nodes: seq<Node>, base: nat, k: nat, off: nat)
    requires k < |nodes| && off < base
    ensures Start(k, base) + off < Start(|nodes|, base)
  {
    StartOrder(k, |nodes|, base);
    hide Start;
  }

  lemma TheEnd(nodes: seq<Node>, base: nat, k: nat)
    requires k < |nodes| && k + 1 >= |nodes|
    ensures Start(k, base) + base == Start(|nodes|, base)
  {
    StartNext(k, base);
    hide Start;
  }

  lemma ReadResultIs(c: Cursor, capacity: nat, n: nat)
    requires IsCursor(c) && |c.data| <= capacity
    ensures ReadResult(c, capacity, n) ==
      if n > |c.data| - c.pos then OutOfRange
      else if c.pos == capacity then NullPointer
      else Done(Rest(c)[..n])
  {
  }

  lemma WholeRest(m: seq<byte>, size: nat, pos: nat, capacity: nat)
    requires pos <= size <= |m| == capacity
    ensures var c := Cursor(m[..size], pos);
      && |Rest(c)| == size - pos && (size == pos ==> Rest(c) == [])
      && (size > pos ==> ReadResult(c, capacity, size - pos) == Done(Rest(c)))
  {
    var c := Cursor(m[..size], pos);
    assert Rest(c)[..size - pos] == Rest(c);
  }

  lemma EndIsNull(nodes: seq<Node>, k: nat)
    ensures NodeAt(nodes, k) == null <==> k >= |nodes|
  {
  }

  lemma OneNode(nodes: seq<Node>, base: nat, j: nat, k: nat)
    requires IsChain(nodes, base) && j < |nodes|
    ensures NodeAt(nodes, j) == NodeAt(nodes, k) <==> j == k
  {
  }

  lemma OneBlock(nodes: seq<Node>, base: nat)
    requires IsChain(nodes, base)
    ensures nodes[0].ptr.Length == base && BlockOf(0, base) == 0 && Start(1, base) == base
    ensures forall root :: NodeAt([root], 0) == root
  {
  }

  lemma OnlyRoot(root: Node, base: nat)
    requires base > 0 && root.ptr.Length == base && root.next == null
    ensures IsChain([root], base)
  {
  }

  lemma NodeIs(nodes: seq<Node>, k: nat)
    ensures k < |nodes| ==> NodeAt(nodes, k) == nodes[k]
  {
  }

  lemma CurrIn(nodes: seq<Node>, k: nat, curr: Node)
    requires NodeAt(nodes, k) == curr
    ensures k < |nodes| && nodes[k] == curr
  {
  }

  lemma Adjacent(m: seq<byte>, a: nat, b: nat, c: nat)
    requires a <= b <= c <= |m|
    ensures m[a..b] + m[b..c] == m[a..c]
  {
  }

  /** Bytes of a block are bytes of the memory. */
  lemma ChunkIs(nodes: seq<Node>, k: nat, base: nat, npos: nat, n: nat)
    requires IsChain(nodes, base) && k < |nodes| && npos + n <= base
    ensures nodes[k].ptr.Length == base && Start(k, base) + npos + n <= |Flat(Contents(nodes))|
    ensures nodes[k].ptr[npos..npos + n] == Flat(Contents(nodes))[Start(k, base) + npos..Start(k, base) + npos + n]
  {
    hide Flat, Start;
    MemoryLength(nodes, base);
    FlatSlice(Contents(nodes), k, base, npos, n);
    assert nodes[k].ptr[..][npos..npos + n] == nodes[k].ptr[npos..npos + n];
  }

  lemma OutGrows(nodes: seq<Node>, k: nat, base: nat, npos: nat, n: nat, m: seq<byte>, at: nat, to: nat)
    requires IsChain(nodes, base) && k < |nodes| && npos + n <= base
    requires m == Flat(Contents(nodes)) && Start(k, base) + npos == to >= at
    ensures nodes[k].ptr.Length == base && to + n <= |m|
    ensures m[at..to] + nodes[k].ptr[npos..npos + n] == m[at..to + n]
  {
    hide Flat, Start, IsChain;
    ChunkIs(nodes, k, base, npos, n);
    Adjacent(m, at, to, to + n);
  }

  /** Where a chunk that ends at `address` leaves the current block. */
  lemma EndsIn(nodes: seq<Node>, k: nat, base: nat, npos: nat, address: nat)
    requires 0 < npos <= base && Start(k, base) + npos == address
    ensures BlockOf(address, base) == if npos == base then k + 1 else k
  {
    InBlockAt(address, k, base);
    InBlockAt(address, k + 1, base);
    StartNext(k, base);
    hide Start, BlockOf;
  }

  lemma RestIs(m: seq<byte>, size: nat, pos: nat, n: nat)
    requires pos + n <= size <= |m|
    ensures Rest(Cursor(m[..size], pos))[..n] == m[pos..pos + n]
  {
  }

  lemma NoneNeeded(capacity: nat, position: nat, base: nat)
    requires base > 0 && position <= capacity
    ensures CapacityFor(capacity, position, 0, base) == capacity
  {
  }

  lemma StillThere(nodes0: seq<Node>, nodes: seq<Node>, base: nat, pos: nat)
    requires base > 0 && nodes0 <= nodes && pos < Start(|nodes0|, base)
    ensures NodeAt(nodes, BlockOf(pos, base)) == NodeAt(nodes0, BlockOf(pos, base))
  {
    InBlockAt(pos, |nodes0|, base);
    hide Start, BlockOf, OffsetIn;
  }

  lemma NoneWritten(c: Cursor)
    requires IsCursor(c)
    ensures Wrote(c, []) == c
  {
  }

  lemma PatchIsWrote(before: seq<byte>, m: seq<byte>, size: nat, pos: nat, buf: seq<byte>)
    requires before <= m && pos <= size <= |before| && pos + |buf| <= |m|
    ensures var end := pos + |buf|;
      Cursor(Patch(m, pos, buf)[..if end > size then end else size], end) == Wrote(Cursor(before[..size], pos), buf)
  {
  }

  lemma TooEarly(before: seq<byte>, m: seq<byte>, at: nat, base: nat, buf: seq<byte>)
    requires before <= m && at + base == |before| && at + |buf| <= |m|
    ensures Patch(m, at, buf)[..at + |buf|] == before[..at] + buf
  {
  }

  /** When the position is at the end of the chain, the block before it is the last one. */
  lemma LastBlock(nodes: seq<Node>, count: nat, base: nat, pos: nat)
    requires base > 0 && 0 < count <= |nodes| && pos == Start(count, base)
    ensures base <= pos && nodes[count - 1] == NodeAt(nodes, BlockOf(pos - base, base))
    ensures OffsetIn(pos - base, base) == OffsetIn(pos, base) == 0
  {
    StartNext(count - 1, base);
    InBlockAt(pos, count, base);
    InBlockAt(pos - base, count - 1, base);
    hide Start, BlockOf, OffsetIn;
  }

  /** The block one before the position's is never the position's. */
  lemma NotSynced(nodes: seq<Node>, pos: nat, base: nat)
    requires IsChain(nodes, base) && base <= pos && pos <= Start(|nodes|, base)
    ensures NodeAt(nodes, BlockOf(pos - base, base)) != NodeAt(nodes, BlockOf(pos, base))
  {
    var k := BlockOf(pos, base);
    InBlockAt(pos, k, base);
    if k > 0 { StartNext(k - 1, base); }
    InBlockAt(pos - base, k - 1, base);
    if k > |nodes| { StartOrder(|nodes|, k, base); }
    hide Start, BlockOf, OffsetIn;
  }

  lemma InChain(nodes: seq<Node>, base: nat, k: nat)
    requires IsChain(nodes, base) && k < |nodes|
    ensures nodes[k].ptr.Length == base && nodes[k].next == NodeAt(nodes, k + 1)
  {
  }

  lemma PatchMore(m: seq<byte>, at: nat, chunk: seq<byte>, i: nat)
    requires at + |chunk| <= |m| && i < |chunk|
    ensures Patch(m, at, chunk[..i])[at + i := chunk[i]] == Patch(m, at, chunk[..i + 1])
  {
  }

  lemma PatchNothing(m: seq<byte>, at: nat)
    requires at <= |m|
    ensures Patch(m, at, []) == m
  {
  }

  /** The block of an address below the end of the chain. */
  lemma AddressInChain(nodes: seq<Node>, base: nat, k: nat, address: nat)
    requires IsChain(nodes, base) && Start(k, base) <= address < Start(|nodes|, base)
    ensures k < |nodes| && nodes[k].ptr.Length == base
  {
    if k >= |nodes| { StartOrder(|nodes|, k, base); }
    hide Start;
  }

  method PatchBlock(ghost nodes: seq<Node>, ghost k: nat, ghost base: nat, node: Node, npos: nat, chunk: seq<byte>)
    requires IsChain(nodes, base) && k < |nodes| && node == nodes[k] && npos + |chunk| <= base
    modifies node.ptr
    ensures npos + |chunk| <= |old(Contents(nodes)[k])|
    ensures Contents(nodes) == old(Contents(nodes))[k := Patch(old(Contents(nodes)[k]), npos, chunk)]
  {
    hide Patch, Contents;
    CopyIn(node.ptr, npos, chunk);
    forall i | 0 <= i < |nodes|
      ensures Contents(nodes)[i] == if i == k then Patch(old(node.ptr[..]), npos, chunk) else old(nodes[i].ptr[..])
    {
    }
  }

  method CopyIn(ptr: array<byte>, npos: nat, chunk: seq<byte>)
    requires npos + |chunk| <= ptr.Length
    modifies ptr
    ensures ptr[..] == Patch(old(ptr[..]), npos, chunk)
  {
    hide Patch;
    ghost var m := ptr[..];
    PatchNothing(m, npos);
    assert chunk[..0] == [];
    for i := 0 to |chunk|
      invariant ptr[..] == Patch(m, npos, chunk[..i])
    {
      PatchMore(m, npos, chunk, i);
      ghost var before := ptr[..];
      ptr[npos + i] := chunk[i];
      assert ptr[..] == before[npos + i := chunk[i]];
    }
    assert chunk[..|chunk|] == chunk;
  }

  /** The number of blocks added for `n` bytes where `left` are left. */
  function BlocksFor(n: nat, base: nat, left: nat): nat
    requires base > 0
  {
    BlockOf(n, base) + if OffsetIn(n, base) > left then 1 else 0
  }

  function CapacityFor(capacity: nat, position: nat, n: nat, base: nat): nat
    requires base > 0 && position <= capacity
  {
    if n <= capacity - position then capacity
    else capacity + Start(BlocksFor(n, base, capacity - position), base)
  }

  lemma CapacityIs(capacity: nat, position: nat, n: nat, base: nat)
    requires base > 0 && position <= capacity
    ensures CapacityFor(capacity, position, n, base) ==
      if n <= capacity - position then capacity
      else capacity + Start(BlocksFor(n, base, capacity - position), base)
  {
  }

  /** What is added for `n` bytes where `left` are left: nothing if they fit; no block more than
      they need if less than a block is left; and else, although some of them would fit into what
      is left, as many blocks as they fill. */
  predicate Tight(left: int, added: int, n: nat, base: nat) {
    if n <= left then added == 0
    else if left < base then left + added - base < n <= left + added
    else added <= n < added + base
  }

  lemma EnoughLeft(left: int, n: nat, base: nat)
    ensures n <= left ==> Tight(left, 0, n, base)
  {
  }

  lemma NotTooMuch(n: nat, base: nat, left: nat)
    requires base > 0 && left < n
    ensures Tight(left, Start(BlocksFor(n, base, left), base), n, base)
  {
    var q := BlockOf(n, base);
    InBlockAt(n, q, base);
    StartNext(q, base);
    hide Start;
  }

  /** It suffices. */
  lemma Enough(n: nat, base: nat, left: nat)
    requires base > 0
    ensures n <= left + Start(BlocksFor(n, base, left), base)
  {
    InBlockAt(n, BlockOf(n, base), base);
    StartNext(BlockOf(n, base), base);
    hide Start;
  }

  method Link(tmp: Node, ghost nodes: seq<Node>, base: nat) returns (node: Node)
    requires IsChain(nodes, base) && tmp == nodes[|nodes| - 1]
    modifies tmp`next
    ensures fresh(node) && fresh(node.ptr) && IsChain(nodes + [node], base)
  {
    node := new Node(base);
    tmp.next := node;
  }

  lemma MemoryGrows(nodes: seq<Node>, node: Node)
    ensures Flat(Contents(nodes + [node])) == Flat(Contents(nodes)) + node.ptr[..]
  {
    assert Contents(nodes + [node]) == Contents(nodes) + [node.ptr[..]];
    FlatAppend(Contents(nodes), [node.ptr[..]]);
    FlatOne(node.ptr[..]);
  }

  lemma MemoryLength(nodes: seq<Node>, base: nat)
    requires IsChain(nodes, base)
    ensures |nodes| > 0 && base > 0
    ensures Sized(Contents(nodes), base) && |Flat(Contents(nodes))| == Start(|nodes|, base)
  {
    assert Sized(Contents(nodes), base);
    FlatLength(Contents(nodes), base);
  }
}
