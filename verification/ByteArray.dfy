/** The block-list byte buffer. */
module ByteArrays {

  type byte = n: nat | n < 256

  // ----- Blocks of `base` bytes

  /** `base` times `k`, and what divides by `base` into `k` with a remainder. */
  lemma Quotient(k: nat, base: nat, x: nat)
    requires x < base
    ensures (k * base + x) / base == k && (k * base + x) % base == x
  {
    var a := k * base + x;
    var q, r := a / base, a % base;
    assert a == q * base + r && 0 <= r < base;
    if q < k { Spread(q, k, base); }
    if q > k { Spread(k, q, base); }
  }

  lemma Spread(q: nat, k: nat, base: nat)
    requires q < k
    ensures q * base + base <= k * base
    decreases k
  {
    Next(k - 1, base);
    if q < k - 1 { Spread(q, k - 1, base); }
  }

  lemma Next(k: nat, base: nat)
    ensures (k + 1) * base == k * base + base
  {
  }

  /** Where byte `i` is. */
  lemma Within(i: nat, base: nat)
    requires base > 0
    ensures i == (i / base) * base + i % base && i % base < base
  {
  }

  lemma InBlock(i: nat, k: nat, base: nat)
    requires base > 0
    ensures i / base == k <==> k * base <= i < k * base + base
    ensures i / base < k <==> i < k * base
  {
    Within(i, base);
    if k * base <= i < k * base + base { Quotient(k, base, i - k * base); }
    if i / base < k { Spread(i / base, k, base); }
    if k < i / base { Spread(k, i / base, base); }
  }

  /** The offset of block `k`. */
  function Start(k: nat, base: nat): nat { k * base }

  lemma StartNext(k: nat, base: nat)
    ensures Start(0, base) == 0 && Start(k + 1, base) == Start(k, base) + base
  {
  }

  lemma StartOrder(q: nat, k: nat, base: nat)
    ensures q < k ==> Start(q, base) + base <= Start(k, base)
  {
    if q < k { Spread(q, k, base); }
  }

  /** The block a position is in, and where it is there. */
  function BlockOf(i: nat, base: nat): nat
    requires base > 0
  {
    i / base
  }

  function OffsetIn(i: nat, base: nat): nat
    requires base > 0
  {
    i % base
  }

  lemma InBlockAt(i: nat, k: nat, base: nat)
    requires base > 0
    ensures BlockOf(i, base) == k <==> Start(k, base) <= i < Start(k, base) + base
    ensures BlockOf(i, base) < k <==> i < Start(k, base)
    ensures i == Start(BlockOf(i, base), base) + OffsetIn(i, base) && OffsetIn(i, base) < base
  {
    InBlock(i, k, base);
    Within(i, base);
  }

  // ----- The flat contents of a list of blocks

  predicate Sized(bs: seq<seq<byte>>, base: nat) { forall b <- bs :: |b| == base }

  function Flat(bs: seq<seq<byte>>): seq<byte> {
    if bs == [] then [] else Flat(bs[..|bs| - 1]) + bs[|bs| - 1]
  }

  lemma {:induction false} FlatLength(bs: seq<seq<byte>>, base: nat)
    requires Sized(bs, base)
    ensures |Flat(bs)| == Start(|bs|, base)
  {
    hide Start;
    StartNext(if bs == [] then 0 else |bs| - 1, base);
    if bs != [] { FlatLength(bs[..|bs| - 1], base); }
  }

  lemma {:induction false} FlatAppend(a: seq<seq<byte>>, b: seq<seq<byte>>)
    ensures Flat(a + b) == Flat(a) + Flat(b)
    decreases |b|
  {
    if b == [] {
      assert a + b == a;
    } else {
      assert (a + b)[..|a + b| - 1] == a + b[..|b| - 1];
      FlatAppend(a, b[..|b| - 1]);
    }
  }

  lemma FlatOne(b: seq<byte>)
    ensures Flat([b]) == b
  {
    assert [b][..0] == [];
  }

  /** The flat contents around block `k`. */
  lemma FlatSplit(bs: seq<seq<byte>>, k: nat, base: nat)
    requires Sized(bs, base) && k < |bs|
    ensures Flat(bs) == Flat(bs[..k]) + bs[k] + Flat(bs[k + 1..])
    ensures |Flat(bs[..k])| == Start(k, base) && |bs[k]| == base && |Flat(bs)| == Start(|bs|, base)
  {
    hide Start;
    assert bs == bs[..k] + [bs[k]] + bs[k + 1..];
    FlatAppend(bs[..k] + [bs[k]], bs[k + 1..]);
    FlatAppend(bs[..k], [bs[k]]);
    FlatOne(bs[k]);
    FlatLength(bs[..k], base);
    FlatLength(bs, base);
  }

  /** `m` with `chunk` written over it at `at`. */
  function Patch(m: seq<byte>, at: nat, chunk: seq<byte>): (r: seq<byte>)
    requires at + |chunk| <= |m|
    ensures |r| == |m|
  {
    m[..at] + chunk + m[at + |chunk|..]
  }

  lemma PatchTwice(m: seq<byte>, at: nat, a: seq<byte>, b: seq<byte>)
    requires at + |a| + |b| <= |m|
    ensures Patch(Patch(m, at, a), at + |a|, b) == Patch(m, at, a + b)
  {
  }

  lemma PatchMiddle(f: seq<byte>, g: seq<byte>, h: seq<byte>, npos: nat, chunk: seq<byte>)
    requires npos + |chunk| <= |g|
    ensures f + Patch(g, npos, chunk) + h == Patch(f + g + h, |f| + npos, chunk)
  {
  }

  lemma SizedUpdate(bs: seq<seq<byte>>, k: nat, base: nat, b: seq<byte>)
    requires Sized(bs, base) && k < |bs| && |b| == base
    ensures Sized(bs[k := b], base) && |bs[k]| == base
  {
    assert bs[k] in bs;
  }

  /** Writing into one block is writing into the flat contents. */
  lemma FlatPatch(bs: seq<seq<byte>>, k: nat, base: nat, npos: nat, chunk: seq<byte>)
    requires Sized(bs, base) && k < |bs| && npos + |chunk| <= base
    ensures |bs[k]| == base && Start(k, base) + npos + |chunk| <= |Flat(bs)|
    ensures Sized(bs[k := Patch(bs[k], npos, chunk)], base)
    ensures Flat(bs[k := Patch(bs[k], npos, chunk)]) == Patch(Flat(bs), Start(k, base) + npos, chunk)
  {
    hide *;
    FlatSplit(bs, k, base);
    var b := Patch(bs[k], npos, chunk);
    SizedUpdate(bs, k, base, b);
    var b1 := bs[k := b];
    FlatSplit(b1, k, base);
    assert b1[..k] == bs[..k] && b1[k + 1..] == bs[k + 1..];
    PatchMiddle(Flat(bs[..k]), bs[k], Flat(bs[k + 1..]), npos, chunk);
  }

  lemma FlatSlice(bs: seq<seq<byte>>, k: nat, base: nat, npos: nat, n: nat)
    requires Sized(bs, base) && k < |bs| && npos + n <= base
    ensures |bs[k]| == base && Start(k, base) + npos + n <= |Flat(bs)|
    ensures bs[k][npos..npos + n] == Flat(bs)[Start(k, base) + npos..Start(k, base) + npos + n]
  {
    hide *;
    FlatSplit(bs, k, base);
    SliceMiddle(Flat(bs[..k]), bs[k], Flat(bs[k + 1..]), npos, n);
  }

  lemma SliceMiddle(f: seq<byte>, g: seq<byte>, h: seq<byte>, npos: nat, n: nat)
    requires npos + n <= |g|
    ensures (f + g + h)[|f| + npos..|f| + npos + n] == g[npos..npos + n]
  {
  }

  // ----- A flat sequence with a cursor

  datatype Cursor = Cursor(data: seq<byte>, pos: nat)

  predicate IsCursor(c: Cursor) { c.pos <= |c.data| }

  function Wrote(c: Cursor, buf: seq<byte>): (r: Cursor)
    requires IsCursor(c)
    ensures IsCursor(r)
  {
    var end := c.pos + |buf|;
    Cursor(c.data[..c.pos] + buf + (if end < |c.data| then c.data[end..] else []), end)
  }

  function Rest(c: Cursor): seq<byte>
    requires IsCursor(c)
  {
    c.data[c.pos..]
  }

  /** What is written is what is read from where it was written. */
  lemma WroteReads(c: Cursor, buf: seq<byte>)
    requires IsCursor(c)
    ensures buf <= Rest(Wrote(c, buf).(pos := c.pos))
    ensures Wrote(c, buf).data[..c.pos] == c.data[..c.pos]
    ensures |Wrote(c, buf).data| == if c.pos + |buf| > |c.data| then c.pos + |buf| else |c.data|
  {
    var d := Wrote(c, buf).data;
    assert d[c.pos..][..|buf|] == buf;
  }

  lemma WroteTwice(c: Cursor, a: seq<byte>, b: seq<byte>)
    requires IsCursor(c)
    ensures Wrote(Wrote(c, a), b) == Wrote(c, a + b)
  {
  }
}
