/** How numbers and strings are put into bytes. */
module ByteCodec {
  import opened ByteArrays

  // ----- Fixed width

  function Power(base: nat, k: nat): nat { if k == 0 then 1 else base * Power(base, k - 1) }

  /** The `n` lowest digits to base 256, the lowest first: the true positional encoding. */
  function Little(v: nat, n: nat): (bs: seq<byte>)
    ensures |bs| == n
  {
    if n == 0 then [] else [v % 256] + Little(v / 256, n - 1)
  }

  /** The digits of a number to base 256, the lowest first. */
  lemma {:induction false} LittleDigits(v: nat, n: nat, i: nat)
    requires i < n
    ensures Power(256, i) > 0 && Little(v, n)[i] == v / Power(256, i) % 256
    decreases n
  {
    PowerPositive(256, i);
    if i > 0 {
      LittleDigits(v / 256, n - 1, i - 1);
      DivTwice(v, 256, Power(256, i - 1));
    }
  }

  lemma DivTwice(v: nat, a: nat, b: nat)
    requires a > 0 && b > 0
    ensures v / a / b == v / (a * b)
  {
    var q := v / a / b;
    var r := v / a % b * a + v % a;
    assert v == v / a * a + v % a && v / a == q * b + v / a % b;
    assert (q * b + v / a % b) * a == q * (a * b) + v / a % b * a;
    assert v / a % b * a <= (b - 1) * a;
    assert a * b > 0 && 0 <= r < a * b;
    DivUnique(v, a * b, q, r);
  }

  lemma DivUnique(v: int, m: nat, q: int, r: int)
    requires m > 0 && v == q * m + r && 0 <= r < m
    ensures v / m == q && v % m == r
  {
    var d := v / m - q;
    assert v == v / m * m + v % m && d * m == r - v % m;
    assert d >= 1 ==> d * m >= m;
    assert d <= -1 ==> d * m <= 0 - m;
  }

  function FromLittle(bs: seq<byte>): nat {
    if bs == [] then 0 else bs[0] + 256 * FromLittle(bs[1..])
  }

  function Reversed(bs: seq<byte>): (r: seq<byte>)
    ensures |r| == |bs|
  {
    if bs == [] then [] else Reversed(bs[1..]) + [bs[0]]
  }

  lemma {:induction false} ReversedSnoc(bs: seq<byte>, b: byte)
    ensures Reversed(bs + [b]) == [b] + Reversed(bs)
  {
    if bs == [] {
      assert bs + [b] == [b] && [b][1..] == [];
    } else {
      assert (bs + [b])[1..] == bs[1..] + [b];
      ReversedSnoc(bs[1..], b);
    }
  }

  lemma {:induction false} ReversedTwice(bs: seq<byte>)
    ensures Reversed(Reversed(bs)) == bs
  {
    if bs != [] {
      ReversedTwice(bs[1..]);
      ReversedSnoc(Reversed(bs[1..]), bs[0]);
    }
  }

  lemma {:induction false} LittleFrom(bs: seq<byte>)
    ensures Little(FromLittle(bs), |bs|) == bs
  {
    if bs != [] {
      LittleFrom(bs[1..]);
      LowDigit(bs[0], FromLittle(bs[1..]));
      assert [bs[0]] + bs[1..] == bs;
    }
  }

  lemma LowDigit(b: byte, x: nat)
    ensures (b + 256 * x) % 256 == b && (b + 256 * x) / 256 == x
  {
  }

  lemma {:induction false} FromLittleOf(v: nat, n: nat)
    requires v < Power(256, n)
    ensures FromLittle(Little(v, n)) == v
  {
    if n > 0 { FromLittleOf(v / 256, n - 1); }
  }

  lemma {:induction false} FromLittleFits(bs: seq<byte>)
    ensures FromLittle(bs) < Power(256, |bs|)
  {
    if bs != [] { FromLittleFits(bs[1..]); }
  }

  /** The bytes of a number in memory. */
  function Native(v: nat, n: nat, host: bool): (bs: seq<byte>)
    ensures |bs| == n
  {
    if host then Little(v, n) else Reversed(Little(v, n))
  }

  function FromNative(bs: seq<byte>, host: bool): nat {
    FromLittle(if host then bs else Reversed(bs))
  }

  /** bswap_16, bswap_32, bswap_64 */
  function Swap(v: nat, n: nat): nat { FromLittle(Reversed(Little(v, n))) }

  /** An unsigned number as it is written: swapped if the buffer's order is not the host's. */
  function WriteUnsigned(v: nat, n: nat, little: bool, host: bool): seq<byte> {
    Native(if little == host then v else Swap(v, n), n, host)
  }

  function ReadUnsigned(bs: seq<byte>, little: bool, host: bool): nat {
    var v := FromNative(bs, host);
    if little == host then v else Swap(v, |bs|)
  }

  /** On every host an unsigned number is written in the buffer's byte order. */
  lemma UnsignedIsPositional(v: nat, n: nat, little: bool, host: bool)
    ensures WriteUnsigned(v, n, little, host) == if little then Little(v, n) else Reversed(Little(v, n))
  {
    LittleFrom(Reversed(Little(v, n)));
    ReversedTwice(Little(v, n));
  }

  lemma UnsignedReadBack(v: nat, n: nat, little: bool, host: bool)
    requires v < Power(256, n)
    ensures ReadUnsigned(WriteUnsigned(v, n, little, host), little, host) == v
  {
    UnsignedIsPositional(v, n, little, host);
    FromLittleOf(v, n);
    ReversedTwice(Little(v, n));
    LittleFrom(Reversed(Little(v, n)));
  }

  predicate IsSigned(v: int, half: nat) { 0 - half <= v < half }

  /** The bits of a signed number, and back: two's complement with a sign bit worth `half`. */
  function Bits(v: int, half: nat): nat
    requires IsSigned(v, half)
  {
    if v < 0 then v + 2 * half else v
  }

  function FromBits(u: nat, half: nat): (v: int)
    requires u < 2 * half
    ensures IsSigned(v, half)
  {
    if u < half then u else u - 2 * half
  }

  /** Two's complement: the number itself, up to the numbers of the width. */
  lemma BitsAre(v: int, half: nat)
    requires IsSigned(v, half)
    ensures half > 0 && Bits(v, half) == v % (2 * half)
  {
    if v < 0 {
      assert v == -1 * (2 * half) + (v + 2 * half);
      DivUnique(v, 2 * half, -1, v + 2 * half);
    } else {
      DivUnique(v, 2 * half, 0, v);
    }
  }

  /** Signed numbers are not swapped: `byteswap` hands them back as they are. */
  function WriteSigned(v: int, n: nat, half: nat, host: bool): seq<byte>
    requires IsSigned(v, half)
  {
    Native(Bits(v, half), n, host)
  }

  lemma SignedIsPositional(v: int, n: nat, half: nat, host: bool)
    requires IsSigned(v, half)
    ensures WriteSigned(v, n, half, host) ==
            if host then Little(Bits(v, half), n) else Reversed(Little(Bits(v, half), n))
  {
  }

  function ReadSigned(bs: seq<byte>, half: nat, host: bool): int
    requires 2 * half == Power(256, |bs|)
  {
    FromLittleFits(if host then bs else Reversed(bs));
    FromBits(FromNative(bs, host), half)
  }

  lemma SignedReadBack(v: int, n: nat, half: nat, host: bool)
    requires 2 * half == Power(256, n) && IsSigned(v, half)
    ensures ReadSigned(WriteSigned(v, n, half, host), half, host) == v
  {
    FromLittleOf(Bits(v, half), n);
    ReversedTwice(Little(Bits(v, half), n));
  }

  /** So a signed number is where the unsigned number of its bits would be exactly when the
      orders of buffer and host agree or its bytes read the same from both ends. */
  lemma SignedOrder(v: int, n: nat, half: nat, little: bool, host: bool)
    requires IsSigned(v, half)
    ensures WriteSigned(v, n, half, host) == WriteUnsigned(Bits(v, half), n, little, host) <==>
            little == host || Little(Bits(v, half), n) == Reversed(Little(Bits(v, half), n))
  {
    UnsignedIsPositional(Bits(v, half), n, little, host);
  }

  /** Whether all numbers of a width are. */
  predicate SignedInOrder(n: nat, half: nat, little: bool, host: bool) {
    forall v | 0 - half <= v < half ::
      WriteSigned(v, n, half, host) == WriteUnsigned(Bits(v, half), n, little, host)
  }

  /** For a caller: signed numbers of a width are written in the buffer's order exactly when
      that is the host's order or they have one byte. */
  lemma SignedIsInOrder(n: nat, half: nat, little: bool, host: bool)
    requires n > 0 && 2 * half == Power(256, n)
    ensures SignedInOrder(n, half, little, host) <==> little == host || n == 1
  {
    if little == host || n == 1 {
      forall v | 0 - half <= v < half
        ensures WriteSigned(v, n, half, host) == WriteUnsigned(Bits(v, half), n, little, host)
      {
        SignedOrder(v, n, half, little, host);
        if n == 1 { ReversedOne(Little(Bits(v, half), n)); }
      }
    } else {
      OneIsNotSymmetric(n);
      SignedOrder(1, n, half, little, host);
      assert Bits(1, half) == 1;
    }
    hide WriteSigned, WriteUnsigned, Little, Reversed, Bits;
  }

  /** For one, in two bytes, in a big-endian buffer on a little-endian host. */
  lemma SignedIsNotSwapped()
    ensures WriteSigned(1, 2, 0x8000, true) == [1, 0] && WriteUnsigned(1, 2, false, true) == [0, 1]
  {
    UnsignedIsPositional(1, 2, false, true);
    assert Little(1, 2) == [1, 0];
    assert Reversed([1, 0]) == [0, 1];
  }

  lemma ReversedOne(bs: seq<byte>)
    requires |bs| == 1
    ensures Reversed(bs) == bs
  {
    assert bs[1..] == [];
  }

  /** The number one has its only digit at one end. */
  lemma OneIsNotSymmetric(n: nat)
    requires n > 1
    ensures Little(1, n) != Reversed(Little(1, n)) && Power(256, n) >= 4
  {
    PowerPositive(256, n - 1);
    var bs := Little(1, n);
    assert bs == [1] + Little(0, n - 1);
    ReversedSnoc(bs[..n - 1], bs[n - 1]);
    ZeroDigits(n - 1);
    assert bs == bs[..n - 1] + [bs[n - 1]] && bs[n - 1] == Little(0, n - 1)[n - 2];
  }

  lemma {:induction false} ZeroDigits(n: nat)
    ensures forall i :: 0 <= i < n ==> Little(0, n)[i] == 0
  {
    if n > 0 { ZeroDigits(n - 1); }
  }

  // ----- Zigzag

  /** EncodeZigzag32 and EncodeZigzag64, in unsigned arithmetic modulo twice `half`. */
  function Zigzag(v: int, half: nat): nat
    requires half > 0 && IsSigned(v, half)
  {
    if v < 0 then ((-v) % (2 * half) * 2 - 1) % (2 * half) else v * 2 % (2 * half)
  }

  /** Half of `v`, with all bits turned over if `v` is odd. */
  function Unzigzag(v: nat, half: nat): (r: int)
    requires v < 2 * half
    ensures IsSigned(r, half)
  {
    FromBits(if v % 2 == 0 then v / 2 else 2 * half - 1 - v / 2, half)
  }

  lemma ModOnce(a: int, m: nat)
    requires 0 <= a < 2 * m && m > 0
    ensures a % m == if a < m then a else a - m
  {
    if a < m { Quotient(0, m, a); } else { Quotient(1, m, a - m); }
  }

  /** Zigzag is a bijection between all signed and all unsigned numbers of a width. */
  lemma ZigzagBijection(v: int, u: nat, half: nat)
    requires half > 0 && IsSigned(v, half) && u < 2 * half
    ensures Zigzag(v, half) < 2 * half && Unzigzag(Zigzag(v, half), half) == v
    ensures Zigzag(Unzigzag(u, half), half) == u
  {
    hide *;
    ZigzagBack(v, half);
    UnzigzagBack(u, half);
  }

  lemma ZigzagBack(v: int, half: nat)
    requires half > 0 && IsSigned(v, half)
    ensures Zigzag(v, half) < 2 * half && Unzigzag(Zigzag(v, half), half) == v
  {
    ZigzagIs(v, half);
    hide Zigzag, Unzigzag;
    if v < 0 { UnzigzagIs(-2 * v - 1, half); } else { UnzigzagIs(2 * v, half); }
  }

  lemma UnzigzagBack(u: nat, half: nat)
    requires half > 0 && u < 2 * half
    ensures IsSigned(Unzigzag(u, half), half) && Zigzag(Unzigzag(u, half), half) == u
  {
    UnzigzagIs(u, half);
    ZigzagIs(Unzigzag(u, half), half);
    hide Zigzag, Unzigzag;
  }

  lemma UnzigzagIs(u: nat, half: nat)
    requires half > 0 && u < 2 * half
    ensures Unzigzag(u, half) == if u % 2 == 0 then u / 2 else -1 - u / 2
  {
  }

  lemma ZigzagIs(v: int, half: nat)
    requires half > 0 && IsSigned(v, half)
    ensures Zigzag(v, half) == if v < 0 then -2 * v - 1 else 2 * v
  {
    if v < 0 {
      ModOnce(-v, 2 * half);
      ModOnce(-2 * v - 1, 2 * half);
    } else {
      ModOnce(2 * v, 2 * half);
    }
  }

  // ----- Variable width (unsigned LEB128, section 7.6 of DWARF Version 5)

  function Varint(v: nat): (bs: seq<byte>)
    ensures bs != []
  {
    if v < 0x80 then [v] else [v % 0x80 + 0x80] + Varint(v / 0x80)
  }

  /** Seven bits a byte, the lowest first. */
  function Groups(bs: seq<byte>): nat { if bs == [] then 0 else bs[0] % 0x80 + 0x80 * Groups(bs[1..]) }

  /** The bytes of `v`: groups of seven bits that make it up, each but the last with its top bit
      set, and no more of them than are needed. */
  predicate IsVarintOf(bs: seq<byte>, v: nat) {
    && bs != [] && Groups(bs) == v
    && (forall i :: 0 <= i < |bs| - 1 ==> bs[i] >= 0x80) && bs[|bs| - 1] < 0x80
    && (|bs| > 1 ==> bs[|bs| - 1] != 0)
  }

  lemma {:induction false} VarintIs(v: nat)
    ensures IsVarintOf(Varint(v), v)
    decreases v
  {
    if v >= 0x80 {
      var bs, rest := Varint(v), Varint(v / 0x80);
      VarintIs(v / 0x80);
      assert bs[1..] == rest && bs[0] == v % 0x80 + 0x80;
      assert forall i :: 0 < i < |bs| ==> bs[i] == rest[i - 1];
    } else {
      assert Varint(v)[1..] == [];
    }
  }

  /** One byte holds what is below 128, and nothing else. */
  lemma VarintOfOne(v: nat)
    ensures |Varint(v)| == 1 <==> v < 0x80
  {
  }

  /** writeUint32 and writeUint64 up to the write. */
  method PutVarint(value: nat) returns (tmp: seq<byte>)
    ensures tmp == Varint(value)
  {
    var v := value;
    tmp := [];
    while v >= 0x80
      invariant tmp + Varint(v) == Varint(value)
    {
      assert tmp + ([v % 0x80 + 0x80] + Varint(v / 0x80)) == (tmp + [v % 0x80 + 0x80]) + Varint(v / 0x80);
      tmp, v := tmp + [v % 0x80 + 0x80], v / 0x80;
    }
    tmp := tmp + [v];
  }

  lemma {:induction false} VarintLength(v: nat, k: nat)
    requires k > 0 && v < Power(0x80, k)
    ensures |Varint(v)| <= k
    decreases k
  {
    if v >= 0x80 {
      assert k > 1 by { assert Power(0x80, 1) == 0x80 * Power(0x80, 0); }
      VarintLength(v / 0x80, k - 1);
    }
  }

  /** At most five bytes for 32 bits and ten for 64. */
  lemma VarintLengths(v: nat)
    ensures v < 0x1_0000_0000 ==> |Varint(v)| <= 5
    ensures v < 0x1_0000_0000_0000_0000 ==> |Varint(v)| <= 10
  {
    assert Power(0x80, 5) == 0x8_0000_0000;
    assert Power(0x80, 10) == 0x8_0000_0000 * Power(0x80, 5) by { PowerFive(); }
    if v < 0x1_0000_0000 { VarintLength(v, 5); }
    if v < 0x1_0000_0000_0000_0000 { VarintLength(v, 10); }
  }

  lemma PowerFive()
    ensures Power(0x80, 5) == 0x8_0000_0000 && Power(0x80, 10) == 0x8_0000_0000 * 0x8_0000_0000
  {
    assert Power(0x80, 2) == 0x4000;
    assert Power(0x80, 4) == 0x80 * (0x80 * Power(0x80, 2));
    assert Power(0x80, 6) == 0x80 * (0x80 * Power(0x80, 4));
    assert Power(0x80, 8) == 0x80 * (0x80 * Power(0x80, 6));
    assert Power(0x80, 10) == 0x80 * (0x80 * Power(0x80, 8));
  }

  /** No encoding starts another: where two start alike they are the same. */
  lemma {:induction false} VarintPrefixFree(a: nat, b: nat, x: seq<byte>, y: seq<byte>)
    requires Varint(a) + x == Varint(b) + y
    ensures a == b && x == y
    decreases a
  {
    var s := Varint(a) + x;
    assert s[0] == Varint(a)[0] == Varint(b)[0];
    if a < 0x80 {
      assert b < 0x80;
      assert s[1..] == x && s[1..] == y;
    } else {
      assert s[1..] == Varint(a / 0x80) + x && s[1..] == Varint(b / 0x80) + y;
      VarintPrefixFree(a / 0x80, b / 0x80, x, y);
    }
  }

  /** What reading at most `left` groups finds, and how many bytes it takes; `Short` when the
      bytes run out. */
  datatype Got = Got(value: nat, used: nat) | Short

  function ReadGroups(bs: seq<byte>, left: nat): (g: Got)
    ensures g.Got? ==> g.used <= |bs| && g.used <= left
    decreases left
  {
    if left == 0 then Got(0, 0)
    else if bs == [] then Short
    else if bs[0] < 0x80 then Got(bs[0], 1)
    else
      match ReadGroups(bs[1..], left - 1)
      case Short => Short
      case Got(v, used) => Got(bs[0] % 0x80 + 0x80 * v, used + 1)
  }

  /** Reading `k` groups of what was written for `v` finds `v` modulo 2^(7k), and stops at its
      end only if that is `v`. */
  lemma {:induction false} GroupsReadBack(v: nat, rest: seq<byte>, k: nat)
    requires k > 0
    ensures Power(0x80, k) > 0
    ensures ReadGroups(Varint(v) + rest, k) ==
            if v < Power(0x80, k) then Got(v, |Varint(v)|) else Got(v % Power(0x80, k), k)
    decreases k
  {
    var s := Varint(v) + rest;
    PowerPositive(0x80, k - 1);
    assert s[0] == Varint(v)[0];
    if v < 0x80 {
      assert v < Power(0x80, k);
    } else {
      assert s[1..] == Varint(v / 0x80) + rest;
      assert s[0] % 0x80 == v % 0x80;
      if k == 1 {
        assert Power(0x80, 1) == 0x80;
      } else {
        GroupsReadBack(v / 0x80, rest, k - 1);
        SplitModulo(v, Power(0x80, k - 1));
      }
    }
  }

  lemma {:induction false} PowerPositive(base: nat, k: nat)
    requires base > 0
    ensures Power(base, k) > 0
  {
    if k > 0 { PowerPositive(base, k - 1); }
  }

  lemma SplitModulo(v: nat, p: nat)
    requires p > 0
    ensures v % (0x80 * p) == v % 0x80 + 0x80 * (v / 0x80 % p)
  {
    var q, r := v / 0x80, v % 0x80;
    var a, b := q / p, q % p;
    Within(q, p);
    assert v == a * (0x80 * p) + (r + 0x80 * b);
    Quotient(a, 0x80 * p, r + 0x80 * b);
  }

  /** readUint32 gives back every 32-bit number. */
  lemma ThirtyTwoReadBack(v: nat, rest: seq<byte>)
    requires v < 0x1_0000_0000
    ensures ReadGroups(Varint(v) + rest, 5) == Got(v, |Varint(v)|) && v % 0x1_0000_0000 == v
  {
    PowerFive();
    GroupsReadBack(v, rest, 5);
  }

  /** readUint64 stops after five groups: it gives back the 64-bit numbers below 2^35 and what
      the others leave modulo 2^35. */
  lemma SixtyFourReadBack(v: nat, rest: seq<byte>)
    ensures var g := ReadGroups(Varint(v) + rest, 5);
      && g.Got? && g.value == v % 0x8_0000_0000
      && (g == Got(v, |Varint(v)|) <==> v < 0x8_0000_0000)
  {
    PowerFive();
    GroupsReadBack(v, rest, 5);
    if v < 0x8_0000_0000 { Quotient(0, 0x8_0000_0000, v); }
  }
}
