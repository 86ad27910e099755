/** Typed values through the byte buffer: what is written is read back. */
module ByteItems {
  import opened Wrappers
  import opened ByteArrays
  import opened ByteBuffer
  import opened ByteCodec
  import opened ByteRuns

  datatype Tag = UnsignedTag(n: nat) | SignedTag(n: nat) | Var32Tag | Var64Tag | Zig32Tag | Zig64Tag | TextTag(n: nat)

  datatype Item =
    | Unsigned(n: nat, v: nat)
    | Signed(n: nat, i: int)
    | Var32(v: nat)
    | Var64(v: nat)
    | Zig32(i: int)
    | Zig64(i: int)
    | Text(n: nat, bytes: seq<byte>)

  function TagOf(item: Item): Tag {
    match item
    case Unsigned(n, _) => UnsignedTag(n)
    case Signed(n, _) => SignedTag(n)
    case Var32(_) => Var32Tag
    case Var64(_) => Var64Tag
    case Zig32(_) => Zig32Tag
    case Zig64(_) => Zig64Tag
    case Text(n, _) => TextTag(n)
  }

  /** What five groups of seven bits hold. */
  const FIVE_GROUPS: nat := 0x8_0000_0000

  /** Half the numbers of `n` bytes. */
  function Half(n: nat): nat { Power(256, n) / 2 }

  lemma HalfTwice(n: nat)
    requires n > 0
    ensures 2 * Half(n) == Power(256, n) && Half(n) > 0
  {
    PowerPositive(256, n - 1);
  }

  predicate IsWidth(n: nat) { n == 1 || n == 2 || n == 4 || n == 8 }

  /** The values the C++ types hold. */
  predicate Fits(item: Item) {
    match item
    case Unsigned(n, v) => IsWidth(n) && v < Power(256, n)
    case Signed(n, i) => IsWidth(n) && IsSigned(i, Half(n))
    case Var32(v) => v < TWO_32
    case Var64(v) => v < TWO_64
    case Zig32(i) => IsSigned(i, TWO_32 / 2)
    case Zig64(i) => IsSigned(i, TWO_64 / 2)
    case Text(n, bytes) => IsWidth(n) && n > 1 && |bytes| < Power(256, n)
  }

  /** Varints of 64 bits are read back whole up to five groups only. */
  predicate Whole(item: Item)
    requires Fits(item)
  {
    match item
    case Var64(v) => v < FIVE_GROUPS
    case Zig64(i) => Zigzag(i, TWO_64 / 2) < FIVE_GROUPS
    case _ => true
  }

  /** A buffer's byte order, and the host's: true for little-endian. */
  datatype Order = Order(little: bool, host: bool)

  function Encoded(item: Item, o: Order): seq<byte>
    requires Fits(item)
  {
    match item
    case Unsigned(n, v) => WriteUnsigned(v, n, o.little, o.host)
    case Signed(n, i) => WriteSigned(i, n, Half(n), o.host)
    case Var32(v) => Varint(v)
    case Var64(v) => Varint(v)
    case Zig32(i) => Varint(Zigzag(i, TWO_32 / 2))
    case Zig64(i) => Varint(Zigzag(i, TWO_64 / 2))
    case Text(n, bytes) => WriteUnsigned(|bytes|, n, o.little, o.host) + bytes
  }

  /** What a value is written as: a fixed number by its digits, a signed one by those of its two's
      complement in the host's order, a variable one in groups, a signed variable one after its
      sign has gone into the lowest bit. */
  lemma EncodedIs(item: Item, o: Order)
    requires Fits(item)
    ensures match item
      case Unsigned(n, v) => Encoded(item, o) == if o.little then Little(v, n) else Reversed(Little(v, n))
      case Signed(n, i) =>
        Encoded(item, o) == if o.host then Little(i % Power(256, n), n) else Reversed(Little(i % Power(256, n), n))
      case Var32(v) => IsVarintOf(Encoded(item, o), v)
      case Var64(v) => IsVarintOf(Encoded(item, o), v)
      case Zig32(i) => IsVarintOf(Encoded(item, o), if i < 0 then -2 * i - 1 else 2 * i)
      case Zig64(i) => IsVarintOf(Encoded(item, o), if i < 0 then -2 * i - 1 else 2 * i)
      case Text(n, bytes) =>
        Encoded(item, o) == (if o.little then Little(|bytes|, n) else Reversed(Little(|bytes|, n))) + bytes
  {
    match item
    case Unsigned(n, v) => UnsignedIsPositional(v, n, o.little, o.host);
    case Signed(n, i) => HalfTwice(n); BitsAre(i, Half(n)); SignedIsPositional(i, n, Half(n), o.host);
    case Var32(v) => VarintIs(v);
    case Var64(v) => VarintIs(v);
    case Zig32(i) => ZigzagIs(i, TWO_32 / 2); VarintIs(Zigzag(i, TWO_32 / 2));
    case Zig64(i) => ZigzagIs(i, TWO_64 / 2); VarintIs(Zigzag(i, TWO_64 / 2));
    case Text(n, bytes) => UnsignedIsPositional(|bytes|, n, o.little, o.host);
    hide Little, Varint, Zigzag, IsVarintOf, WriteUnsigned, WriteSigned;
  }

  /** One byte holds the signed numbers from -64 to 63. */
  lemma SignedInOneByte(i: int, o: Order)
    requires IsSigned(i, TWO_32 / 2)
    ensures |Encoded(Zig32(i), o)| == 1 <==> -64 <= i <= 63
  {
    ZigzagIs(i, TWO_32 / 2);
    VarintOfOne(Zigzag(i, TWO_32 / 2));
    hide Varint, Zigzag;
  }

  datatype Taken = Took(item: Item, used: nat) | Missing

  predicate IsTag(tag: Tag) {
    match tag
    case UnsignedTag(n) => IsWidth(n)
    case SignedTag(n) => IsWidth(n)
    case TextTag(n) => IsWidth(n)
    case _ => true
  }

  /** What the reader for `tag` finds at the start of `bs`. */
  function Take(tag: Tag, bs: seq<byte>, o: Order): (t: Taken)
    requires IsTag(tag)
    ensures t.Took? ==> t.used <= |bs|
  {
    match tag
    case UnsignedTag(n) => if |bs| < n then Missing else Took(Unsigned(n, ReadUnsigned(bs[..n], o.little, o.host)), n)
    case SignedTag(n) =>
      HalfTwice(n);
      if |bs| < n then Missing else Took(Signed(n, ReadSigned(bs[..n], Half(n), o.host)), n)
    case Var32Tag => (
      match ReadGroups(bs, 5)
      case Short => Missing
      case Got(v, used) => Took(Var32(v % TWO_32), used))
    case Var64Tag => (
      match ReadGroups(bs, 5)
      case Short => Missing
      case Got(v, used) => Took(Var64(v % TWO_64), used))
    case Zig32Tag => (
      match ReadGroups(bs, 5)
      case Short => Missing
      case Got(v, used) => Took(Zig32(Unzigzag(v % TWO_32, TWO_32 / 2)), used))
    case Zig64Tag => (
      match ReadGroups(bs, 5)
      case Short => Missing
      case Got(v, used) => Took(Zig64(Unzigzag(v % TWO_64, TWO_64 / 2)), used))
    case TextTag(n) =>
      if |bs| < n then Missing
      else
        var len := ReadUnsigned(bs[..n], o.little, o.host);
        if |bs| < n + len then Missing else Took(Text(n, bs[n..n + len]), n + len)
  }

  /** A value read back is the value written, and its bytes are what is read. */
  lemma ItemReadBack(item: Item, rest: seq<byte>, o: Order)
    requires Fits(item) && Whole(item)
    ensures IsTag(TagOf(item)) && Take(TagOf(item), Encoded(item, o) + rest, o) == Took(item, |Encoded(item, o)|)
  {
    hide ReadGroups, Varint, WriteUnsigned, WriteSigned, ReadUnsigned, ReadSigned, Zigzag, Unzigzag, Power, Half;
    var bs := Encoded(item, o) + rest;
    match item
    case Unsigned(n, v) =>
      UnsignedIsWide(v, n, o);
      assert bs[..n] == WriteUnsigned(v, n, o.little, o.host);
      UnsignedReadBack(v, n, o.little, o.host);
    case Signed(n, i) =>
      HalfTwice(n);
      SignedIsWide(i, n, o);
      assert bs[..n] == WriteSigned(i, n, Half(n), o.host);
      SignedReadBack(i, n, Half(n), o.host);
    case Var32(v) => ThirtyTwoReadBack(v, rest);
    case Var64(v) => SmallSixtyFour(v, rest);
    case Zig32(i) =>
      ZigzagBijection(i, 0, TWO_32 / 2);
      ThirtyTwoReadBack(Zigzag(i, TWO_32 / 2), rest);
    case Zig64(i) =>
      ZigzagBijection(i, 0, TWO_64 / 2);
      SmallSixtyFour(Zigzag(i, TWO_64 / 2), rest);
    case Text(n, bytes) =>
      UnsignedIsWide(|bytes|, n, o);
      assert bs[..n] == WriteUnsigned(|bytes|, n, o.little, o.host);
      UnsignedReadBack(|bytes|, n, o.little, o.host);
      assert bs[n..n + |bytes|] == bytes;
  }

  lemma UnsignedIsWide(v: nat, n: nat, o: Order)
    ensures |WriteUnsigned(v, n, o.little, o.host)| == n
  {
  }

  lemma SignedIsWide(i: int, n: nat, o: Order)
    requires IsSigned(i, Half(n))
    ensures |WriteSigned(i, n, Half(n), o.host)| == n
  {
  }

  lemma SmallSixtyFour(v: nat, rest: seq<byte>)
    requires v < FIVE_GROUPS
    ensures ReadGroups(Varint(v) + rest, 5) == Got(v, |Varint(v)|) && v % TWO_64 == v
  {
    SixtyFourReadBack(v, rest);
    Quotient(0, TWO_64, v);
    hide ReadGroups, Varint;
  }

  // ----- Lists

  predicate AllFit(items: seq<Item>) { forall item <- items :: Fits(item) && Whole(item) }

  function EncodedAll(items: seq<Item>, o: Order): seq<byte>
    requires AllFit(items)
  {
    if items == [] then [] else Encoded(items[0], o) + EncodedAll(items[1..], o)
  }

  function TagsOf(items: seq<Item>): (tags: seq<Tag>)
    ensures |tags| == |items|
  {
    if items == [] then [] else [TagOf(items[0])] + TagsOf(items[1..])
  }

  /** The values found one after another, and the bytes they take; `None` when they run out. */
  datatype AllTaken = TookAll(items: seq<Item>, used: nat) | SomeMissing

  function TakeAll(tags: seq<Tag>, bs: seq<byte>, o: Order): (t: AllTaken)
    requires forall tag <- tags :: IsTag(tag)
    ensures t.TookAll? ==> t.used <= |bs|
  {
    if tags == [] then TookAll([], 0)
    else
      match Take(tags[0], bs, o)
      case Missing => SomeMissing
      case Took(item, used) =>
        match TakeAll(tags[1..], bs[used..], o)
        case SomeMissing => SomeMissing
        case TookAll(items, more) => TookAll([item] + items, used + more)
  }

  lemma {:induction false} TagsAreTags(items: seq<Item>)
    requires AllFit(items)
    ensures forall tag <- TagsOf(items) :: IsTag(tag)
  {
    if items != [] {
      assert items[0] in items && forall item <- items[1..] :: item in items;
      TagsAreTags(items[1..]);
    }
  }

  /** Any list of mixed values is read back as it was written, from one end to the other. */
  lemma {:induction false} ListReadBack(items: seq<Item>, rest: seq<byte>, o: Order)
    requires AllFit(items)
    ensures forall tag <- TagsOf(items) :: IsTag(tag)
    ensures TakeAll(TagsOf(items), EncodedAll(items, o) + rest, o) == TookAll(items, |EncodedAll(items, o)|)
  {
    TagsAreTags(items);
    if items == [] {
      NoTags(EncodedAll(items, o) + rest, o);
    } else {
      hide *;
      FirstItem(items, o);
      var a, b := Encoded(items[0], o), EncodedAll(items[1..], o);
      ItemReadBack(items[0], b + rest, o);
      ListReadBack(items[1..], rest, o);
      Regrouped(a, b, rest);
      TakeAllIs(TagsOf(items), EncodedAll(items, o) + rest, o);
      assert [items[0]] + items[1..] == items;
    }
  }

  lemma Regrouped(a: seq<byte>, b: seq<byte>, rest: seq<byte>)
    ensures a + b + rest == a + (b + rest) && (a + b + rest)[|a|..] == b + rest
  {
  }

  lemma FirstItem(items: seq<Item>, o: Order)
    requires AllFit(items) && items != []
    ensures Fits(items[0]) && Whole(items[0]) && AllFit(items[1..])
    ensures TagsOf(items) == [TagOf(items[0])] + TagsOf(items[1..])
    ensures EncodedAll(items, o) == Encoded(items[0], o) + EncodedAll(items[1..], o)
  {
    assert items[0] in items && forall item <- items[1..] :: item in items;
    hide Fits, Whole, Encoded, TagOf;
  }

  // ----- On the buffer

  /** The groups still to be read, put on top of `result`, which holds the `k` before them. */
  function OnTop(result: nat, k: nat, g: Got): Got {
    match g
    case Short => Short
    case Got(w, used) => Got(result + Power(0x80, k) * w, k + used)
  }

  lemma OneGroup(result: nat, k: nat, bs: seq<byte>, left: nat)
    requires left > 0 && bs != []
    ensures OnTop(result, k, ReadGroups(bs, left)) ==
      if bs[0] < 0x80 then Got(result + Power(0x80, k) * bs[0], k + 1)
      else OnTop(result + Power(0x80, k) * (bs[0] % 0x80), k + 1, ReadGroups(bs[1..], left - 1))
  {
    var g := ReadGroups(bs[1..], left - 1);
    if bs[0] >= 0x80 && g.Got? {
      Distribute(Power(0x80, k), bs[0] % 0x80, g.value);
    }
    hide ReadGroups;
    assert Power(0x80, k + 1) == 0x80 * Power(0x80, k);
  }

  lemma Distribute(p: nat, a: nat, w: nat)
    ensures p * (a + 0x80 * w) == p * a + 0x80 * p * w
  {
  }

  lemma RestMoves(c: Cursor, k: nat)
    requires IsCursor(c) && c.pos + k <= |c.data|
    ensures Rest(c.(pos := c.pos + k)) == Rest(c)[k..] && |Rest(c)| == |c.data| - c.pos
  {
  }

  lemma RestNext(c: Cursor, k: nat)
    requires IsCursor(c) && c.pos + k <= |c.data| && Rest(c.(pos := c.pos + k)) != []
    ensures c.pos + k + 1 <= |c.data| && Rest(c.(pos := c.pos + k))[1..] == Rest(c.(pos := c.pos + k + 1))
  {
  }

  /** readFint8: the next byte. */
  method GetByte(b: ByteArray) returns (r: Access<byte>)
    requires Ready(b)
    modifies b`position, b`curr
    ensures Ready(b) && b.capacity == old(b.capacity)
    ensures var bs := Rest(old(b.Value()));
      if bs == [] then r == OutOfRange else r == Done(bs[0]) && b.Value() == old(b.Value()).(pos := old(b.position) + 1)
  {
    hide *;
    ReadyIs(b);
    b.ValidIs();
    OneByte(b.Value(), b.capacity);
    var one := b.Read(1);
    ReadyIs(b);
    r := if one.OutOfRange? then OutOfRange else Done(one.value[0]);
  }

  /** readUint32 and readUint64 up to their width: the groups are put together from the lowest. */
  method GetVarint(b: ByteArray) returns (r: Access<nat>)
    requires Ready(b)
    modifies b`position, b`curr
    ensures Ready(b) && b.capacity == old(b.capacity)
    ensures match ReadGroups(Rest(old(b.Value())), 5)
      case Short => r == OutOfRange
      case Got(v, used) => r == Done(v) && b.Value() == old(b.Value()).(pos := old(b.position) + used)
  {
    hide *;
    ReadyIs(b);
    b.ValidIs();
    ghost var c := b.Value();
    ghost var all := ReadGroups(Rest(c), 5);
    var result: nat, k: nat := 0, 0;
    NothingRead(all);
    RestMoves(c, 0);
    ghost var capacity := b.capacity;
    while k < 5
      invariant k <= 5 && Ready(b) && b.Valid() && b.Synced() && b.capacity == capacity
      invariant b.Value() == c.(pos := c.pos + k) && c.pos + k <= |c.data|
      invariant all == OnTop(result, k, ReadGroups(Rest(b.Value()), 5 - k))
    {
      ghost var bs := Rest(b.Value());
      b.ValidIs();
      var one := GetByte(b);
      ReadyIs(b);
      if one.OutOfRange? {
        NoGroups(result, k, bs, 5 - k);
        return OutOfRange;
      }
      var x := one.value;
      OneGroup(result, k, bs, 5 - k);
      RestNext(c, k);
      if x < 0x80 { return Done(result + Power(0x80, k) * x); }
      result, k := result + Power(0x80, k) * (x % 0x80), k + 1;
    }
    NoneLeft(result, k, Rest(b.Value()));
    r := Done(result);
  }

  lemma NothingRead(g: Got)
    ensures OnTop(0, 0, g) == g
  {
    assert Power(0x80, 0) == 1;
  }

  lemma NoneLeft(result: nat, k: nat, bs: seq<byte>)
    ensures OnTop(result, k, ReadGroups(bs, 0)) == Got(result, k)
  {
  }

  lemma NoGroups(result: nat, k: nat, bs: seq<byte>, left: nat)
    requires bs == [] && left > 0
    ensures OnTop(result, k, ReadGroups(bs, left)) == Short
  {
  }

  lemma OneByte(c: Cursor, capacity: nat)
    requires IsCursor(c)
    ensures ReadResult(c, capacity, 1) == if Rest(c) == [] then OutOfRange else Done([Rest(c)[0]])
    ensures Rest(c) == [] <==> c.pos == |c.data|
  {
    if Rest(c) != [] { assert Rest(c)[..1] == [Rest(c)[0]]; }
  }

  /** Reading no bytes at the very end of the last block follows a null pointer. */
  predicate Dangles(item: Item, end: nat, capacity: nat) { item.Text? && item.bytes == [] && end == capacity }

  /** The reader for `tag`. */
  method ReadItem(b: ByteArray, tag: Tag, host: bool) returns (r: Access<Item>)
    requires Ready(b) && IsTag(tag)
    modifies b`position, b`curr
    ensures match Take(tag, Rest(old(b.Value())), Order(b.littleEndian, host))
      case Missing => r == OutOfRange
      case Took(item, used) =>
        if Dangles(item, old(b.position) + used, b.capacity) then r == NullPointer
        else r == Done(item) && Ready(b) && b.Value() == old(b.Value()).(pos := old(b.position) + used)
  {
    hide *;
    ReadyIs(b);
    b.ValidIs();
    ghost var c, o := b.Value(), Order(b.littleEndian, host);
    RestMoves(c, 0);
    match tag {
      case UnsignedTag(n) =>
        TakeUnsigned(n, Rest(c), o);
        FirstBytes(c, b.capacity, n);
        var bs := b.Read(n);
        ReadyIs(b);
        if bs.OutOfRange? { return OutOfRange; }
        b.ValidIs();
        var item := Unsigned(n, ReadUnsigned(bs.value, b.littleEndian, host));
        DanglesIf(item, b.position, b.capacity);
        r := Done(item);
      case SignedTag(n) =>
        TakeSigned(n, Rest(c), o);
        FirstBytes(c, b.capacity, n);
        var bs := b.Read(n);
        ReadyIs(b);
        if bs.OutOfRange? { return OutOfRange; }
        b.ValidIs();
        var item := Signed(n, ReadSigned(bs.value, Half(n), host));
        DanglesIf(item, b.position, b.capacity);
        r := Done(item);
      case TextTag(n) =>
        r := ReadText(b, n, host);
      case _ =>
        TakeVarint(tag, Rest(c), o);
        var v := GetVarint(b);
        if v.OutOfRange? { return OutOfRange; }
        r := Done(ForTag(tag, v.value));
    }
  }

  method ReadText(b: ByteArray, n: nat, host: bool) returns (r: Access<Item>)
    requires Ready(b) && IsTag(TextTag(n))
    modifies b`position, b`curr
    ensures match Take(TextTag(n), Rest(old(b.Value())), Order(b.littleEndian, host))
      case Missing => r == OutOfRange
      case Took(item, used) =>
        if Dangles(item, old(b.position) + used, b.capacity) then r == NullPointer
        else r == Done(item) && Ready(b) && b.Value() == old(b.Value()).(pos := old(b.position) + used)
  {
    hide *;
    ReadyIs(b);
    b.ValidIs();
    ghost var c, o := b.Value(), Order(b.littleEndian, host);
    RestMoves(c, 0);
    TakeText(n, Rest(c), o);
    FirstBytes(c, b.capacity, n);
    var bs := b.Read(n);
    ReadyIs(b);
    if bs.OutOfRange? { return OutOfRange; }
    var len := ReadUnsigned(bs.value, b.littleEndian, host);
    b.ValidIs();
    RestMoves(c, n);
    RestMoves(c.(pos := c.pos + n), 0);
    assert |Rest(c)| >= n + len ==> Rest(c)[n..][..len] == Rest(c)[n..n + len];
    ReadResultAt(c.(pos := c.pos + n), b.capacity, len);
    if |Rest(c)| >= n + len { DanglesIf(Text(n, Rest(c)[n..n + len]), c.pos + n + len, b.capacity); }
    var text := b.Read(len);
    ReadyIs(b);
    match text {
      case OutOfRange => return OutOfRange;
      case NullPointer => return NullPointer;
      case Done(bytes) => r := Done(Text(n, bytes));
    }
  }

  lemma TakeUnsigned(n: nat, bs: seq<byte>, o: Order)
    requires IsTag(UnsignedTag(n))
    ensures n > 0 && Take(UnsignedTag(n), bs, o) ==
      if |bs| < n then Missing else Took(Unsigned(n, ReadUnsigned(bs[..n], o.little, o.host)), n)
  {
    hide ReadUnsigned;
  }

  lemma TakeSigned(n: nat, bs: seq<byte>, o: Order)
    requires IsTag(SignedTag(n))
    ensures n > 0 && 2 * Half(n) == Power(256, n) && Take(SignedTag(n), bs, o) ==
      if |bs| < n then Missing else Took(Signed(n, ReadSigned(bs[..n], Half(n), o.host)), n)
  {
    HalfTwice(n);
    hide ReadSigned, Half, Power;
  }

  lemma TakeText(n: nat, bs: seq<byte>, o: Order)
    requires IsTag(TextTag(n))
    ensures n > 0 && (|bs| < n ==> Take(TextTag(n), bs, o) == Missing)
    ensures |bs| >= n ==>
      var len := ReadUnsigned(bs[..n], o.little, o.host);
      Take(TextTag(n), bs, o) == if |bs| < n + len then Missing else Took(Text(n, bs[n..n + len]), n + len)
  {
    hide ReadUnsigned;
  }

  /** The value a varint's groups are for. */
  function ForTag(tag: Tag, v: nat): Item
    requires tag.Var32Tag? || tag.Var64Tag? || tag.Zig32Tag? || tag.Zig64Tag?
  {
    match tag
    case Var32Tag => Var32(v % TWO_32)
    case Var64Tag => Var64(v % TWO_64)
    case Zig32Tag => Zig32(Unzigzag(v % TWO_32, TWO_32 / 2))
    case Zig64Tag => Zig64(Unzigzag(v % TWO_64, TWO_64 / 2))
  }

  lemma TakeVarint(tag: Tag, bs: seq<byte>, o: Order)
    requires tag.Var32Tag? || tag.Var64Tag? || tag.Zig32Tag? || tag.Zig64Tag?
    ensures IsTag(tag)
    ensures var g := ReadGroups(bs, 5);
      Take(tag, bs, o) == if g.Short? then Missing else Took(ForTag(tag, g.value), g.used)
    ensures forall v, end, capacity :: !Dangles(ForTag(tag, v), end, capacity)
  {
    hide ReadGroups, Unzigzag;
  }

  lemma DanglesIf(item: Item, end: nat, capacity: nat)
    ensures Dangles(item, end, capacity) <==> item.Text? && item.bytes == [] && end == capacity
  {
  }

  lemma FirstBytes(c: Cursor, capacity: nat, n: nat)
    requires IsCursor(c) && n > 0
    ensures ReadResult(c, capacity, n) == if |Rest(c)| < n then OutOfRange else Done(Rest(c)[..n])
  {
  }

  lemma ReadResultAt(c: Cursor, capacity: nat, n: nat)
    requires IsCursor(c) && |c.data| <= capacity
    ensures ReadResult(c, capacity, n) ==
      if |Rest(c)| < n then OutOfRange
      else if n == 0 && c.pos == capacity then NullPointer
      else Done(Rest(c)[..n])
  {
  }

  // ----- Writing

  /** The writes of one value: a string's length is one, its bytes another. */
  function WritesOf(item: Item, o: Order): seq<Op>
    requires Fits(item)
  {
    match item
    case Text(n, bytes) => [Write(WriteUnsigned(|bytes|, n, o.little, o.host)), Write(bytes)]
    case _ => [Write(Encoded(item, o))]
  }

  function AllWrites(items: seq<Item>, o: Order): seq<Op>
    requires AllFit(items)
  {
    if items == [] then [] else WritesOf(items[0], o) + AllWrites(items[1..], o)
  }

  /** What a list of writes writes. */
  function Written(ops: seq<Op>): seq<byte> {
    if ops == [] then [] else (if ops[0].Write? then ops[0].bytes else []) + Written(ops[1..])
  }

  predicate OnlyWrites(ops: seq<Op>) { forall op <- ops :: op.Write? }

  lemma {:induction false} WrittenAppend(a: seq<Op>, b: seq<Op>)
    ensures Written(a + b) == Written(a) + Written(b)
  {
    if a == [] {
      assert a + b == b;
    } else {
      assert (a + b)[0] == a[0] && (a + b)[1..] == a[1..] + b;
      WrittenAppend(a[1..], b);
    }
  }

  lemma ItemWritten(item: Item, o: Order)
    requires Fits(item)
    ensures OnlyWrites(WritesOf(item, o)) && Written(WritesOf(item, o)) == Encoded(item, o)
  {
    hide WriteUnsigned, Varint, WriteSigned, Zigzag;
    var ops := WritesOf(item, o);
    match item {
      case Text(n, bytes) =>
        assert ops[1..] == [ops[1]] && [ops[1]][1..] == [];
        assert Written([ops[1]]) == bytes + [] == bytes;
      case _ =>
        assert ops[1..] == [] && Written(ops) == Encoded(item, o) + [];
    }
  }

  lemma {:induction false} AllWritten(items: seq<Item>, o: Order)
    requires AllFit(items)
    ensures OnlyWrites(AllWrites(items, o)) && Written(AllWrites(items, o)) == EncodedAll(items, o)
  {
    hide WritesOf, Encoded;
    if items != [] {
      assert items[0] in items && forall item <- items[1..] :: item in items;
      AllWritten(items[1..], o);
      ItemWritten(items[0], o);
      WrittenAppend(WritesOf(items[0], o), AllWrites(items[1..], o));
    }
  }

  /** A run of writes is one write of it all. */
  lemma {:induction false} WritesAreOne(c: Cursor, ops: seq<Op>)
    requires IsCursor(c) && OnlyWrites(ops)
    ensures FlatRun(c, ops) == Wrote(c, Written(ops))
    decreases |ops|
  {
    hide Wrote;
    if ops == [] {
      NoneWritten(c);
    } else {
      assert ops[0] in ops && forall op <- ops[1..] :: op in ops;
      WritesAreOne(Wrote(c, ops[0].bytes), ops[1..]);
      WroteTwice(c, ops[0].bytes, Written(ops[1..]));
    }
  }

  /** Writes that stay below the capacity are safe, and add no blocks. */
  lemma {:induction false} SmallWritesAreSafe(c: Cursor, capacity: nat, base: nat, ops: seq<Op>)
    requires IsCursor(c) && OnlyWrites(ops) && base > 0 && c.pos + |Written(ops)| < capacity
    ensures SafeRun(c, capacity, base, ops)
    decreases |ops|
  {
    if ops != [] {
      assert ops[0] in ops && forall op <- ops[1..] :: op in ops;
      SmallWritesAreSafe(Wrote(c, ops[0].bytes), capacity, base, ops[1..]);
    }
    hide Wrote;
  }

  /** What the writer of a value hands to `write`. */
  method PutItem(item: Item, o: Order) returns (ops: seq<Op>)
    requires Fits(item)
    ensures ops == WritesOf(item, o)
  {
    hide *;
    VarintWrites(item, o);
    if VarintOf(item).Some? {
      var tmp := PutVarint(VarintOf(item).value);
      ops := [Write(tmp)];
    } else {
      ops := WritesOf(item, o);
    }
  }

  method PutItems(items: seq<Item>, o: Order) returns (ops: seq<Op>)
    requires AllFit(items)
    ensures ops == AllWrites(items, o)
  {
    ops := [];
    if items != [] {
      assert items[0] in items;
      var first := PutItem(items[0], o);
      var rest := PutItems(items[1..], o);
      ops := first + rest;
    }
    hide WritesOf;
  }

  /** The number a value is written as if it is a variable-length one. */
  function VarintOf(item: Item): Option<nat>
    requires Fits(item)
  {
    match item
    case Var32(v) => Some(v)
    case Var64(v) => Some(v)
    case Zig32(i) => Some(Zigzag(i, TWO_32 / 2))
    case Zig64(i) => Some(Zigzag(i, TWO_64 / 2))
    case _ => None
  }

  lemma VarintWrites(item: Item, o: Order)
    requires Fits(item)
    ensures VarintOf(item).Some? ==> WritesOf(item, o) == [Write(Varint(VarintOf(item).value))]
  {
    hide Varint, Zigzag;
  }

  /** The writers of one value. */
  method WriteItem(b: ByteArray, item: Item, host: bool)
    requires Ready(b) && Fits(item)
    requires SafeRun(b.Value(), b.capacity, b.baseSize, WritesOf(item, Order(b.littleEndian, host)))
    modifies b.Objects()
    ensures b.littleEndian == old(b.littleEndian)
    ensures Ready(b) && b.Value() == Wrote(old(b.Value()), Encoded(item, Order(old(b.littleEndian), host)))
  {
    hide SafeRun, WritesOf, Encoded, Wrote, Written, OnlyWrites;
    ReadyIs(b);
    b.ValidIs();
    ghost var o := Order(b.littleEndian, host);
    ItemWritten(item, o);
    WritesAreOne(b.Value(), WritesOf(item, o));
    ghost var c := b.Value();
    var ops := PutItem(item, Order(b.littleEndian, host));
    assert b.Value() == c;
    var replies := Run(b, ops);
  }

  method WriteItems(b: ByteArray, items: seq<Item>, host: bool)
    requires Ready(b) && AllFit(items)
    requires SafeRun(b.Value(), b.capacity, b.baseSize, AllWrites(items, Order(b.littleEndian, host)))
    modifies b.Objects()
    ensures b.littleEndian == old(b.littleEndian)
    ensures Ready(b) && b.Value() == Wrote(old(b.Value()), EncodedAll(items, Order(old(b.littleEndian), host)))
  {
    hide SafeRun, AllWrites, EncodedAll, Wrote, Written, OnlyWrites;
    ReadyIs(b);
    b.ValidIs();
    ghost var o := Order(b.littleEndian, host);
    AllWritten(items, o);
    WritesAreOne(b.Value(), AllWrites(items, o));
    ghost var c := b.Value();
    var ops := PutItems(items, Order(b.littleEndian, host));
    assert b.Value() == c;
    var replies := Run(b, ops);
  }

  /** The readers of a list, one after another. */
  method ReadItems(b: ByteArray, tags: seq<Tag>, host: bool) returns (items: seq<Item>, ok: bool)
    requires Ready(b) && forall tag <- tags :: IsTag(tag)
    modifies b`position, b`curr
    ensures match TakeAll(tags, Rest(old(b.Value())), Order(b.littleEndian, host))
      case SomeMissing => !ok
      case TookAll(all, used) =>
        old(b.position) + used < b.capacity ==>
          ok && items == all && Ready(b) && b.Value() == old(b.Value()).(pos := old(b.position) + used)
    decreases |tags|
  {
    hide *;
    ReadyIs(b);
    b.ValidIs();
    ghost var c, o := b.Value(), Order(b.littleEndian, host);
    RestMoves(c, 0);
    if tags == [] {
      NoTags(Rest(c), o);
      return [], true;
    }
    TakeAllIs(tags, Rest(c), o);
    assert tags[0] in tags && forall tag <- tags[1..] :: tag in tags;
    ghost var t := Take(tags[0], Rest(c), o);
    if t.Took? {
      DanglesIf(t.item, c.pos + t.used, b.capacity);
      RestMoves(c, t.used);
    }
    var r := ReadItem(b, tags[0], host);
    if !r.Done? { return [], false; }
    ReadyIs(b);
    b.ValidIs();
    var more, all := ReadItems(b, tags[1..], host);
    items, ok := [r.value] + more, all;
  }

  lemma NoTags(bs: seq<byte>, o: Order)
    ensures TakeAll([], bs, o) == TookAll([], 0)
  {
  }

  lemma TakeAllIs(tags: seq<Tag>, bs: seq<byte>, o: Order)
    requires tags != [] && forall tag <- tags :: IsTag(tag)
    ensures var t := Take(tags[0], bs, o);
      TakeAll(tags, bs, o) ==
        if t.Missing? then SomeMissing
        else
          var more := TakeAll(tags[1..], bs[t.used..], o);
          if more.SomeMissing? then SomeMissing else TookAll([t.item] + more.items, t.used + more.used)
  {
    hide Take;
  }

  /** A list written, and read again from where it starts: the code as written can go back
      only while it is in its first block. */
  method Exchange(b: ByteArray, items: seq<Item>, host: bool) returns (found: seq<Item>)
    requires Ready(b) && AllFit(items)
    requires b.position + |EncodedAll(items, Order(b.littleEndian, host))| < b.baseSize
    modifies b.Objects()
    ensures Ready(b) && found == items
    ensures b.position == old(b.position) + |EncodedAll(items, Order(old(b.littleEndian), host))|
  {
    hide *;
    ReadyIs(b);
    b.ValidIs();
    FirstBlock(b, 0);
    ObjectsAre(b);
    var start := b.position;
    ghost var c, o := b.Value(), Order(b.littleEndian, host);
    ghost var bs := EncodedAll(items, o);
    AllWritten(items, o);
    BaseFits(b);
    SmallWritesAreSafe(c, b.capacity, b.baseSize, AllWrites(items, o));
    WriteItems(b, items, host);
    ReadyIs(b);
    b.ValidIs();
    BaseFits(b);
    FirstBlock(b, start);
    WroteReads(c, bs);
    WroteEnds(c, bs);
    var r := b.SetPosition(start);
    ReadyIs(b);
    b.ValidIs();
    ghost var rest := Rest(b.Value());
    assert rest == bs + rest[|bs|..];
    ListReadBack(items, rest[|bs|..], o);
    var ok;
    found, ok := ReadItems(b, TagsOf(items), host);
    ReadyIs(b);
    b.ValidIs();
  }

  lemma WroteEnds(c: Cursor, buf: seq<byte>)
    requires IsCursor(c)
    ensures Wrote(c, buf).pos == c.pos + |buf| <= |Wrote(c, buf).data|
  {
  }

  lemma BaseFits(b: ByteArray)
    requires b.Valid()
    ensures b.baseSize <= b.capacity
  {
    hide *;
    b.ValidIs();
    StartNext(0, b.baseSize);
    StartOrder(0, |b.nodes|, b.baseSize);
  }
}
