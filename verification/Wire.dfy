/** The protobuf wire format as prost reads and writes it: varints, keys and the fields of a message. */
module Wire {
  import opened Base
  import Utf8

  /** Base-128 varint, least significant group first. */
  function Varint(n: nat): (s: seq<byte>)
    ensures s != []
  {
    if n < 0x80 then [n] else [n % 0x80 + 0x80] + Varint(n / 0x80)
  }

  /** Reads at most `groups` groups; the tenth of ten may only hold the top bit of a 64-bit value. */
  function ReadVarint(s: seq<byte>, groups: nat): (r: Option<(nat, seq<byte>)>)
    ensures r.Some? ==> |r.value.1| < |s|
  {
    if s == [] || groups == 0 then None
    else if s[0] < 0x80 then
      if groups == 1 && s[0] >= 2 then None else Some((s[0], s[1..]))
    else match ReadVarint(s[1..], groups - 1)
      case None => None
      case Some((high, rest)) => Some((s[0] - 0x80 + 0x80 * high, rest))
  }

  const MAX_GROUPS := 10

  /** Values that fit: 7 bits a group, one bit in the last. */
  function Capacity(groups: nat): nat {
    if groups == 0 then 0 else if groups == 1 then 2 else 0x80 * Capacity(groups - 1)
  }

  lemma {:induction false} ReadOfVarint(n: nat, rest: seq<byte>, groups: nat)
    requires n < Capacity(groups)
    ensures ReadVarint(Varint(n) + rest, groups) == Some((n, rest))
  {
    var s := Varint(n) + rest;
    if n < 0x80 {
      assert s[1..] == rest;
    } else {
      assert s[1..] == Varint(n / 0x80) + rest;
      ReadOfVarint(n / 0x80, rest, groups - 1);
    }
  }

  /** Seven bits a byte, the least significant first. */
  function Base128(s: seq<byte>): nat {
    if s == [] then 0 else s[0] % 0x80 + 0x80 * Base128(s[1..])
  }

  /** Every byte but the last has its top bit set. */
  predicate IsGroups(s: seq<byte>) {
    s != [] && forall i :: 0 <= i < |s| ==> (s[i] >= 0x80 <==> i < |s| - 1)
  }

  /** A number is written as its groups of seven bits, without leading zeros. */
  lemma {:induction false} VarintIsBase128(n: nat)
    ensures IsGroups(Varint(n)) && Base128(Varint(n)) == n
    ensures |Varint(n)| > 1 ==> Varint(n)[|Varint(n)| - 1] != 0
  {
    if n >= 0x80 {
      VarintIsBase128(n / 0x80);
      assert Varint(n)[1..] == Varint(n / 0x80);
    } else {
      assert [n][1..] == [];
    }
  }

  /**
   Any groups are read as the number they stand for, leading zeros included, exactly if there are at most
   `groups` of them and the last possible one holds a single bit.
   */
  lemma {:induction false} GroupsAreRead(g: seq<byte>, rest: seq<byte>, groups: nat)
    requires IsGroups(g)
    ensures ReadVarint(g + rest, groups) ==
      if |g| > groups || (|g| == groups && g[|g| - 1] >= 2) then None else Some((Base128(g), rest))
  {
    var s := g + rest;
    if groups > 0 {
      if |g| == 1 {
        assert g[1..] == [] && s[1..] == rest;
      } else {
        assert s[1..] == g[1..] + rest;
        GroupsAreRead(g[1..], rest, groups - 1);
      }
    }
  }

  lemma CapacityIs64Bits()
    ensures Capacity(MAX_GROUPS) == TWO_TO_THE_64
  {
  }

  datatype Value =
    | Number(n: nat)            // wire type 0
    | Fixed64(bytes: seq<byte>) // wire type 1
    | Bytes(bytes: seq<byte>)   // wire type 2
    | Fixed32(bytes: seq<byte>) // wire type 5

  datatype Field = Field(tag: nat, value: Value)

  function WireType(v: Value): nat {
    match v
    case Number(_) => 0
    case Fixed64(_) => 1
    case Bytes(_) => 2
    case Fixed32(_) => 5
  }

  /** Fields that can be written: a 29-bit tag, a 64-bit number, a length below 2^64. */
  predicate Writable(f: Field) {
    && 0 < f.tag < 0x2000_0000
    && match f.value
       case Number(n) => n < TWO_TO_THE_64
       case Fixed64(b) => |b| == 8
       case Bytes(b) => |b| < TWO_TO_THE_64
       case Fixed32(b) => |b| == 4
  }

  function WriteValue(v: Value): seq<byte> {
    match v
    case Number(n) => Varint(n)
    case Fixed64(b) => b
    case Bytes(b) => Varint(|b|) + b
    case Fixed32(b) => b
  }

  function WriteField(f: Field): (s: seq<byte>)
    ensures s != []
  {
    Varint(8 * f.tag + WireType(f.value)) + WriteValue(f.value)
  }

  /** Short fields byte by byte: the key is eight times the tag plus the wire type. */
  lemma ShortFields(tag: nat, n: nat, b: seq<byte>)
    requires 0 < tag < 16 && n < 0x80 && |b| < 0x80
    ensures WriteField(Field(tag, Number(n))) == [8 * tag, n]
    ensures WriteField(Field(tag, Bytes(b))) == [8 * tag + 2, |b|] + b
    ensures |b| == 8 ==> WriteField(Field(tag, Fixed64(b))) == [8 * tag + 1] + b
    ensures |b| == 4 ==> WriteField(Field(tag, Fixed32(b))) == [8 * tag + 5] + b
  {
  }

  function Take(s: seq<byte>, n: nat): Option<(seq<byte>, seq<byte>)> {
    if n <= |s| then Some((s[..n], s[n..])) else None
  }

  /** The value of wire type `wire` at the front of `s`. */
  function ReadValue(wire: nat, s: seq<byte>): (r: Option<(Value, seq<byte>)>)
    ensures r.Some? ==> |r.value.1| <= |s|
  {
    match wire
    case 0 =>
      (match ReadVarint(s, MAX_GROUPS)
       case None => None
       case Some((n, rest)) => Some((Number(n), rest)))
    case 1 =>
      (match Take(s, 8) case None => None case Some((b, rest)) => Some((Fixed64(b), rest)))
    case 2 =>
      (match ReadVarint(s, MAX_GROUPS)
       case None => None
       case Some((n, rest)) =>
         (match Take(rest, n) case None => None case Some((b, rest')) => Some((Bytes(b), rest'))))
    case 5 =>
      (match Take(s, 4) case None => None case Some((b, rest)) => Some((Fixed32(b), rest)))
    case _ => None
  }

  function ReadField(s: seq<byte>): (r: Option<(Field, seq<byte>)>)
    ensures r.Some? ==> |r.value.1| < |s|
  {
    match ReadVarint(s, MAX_GROUPS)
    case None => None
    case Some((key, rest)) =>
      if key >= TWO_TO_THE_32 || key / 8 == 0 then None
      else match ReadValue(key % 8, rest)
        case None => None
        case Some((v, rest')) => Some((Field(key / 8, v), rest'))
  }

  /** All fields of a message; `None` when prost rejects the bytes. */
  function ReadFields(s: seq<byte>): Option<seq<Field>>
    decreases |s|
  {
    if s == [] then Some([])
    else match ReadField(s)
      case None => None
      case Some((f, rest)) =>
        (match ReadFields(rest)
         case None => None
         case Some(fs) => Some([f] + fs))
  }

  function WriteFields(fs: seq<Field>): seq<byte> {
    if fs == [] then [] else WriteField(fs[0]) + WriteFields(fs[1..])
  }

  lemma KeyIsRead(f: Field, rest: seq<byte>)
    requires Writable(f)
    ensures var key := 8 * f.tag + WireType(f.value);
      && ReadVarint(Varint(key) + rest, MAX_GROUPS) == Some((key, rest))
      && key < TWO_TO_THE_32 && key % 8 == WireType(f.value) && key / 8 == f.tag
  {
    CapacityIs64Bits();
    ReadOfVarint(8 * f.tag + WireType(f.value), rest, MAX_GROUPS);
  }

  lemma ValueIsRead(f: Field, rest: seq<byte>)
    requires Writable(f)
    ensures ReadValue(WireType(f.value), WriteValue(f.value) + rest) == Some((f.value, rest))
  {
    CapacityIs64Bits();
    hide Varint, ReadVarint;
    match f.value
    case Number(n) => ReadOfVarint(n, rest, MAX_GROUPS);
    case Bytes(b) =>
      assert Varint(|b|) + b + rest == Varint(|b|) + (b + rest);
      ReadOfVarint(|b|, b + rest, MAX_GROUPS);
      assert (b + rest)[..|b|] == b && (b + rest)[|b|..] == rest;
    case Fixed64(b) => assert (b + rest)[..8] == b && (b + rest)[8..] == rest;
    case Fixed32(b) => assert (b + rest)[..4] == b && (b + rest)[4..] == rest;
  }

  lemma ReadOfWrittenField(f: Field, rest: seq<byte>)
    requires Writable(f)
    ensures ReadField(WriteField(f) + rest) == Some((f, rest))
  {
    hide Varint, ReadVarint, ReadValue, WriteValue, WireType;
    var key := 8 * f.tag + WireType(f.value);
    assert WriteField(f) + rest == Varint(key) + (WriteValue(f.value) + rest);
    KeyIsRead(f, WriteValue(f.value) + rest);
    ValueIsRead(f, rest);
  }

  /** Reading what was written gives the fields back, in order. */
  lemma {:induction false} ReadOfWritten(fs: seq<Field>)
    requires forall i :: 0 <= i < |fs| ==> Writable(fs[i])
    ensures ReadFields(WriteFields(fs)) == Some(fs)
  {
    if fs != [] {
      ReadOfWritten(fs[1..]);
      ReadOfWrittenField(fs[0], WriteFields(fs[1..]));
      assert [fs[0]] + fs[1..] == fs;
    }
  }

  // ---- Optional fields ----------------------------------------------------------

  function Text(tag: nat, o: Option<seq<byte>>): seq<Field> {
    if o.Some? then [Field(tag, Bytes(o.value))] else []
  }

  function Num(tag: nat, o: Option<u64>): seq<Field> {
    if o.Some? then [Field(tag, Number(o.value))] else []
  }

  /** Lengths stay far below 2^64 on any machine; only then can a length prefix be written. */
  predicate AllWritable(fs: seq<Field>) {
    forall i :: 0 <= i < |fs| ==> Writable(fs[i])
  }

  // ---- Messages ---------------------------------------------------------------

  function ReadString(v: Value): Option<seq<byte>> {
    if v.Bytes? && Utf8.Valid(v.bytes) then Some(v.bytes) else None
  }

  function ReadU64(v: Value): Option<u64> {
    if v.Number? && v.n < TWO_TO_THE_64 then Some(v.n) else None
  }

  function ReadBytes(v: Value): Option<seq<byte>> {
    if v.Bytes? then Some(v.bytes) else None
  }

  /** A `uint32` keeps the low 32 bits of the varint. */
  function ReadU32(v: Value): Option<u32> {
    if v.Number? then Some(v.n % 0x1_0000_0000) else None
  }

  /** An `int32` keeps the low 32 bits, as two's complement. */
  function ReadI32(v: Value): Option<c_int> {
    if !v.Number? then None
    else
      var low := v.n % 0x1_0000_0000;
      Some(if low < 0x8000_0000 then low else low - 0x1_0000_0000)
  }

  /** prost merges field by field; the first field it rejects fails the message. */
  function Merge<M>(step: (M, Field) -> Option<M>, m: M, fs: seq<Field>): Option<M>
    decreases |fs|
  {
    if fs == [] then Some(m)
    else match step(m, fs[0])
      case None => None
      case Some(m') => Merge(step, m', fs[1..])
  }

  /** An embedded message: its fields are merged into what an earlier occurrence left. */
  function MergeInto<M>(step: (M, Field) -> Option<M>, initial: M, m: Option<M>, v: Value): Option<M> {
    if !v.Bytes? then None
    else match ReadFields(v.bytes)
      case None => None
      case Some(fs) => Merge(step, if m.Some? then m.value else initial, fs)
  }

  lemma {:induction false} MergeAppend<M>(step: (M, Field) -> Option<M>, m: M, a: seq<Field>, b: seq<Field>)
    requires Merge(step, m, a).Some?
    ensures Merge(step, m, a + b) == Merge(step, Merge(step, m, a).value, b)
    decreases |a|
  {
    if a == [] {
      assert a + b == b;
    } else {
      assert (a + b)[1..] == a[1..] + b;
      MergeAppend(step, step(m, a[0]).value, a[1..], b);
    }
  }

  /** An `int32` is read back from its sign-extended varint. */
  lemma ReadsI32(v: c_int)
    ensures ReadI32(Number(if v >= 0 then v else v + TWO_TO_THE_64)) == Some(v)
  {
  }

  lemma ReadsU32(n: u32)
    ensures ReadU32(Number(n)) == Some(n)
  {
  }

  /** A number too wide for 32 bits is read as its low half, whatever the high half is. */
  lemma LowHalfIsRead(high: u32, low: u32)
    ensures ReadU32(Number(0x1_0000_0000 * high as int + low as int)) == Some(low)
    ensures ReadI32(Number(0x1_0000_0000 * high as int + low as int)) ==
      Some(if low < 0x8000_0000 then low else low as int - 0x1_0000_0000)
  {
  }

  lemma MergeOne<M>(step: (M, Field) -> Option<M>, m: M, f: Field)
    ensures Merge(step, m, [f]) == step(m, f)
  {
    assert [f][1..] == [];
  }

  lemma MergeTwo<M>(step: (M, Field) -> Option<M>, m0: M, a: Field, m1: M, b: Field)
    requires step(m0, a) == Some(m1)
    ensures Merge(step, m0, [a, b]) == step(m1, b)
  {
    assert [a, b][1..] == [b];
    MergeOne(step, m1, b);
  }

  /** At most one field: what merging it leaves. */
  lemma MergeAtMostOne<M>(step: (M, Field) -> Option<M>, m: M, fs: seq<Field>, m': M)
    requires |fs| <= 1
    requires if fs == [] then m' == m else step(m, fs[0]) == Some(m')
    ensures Merge(step, m, fs) == Some(m')
  {
    if fs != [] {
      assert fs == [fs[0]];
      MergeOne(step, m, fs[0]);
    }
  }

  lemma {:induction false} VarintLength(n: nat, groups: nat)
    requires n < Capacity(groups)
    ensures |Varint(n)| <= groups
  {
    if n >= 0x80 {
      VarintLength(n / 0x80, groups - 1);
    }
  }

  lemma ScalarLength(tag: nat, v: Value, content: nat)
    requires Writable(Field(tag, v))
    requires v.Number? || (v.Bytes? && |v.bytes| <= content)
    ensures |WriteField(Field(tag, v))| <= 20 + content
  {
    CapacityIs64Bits();
    VarintLength(8 * tag + WireType(v), MAX_GROUPS);
    match v
    case Number(n) => VarintLength(n, MAX_GROUPS);
    case Bytes(b) => VarintLength(|b|, MAX_GROUPS);
  }
}
