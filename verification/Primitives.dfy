/** Varints, tags, length-delimited records and skipping: the lowest layer of the wire format. */
module Primitives {
  import opened Wrappers
  import opened Words

  datatype WireType = Varint | SixtyFourBit | Len | ThirtyTwoBit

  datatype WireError =
    | InvalidVarint
    | InvalidLengthDelimited
    | UnexpectedEof
    | TagZero
    | UnsupportedWireType(code: nat)
    | WireTypeMismatch
    | NotPackable
    | InvalidUtf8Key
    | UnsupportedKeyKind
    | MissingKey
    | MissingValue
    | MapNotMap
    | MapViaEntryPath
    | UnknownField
    | NotAMessage
    | FieldNumberZero
    | NotAnArray
    | NotAMapOrObject
    | InvalidKey
    | InvalidNumber

  /** A byte buffer: `bytes::Bytes` when consumed from the front, `bytes::BytesMut` when appended to. */
  class Buffer {
    var data: seq<byte>

    constructor (data: seq<byte>)
      ensures this.data == data
    {
      this.data := data;
    }
  }

  // ---------------------------------------------------------------- varints

  /** The written form of `v`: seven bits a byte, low group first, the high bit set on all but the last. */
  function VarintBytes(v: u64): (bs: seq<byte>)
    ensures bs != []
    decreases v
  {
    if v < 0x80 then [v] else [v % 0x80 + 0x80] + VarintBytes(v / 0x80)
  }

  /** How many bytes at the front of `src` form a varint: up to the first byte below 0x80, ten at most. */
  function VarintLength(src: seq<byte>, limit: nat): (n: Option<nat>)
    ensures n.Some? ==> 1 <= n.value <= limit && n.value <= |src|
  {
    if src == [] || limit == 0 then None
    else if src[0] < 0x80 then Some(1)
    else match VarintLength(src[1..], limit - 1)
      case None => None
      case Some(n) => Some(n + 1)
  }

  /** The number a group of varint bytes stands for, before it is cut to 64 bits. */
  function GroupValue(bs: seq<byte>): nat {
    if bs == [] then 0 else bs[0] % 0x80 + 0x80 * GroupValue(bs[1..])
  }

  function Pow128(k: nat): (p: nat)
    ensures p > 0
  {
    if k == 0 then 1 else 0x80 * Pow128(k - 1)
  }

  /** What reading a varint means: the number and the bytes left. */
  function TakeVarint(src: seq<byte>): (r: Result<(u64, seq<byte>), WireError>)
    ensures r.Ok? ==> |r.value.1| < |src|
  {
    match VarintLength(src, 10)
    case None => Err(InvalidVarint)
    case Some(n) => Ok((GroupValue(src[..n]) % TWO_64, src[n..]))
  }

  lemma {:induction false} GroupAppend(bs: seq<byte>, b: byte)
    ensures GroupValue(bs + [b]) == GroupValue(bs) + (b % 0x80) * Pow128(|bs|)
  {
    if bs == [] {
      assert bs + [b] == [b];
      assert GroupValue([b]) == b % 0x80 + 0x80 * GroupValue([b][1..]);
    } else {
      GroupAppend(bs[1..], b);
      assert (bs + [b])[1..] == bs[1..] + [b];
      assert 0x80 * ((b % 0x80) * Pow128(|bs| - 1)) == (b % 0x80) * Pow128(|bs|);
    }
  }

  lemma {:induction false} GroupBound(bs: seq<byte>)
    ensures GroupValue(bs) < Pow128(|bs|)
  {
    if bs != [] {
      GroupBound(bs[1..]);
    }
  }

  lemma Pow128Nine()
    ensures Pow128(9) == TWO_63
  {
    assert Pow128(3) == 0x80 * (0x80 * (0x80 * Pow128(0)));
    assert Pow128(6) == 0x80 * (0x80 * (0x80 * Pow128(3)));
    assert Pow128(9) == 0x80 * (0x80 * (0x80 * Pow128(6)));
  }

  /** `VarintLength` seen from the middle of a scan whose bytes so far all carry the continuation bit. */
  lemma {:induction false} VarintLengthScan(src: seq<byte>, i: nat, limit: nat)
    requires i <= |src| && i <= limit
    requires forall j :: 0 <= j < i ==> src[j] >= 0x80
    ensures VarintLength(src, limit) ==
            match VarintLength(src[i..], limit - i) { case None => None case Some(n) => Some(n + i) }
  {
    if i == 0 {
      assert src[0..] == src;
    } else {
      assert forall j :: 0 <= j < i - 1 ==> src[1..][j] == src[j + 1];
      VarintLengthScan(src[1..], i - 1, limit - 1);
      assert src[1..][i - 1..] == src[i..];
    }
  }

  method WriteVarint(v: u64, out: Buffer)
    modifies out
    ensures out.data == old(out.data) + VarintBytes(v)
  {
    var rest := v;
    while rest >= 0x80
      invariant 0 <= rest < TWO_64
      invariant out.data + VarintBytes(rest) == old(out.data) + VarintBytes(v)
    {
      out.data := out.data + [rest % 0x80 + 0x80];
      rest := rest / 0x80;
    }
    out.data := out.data + [rest];
  }

  /** The contribution of the byte read at `shift`, cut to 64 bits, never overlaps the bits below it. */
  method ReadVarint(src: Buffer) returns (r: Result<u64, WireError>)
    modifies src
    ensures match TakeVarint(old(src.data))
            case Ok(t) => r == Ok(t.0) && src.data == t.1
            case Err(e) => r == Err(e) && src.data == old(src.data)[if |old(src.data)| < 10 then |old(src.data)| else 10..]
  {
    ghost var all := src.data;
    ghost var i := 0;
    var shift, power, out := 0, 1, 0;
    while |src.data| > 0
      invariant 0 <= i <= |all| && i < 10 && src.data == all[i..]
      invariant shift == 7 * i && power == Pow128(i)
      invariant forall j :: 0 <= j < i ==> all[j] >= 0x80
      invariant out == GroupValue(all[..i])
      decreases |src.data|
    {
      var b := src.data[0];
      src.data := src.data[1..];
      assert all[..i + 1] == all[..i] + [b];
      GroupAppend(all[..i], b);
      GroupBound(all[..i]);
      ShiftedByte(out, b, power, i);
      out := out + (b % 0x80) * power % TWO_64;
      if b < 0x80 {
        VarintLengthScan(all, i, 10);
        return Ok(out);
      }
      shift, power, i := shift + 7, power * 0x80, i + 1;
      if shift >= 64 {
        VarintLengthScan(all, i, 10);
        return Err(InvalidVarint);
      }
      assert i <= 9;
      GroupSmall(all[..i]);
    }
    VarintLengthScan(all, i, 10);
    r := Err(InvalidVarint);
  }

  /** Adding a byte shifted and cut to 64 bits gives the group value cut to 64 bits. */
  lemma ShiftedByte(acc: nat, b: byte, power: nat, i: nat)
    requires i < 10 && power == Pow128(i) && acc < power
    ensures acc + (b % 0x80) * power % TWO_64 < TWO_64
    ensures (acc + (b % 0x80) * power) % TWO_64 == acc + (b % 0x80) * power % TWO_64
    ensures i < 9 ==> acc + (b % 0x80) * power < TWO_64 && (b % 0x80) * power % TWO_64 == (b % 0x80) * power
  {
    Pow128Nine();
    if i < 9 {
      Pow128Grows(i + 1, 9);
      assert (b % 0x80) * power <= 0x7f * power;
    } else {
      assert power == TWO_63;
      TopByte(acc, b % 0x80);
    }
  }

  /** The tenth byte reaches only the top bit. */
  lemma TopByte(acc: nat, k: nat)
    requires acc < TWO_63
    ensures k * TWO_63 % TWO_64 == (k % 2) * TWO_63
    ensures (acc + k * TWO_63) % TWO_64 == acc + k * TWO_63 % TWO_64 < TWO_64
  {
    var half := k / 2;
    assert k * TWO_63 == half * TWO_64 + (k % 2) * TWO_63;
  }

  lemma {:induction false} Pow128Grows(i: nat, j: nat)
    requires i <= j
    ensures Pow128(i) <= Pow128(j)
  {
    if i < j {
      Pow128Grows(i, j - 1);
    }
  }

  lemma GroupSmall(bs: seq<byte>)
    requires |bs| <= 9
    ensures GroupValue(bs) < TWO_63
  {
    GroupBound(bs);
    Pow128Grows(|bs|, 9);
    Pow128Nine();
  }

  /** Reading undoes writing, whatever follows. */
  lemma {:induction false} VarintScan(v: u64, suffix: seq<byte>, limit: nat)
    requires limit > 0 && v < Pow128(limit)
    ensures VarintLength(VarintBytes(v) + suffix, limit) == Some(|VarintBytes(v)|)
    ensures GroupValue(VarintBytes(v)) == v
    decreases v
  {
    var bs := VarintBytes(v);
    if v < 0x80 {
      assert (bs + suffix)[0] == v;
      assert bs[1..] == [];
    } else {
      assert Pow128(1) == 0x80 * Pow128(0);
      VarintScan(v / 0x80, suffix, limit - 1);
      assert bs[1..] == VarintBytes(v / 0x80);
      assert (bs + suffix)[1..] == VarintBytes(v / 0x80) + suffix;
    }
  }

  lemma VarintRoundTrip(v: u64, suffix: seq<byte>)
    ensures TakeVarint(VarintBytes(v) + suffix) == Ok((v, suffix))
    ensures |VarintBytes(v)| <= 10
  {
    Pow128Nine();
    assert Pow128(10) == 0x80 * Pow128(9);
    VarintScan(v, suffix, 10);
    var n := |VarintBytes(v)|;
    assert (VarintBytes(v) + suffix)[..n] == VarintBytes(v);
    assert (VarintBytes(v) + suffix)[n..] == suffix;
  }

  /** The written form is the shortest: any varint that reads as `v` takes at least as many bytes. */
  lemma VarintShortest(v: u64, src: seq<byte>)
    requires TakeVarint(src).Ok? && TakeVarint(src).value.0 == v
    ensures |VarintBytes(v)| <= |src| - |TakeVarint(src).value.1|
  {
    var n := VarintLength(src, 10).value;
    GroupBound(src[..n]);
    if n < 10 {
      GroupSmall(src[..n]);
      VarintBytesBound(v, n);
    } else {
      VarintRoundTrip(v, []);
    }
  }

  lemma {:induction false} VarintBytesBound(v: u64, n: nat)
    requires n > 0 && v < Pow128(n)
    ensures |VarintBytes(v)| <= n
    decreases n
  {
    if v >= 0x80 {
      assert n > 1 by { assert Pow128(1) == 0x80 * Pow128(0); }
      VarintBytesBound(v / 0x80, n - 1);
    }
  }

  /** A varint is readable exactly when one of the first ten bytes ends it. */
  lemma {:induction false} VarintReadable(src: seq<byte>, limit: nat)
    ensures VarintLength(src, limit).Some? <==> exists j :: 0 <= j < |src| && j < limit && src[j] < 0x80
  {
    if src != [] && limit > 0 && src[0] >= 0x80 {
      VarintReadable(src[1..], limit - 1);
      if j :| 0 <= j < |src[1..]| && j < limit - 1 && src[1..][j] < 0x80 {
        assert src[j + 1] < 0x80;
      }
      if j :| 0 <= j < |src| && j < limit && src[j] < 0x80 {
        assert src[1..][j - 1] < 0x80;
      }
    }
  }

  lemma ReadableIffTerminated(src: seq<byte>)
    ensures TakeVarint(src).Ok? <==> exists j :: 0 <= j < |src| && j < 10 && src[j] < 0x80
  {
    VarintReadable(src, 10);
  }

  /** A successful read does not look past the varint. */
  lemma {:induction false} VarintLengthLocal(src: seq<byte>, t: seq<byte>, limit: nat)
    requires VarintLength(src, limit).Some?
    ensures VarintLength(src + t, limit) == VarintLength(src, limit)
  {
    if src[0] >= 0x80 {
      VarintLengthLocal(src[1..], t, limit - 1);
      assert (src + t)[1..] == src[1..] + t;
    }
  }

  lemma TakeVarintLocal(src: seq<byte>, t: seq<byte>)
    requires TakeVarint(src).Ok?
    ensures TakeVarint(src + t) == Ok((TakeVarint(src).value.0, TakeVarint(src).value.1 + t))
  {
    VarintLengthLocal(src, t, 10);
    var n := VarintLength(src, 10).value;
    assert (src + t)[..n] == src[..n];
    assert (src + t)[n..] == src[n..] + t;
  }

  // ----------------------------------------------------------------- zigzag

  /** `v << 1`, cut to 64 bits, xor the sign spread over all bits (xor with all ones is complement). */
  function EncodeZigzag(v: i64): u64 {
    var shifted := I64AsU64(v) * 2 % TWO_64;
    if v < 0 then TWO_64 - 1 - shifted else shifted
  }

  /** `v >> 1` xor the low bit spread over all bits. */
  function DecodeZigzag(v: u64): i64 {
    if v % 2 == 0 then U64AsI64(v / 2) else -1 - U64AsI64(v / 2)
  }

  lemma ZigzagBijection(i: i64, u: u64)
    ensures DecodeZigzag(EncodeZigzag(i)) == i
    ensures EncodeZigzag(DecodeZigzag(u)) == u
    ensures EncodeZigzag(i) == if i >= 0 then 2 * i else -2 * i - 1
  {
    if i < 0 {
      assert (i + TWO_64) * 2 == TWO_64 + (2 * i + TWO_64);
      assert (i + TWO_64) * 2 % TWO_64 == 2 * i + TWO_64;
    }
    var d := DecodeZigzag(u);
    if d < 0 {
      assert (d + TWO_64) * 2 == TWO_64 + (2 * d + TWO_64);
      assert (d + TWO_64) * 2 % TWO_64 == 2 * d + TWO_64;
    }
  }

  // ------------------------------------------------------------------- tags

  function WireCode(wt: WireType): nat {
    match wt
    case Varint => 0
    case SixtyFourBit => 1
    case Len => 2
    case ThirtyTwoBit => 5
  }

  function WireTypeOf(code: nat): Result<WireType, WireError> {
    if code == 0 then Ok(Varint)
    else if code == 1 then Ok(SixtyFourBit)
    else if code == 2 then Ok(Len)
    else if code == 5 then Ok(ThirtyTwoBit)
    else Err(UnsupportedWireType(code))
  }

  function TagBytes(number: u32, wt: WireType): (bs: seq<byte>)
    ensures bs != []
  {
    VarintBytes(number * 8 + WireCode(wt))
  }

  /** The head of a record: field number (cut to 32 bits), wire type, bytes left. */
  function TakeTag(src: seq<byte>): (r: Result<(u32, WireType, seq<byte>), WireError>)
    ensures r.Ok? ==> |r.value.2| < |src|
  {
    var (tag, rest) :- TakeVarint(src);
    if tag == 0 then Err(TagZero)
    else
      var wt :- WireTypeOf(tag % 8);
      Ok((U64AsU32(tag / 8), wt, rest))
  }

  method WriteTag(number: u32, wt: WireType, out: Buffer)
    modifies out
    ensures out.data == old(out.data) + TagBytes(number, wt)
  {
    var code := match wt { case Varint => 0 case SixtyFourBit => 1 case Len => 2 case ThirtyTwoBit => 5 };
    WriteVarint(number * 8 + code, out);
  }

  method ReadTag(src: Buffer) returns (r: Result<(u32, WireType), WireError>)
    modifies src
    ensures match TakeTag(old(src.data))
            case Ok(t) => r == Ok((t.0, t.1)) && src.data == t.2
            case Err(e) => r == Err(e)
  {
    var tag :- ReadVarint(src);
    if tag == 0 {
      return Err(TagZero);
    }
    var number := U64AsU32(tag / 8);
    var wt :- WireTypeOf(tag % 8);
    r := Ok((number, wt));
  }

  /** A written tag reads back, unless it is the all-zero tag the reader rejects. */
  lemma TagRoundTrip(number: u32, wt: WireType, suffix: seq<byte>)
    ensures TakeTag(TagBytes(number, wt) + suffix) ==
            if number == 0 && wt == Varint then Err(TagZero) else Ok((number, wt, suffix))
  {
    hide TakeVarint, VarintBytes;
    var tag := number * 8 + WireCode(wt);
    VarintRoundTrip(tag, suffix);
    assert tag / 8 == number && tag % 8 == WireCode(wt);
  }

  lemma TakeTagLocal(src: seq<byte>, t: seq<byte>)
    requires TakeTag(src).Ok?
    ensures TakeTag(src + t) == Ok((TakeTag(src).value.0, TakeTag(src).value.1, TakeTag(src).value.2 + t))
  {
    TakeVarintLocal(src, t);
  }

  // -------------------------------------------------------- length-delimited

  /** Length (as a 64-bit word) then the bytes. */
  function LenDelimited(body: seq<byte>): (bs: seq<byte>)
    ensures |body| < |bs|
  {
    VarintBytes(|body| % TWO_64) + body
  }

  function TakeLenDelimited(src: seq<byte>): (r: Result<(seq<byte>, seq<byte>), WireError>)
    ensures r.Ok? ==> |r.value.0| < |src| && |r.value.1| < |src|
  {
    var (n, rest) :- TakeVarint(src);
    if |rest| < n then Err(InvalidLengthDelimited) else Ok((rest[..n], rest[n..]))
  }

  method WriteLenDelimited(body: seq<byte>, out: Buffer)
    modifies out
    ensures out.data == old(out.data) + LenDelimited(body)
  {
    WriteVarint(|body| % TWO_64, out);
    out.data := out.data + body;
  }

  method ReadLenDelimited(src: Buffer) returns (r: Result<seq<byte>, WireError>)
    modifies src
    ensures match TakeLenDelimited(old(src.data))
            case Ok(t) => r == Ok(t.0) && src.data == t.1
            case Err(e) => r == Err(e)
  {
    var n :- ReadVarint(src);
    if |src.data| < n {
      return Err(InvalidLengthDelimited);
    }
    r := Ok(src.data[..n]);
    src.data := src.data[n..];
  }

  lemma LenDelimitedRoundTrip(body: seq<byte>, suffix: seq<byte>)
    requires |body| < TWO_64
    ensures TakeLenDelimited(LenDelimited(body) + suffix) == Ok((body, suffix))
  {
    VarintRoundTrip(|body|, body + suffix);
    assert LenDelimited(body) + suffix == VarintBytes(|body|) + (body + suffix);
    assert (body + suffix)[..|body|] == body && (body + suffix)[|body|..] == suffix;
  }

  lemma TakeLenDelimitedLocal(src: seq<byte>, t: seq<byte>)
    requires TakeLenDelimited(src).Ok?
    ensures TakeLenDelimited(src + t) == Ok((TakeLenDelimited(src).value.0, TakeLenDelimited(src).value.1 + t))
  {
    TakeVarintLocal(src, t);
    var (n, rest) := TakeVarint(src).value;
    assert (rest + t)[..n] == rest[..n] && (rest + t)[n..] == rest[n..] + t;
  }

  // ------------------------------------------------------------------- fixed

  function TakeFixed(src: seq<byte>, width: nat): (r: Result<(nat, seq<byte>), WireError>)
    ensures r.Ok? ==> |r.value.1| + width == |src| && r.value.0 < Pow256(width)
  {
    if |src| < width then Err(UnexpectedEof)
    else
      LeValueBound(src[..width]);
      Ok((LeValue(src[..width]), src[width..]))
  }

  method ReadFixed(src: Buffer, width: nat) returns (r: Result<nat, WireError>)
    modifies src
    ensures match TakeFixed(old(src.data), width)
            case Ok(t) => r == Ok(t.0) && src.data == t.1
            case Err(e) => r == Err(e)
  {
    if |src.data| < width {
      return Err(UnexpectedEof);
    }
    r := Ok(LeValue(src.data[..width]));
    src.data := src.data[width..];
  }

  lemma FixedRoundTrip(n: nat, width: nat, suffix: seq<byte>)
    requires n < Pow256(width)
    ensures TakeFixed(LeBytes(n, width) + suffix, width) == Ok((n, suffix))
  {
    LeRoundTrip(n, width);
    assert (LeBytes(n, width) + suffix)[..width] == LeBytes(n, width);
    assert (LeBytes(n, width) + suffix)[width..] == suffix;
  }

  lemma TakeFixedLocal(src: seq<byte>, width: nat, t: seq<byte>)
    requires TakeFixed(src, width).Ok?
    ensures TakeFixed(src + t, width) == Ok((TakeFixed(src, width).value.0, TakeFixed(src, width).value.1 + t))
  {
    assert (src + t)[..width] == src[..width];
    assert (src + t)[width..] == src[width..] + t;
  }

  // ---------------------------------------------------------------- skipping

  /** What an unknown field of wire type `wt` takes up: the bytes after it. */
  function Skip(wt: WireType, src: seq<byte>): (r: Result<seq<byte>, WireError>)
    ensures r.Ok? ==> |r.value| < |src|
  {
    match wt
    case Varint => (var (_, rest) :- TakeVarint(src); Ok(rest))
    case SixtyFourBit => (var (_, rest) :- TakeFixed(src, 8); Ok(rest))
    case Len => (var (_, rest) :- TakeLenDelimited(src); Ok(rest))
    case ThirtyTwoBit => (var (_, rest) :- TakeFixed(src, 4); Ok(rest))
  }

  method SkipValue(wt: WireType, src: Buffer) returns (r: Result<(), WireError>)
    modifies src
    ensures match Skip(wt, old(src.data))
            case Ok(rest) => r == Ok(()) && src.data == rest
            case Err(e) => r == Err(e)
  {
    match wt {
      case Varint =>
        var _ :- ReadVarint(src);
      case SixtyFourBit =>
        if |src.data| < 8 {
          return Err(UnexpectedEof);
        }
        src.data := src.data[8..];
      case Len =>
        var _ :- ReadLenDelimited(src);
      case ThirtyTwoBit =>
        if |src.data| < 4 {
          return Err(UnexpectedEof);
        }
        src.data := src.data[4..];
    }
    r := Ok(());
  }

  lemma SkipLocal(wt: WireType, src: seq<byte>, t: seq<byte>)
    requires Skip(wt, src).Ok?
    ensures Skip(wt, src + t) == Ok(Skip(wt, src).value + t)
  {
    match wt {
      case Varint => TakeVarintLocal(src, t);
      case SixtyFourBit => TakeFixedLocal(src, 8, t);
      case Len => TakeLenDelimitedLocal(src, t);
      case ThirtyTwoBit => TakeFixedLocal(src, 4, t);
    }
  }
}
