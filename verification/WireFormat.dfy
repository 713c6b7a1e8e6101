/**
The wire format by itself (section "Base 128 Varints" and following of the Protocol Buffers "Encoding"
specification): which bytes the decoder takes up, and what they stand for, by the place of every byte.
*/
module WireFormat {
  import opened Wrappers
  import opened Words
  import opened Values
  import opened Primitives
  import opened Schema
  import opened Decoding
  import opened Encoding
  import opened Conversions
  import opened RoundTrip

  /** `rest` is the end of `src`. */
  predicate Behind(src: seq<byte>, rest: seq<byte>) {
    |rest| <= |src| && rest == src[|src| - |rest|..]
  }

  function Front(src: seq<byte>, rest: seq<byte>): seq<byte>
    requires Behind(src, rest)
  {
    src[..|src| - |rest|]
  }

  /** At most ten bytes, exactly the last of which has a clear high bit. */
  predicate IsVarint(bs: seq<byte>) {
    1 <= |bs| <= 10 && bs[|bs| - 1] < 0x80 && forall i :: 0 <= i < |bs| - 1 ==> bs[i] >= 0x80
  }

  /** The low seven bits of every byte, each for its power of 128. */
  function Places128(bs: seq<byte>): nat {
    if bs == [] then 0 else Places128(bs[..|bs| - 1]) + (bs[|bs| - 1] % 0x80) * Pow128(|bs| - 1)
  }

  function VarintOf(bs: seq<byte>): u64 {
    Places128(bs) % 0x1_0000_0000_0000_0000
  }

  /** Every byte for its power of 256. */
  function Places256(bs: seq<byte>): nat {
    if bs == [] then 0 else Places256(bs[..|bs| - 1]) + bs[|bs| - 1] * Pow256(|bs| - 1)
  }

  /** A varint that is the length of the bytes behind it. */
  predicate IsBlock(bs: seq<byte>, body: seq<byte>) {
    Behind(bs, body) && IsVarint(Front(bs, body)) && VarintOf(Front(bs, body)) == |body|
  }

  // ---------------------------------------------------------------- lowest layer

  lemma {:induction false} PlacesAreGroups(bs: seq<byte>)
    ensures Places128(bs) == GroupValue(bs)
    decreases |bs|
  {
    if bs != [] {
      var last := |bs| - 1;
      PlacesAreGroups(bs[..last]);
      GroupAppend(bs[..last], bs[last]);
      assert bs == bs[..last] + [bs[last]];
    }
  }

  lemma {:induction false} LeAppend(bs: seq<byte>, b: byte)
    ensures LeValue(bs + [b]) == LeValue(bs) + b * Pow256(|bs|)
  {
    if bs == [] {
      assert bs + [b] == [b] && [b][1..] == [];
    } else {
      LeAppend(bs[1..], b);
      assert (bs + [b])[1..] == bs[1..] + [b];
      assert 256 * (b * Pow256(|bs| - 1)) == b * (256 * Pow256(|bs| - 1));
    }
  }

  lemma {:induction false} PlacesAreLe(bs: seq<byte>)
    ensures Places256(bs) == LeValue(bs)
    decreases |bs|
  {
    if bs != [] {
      var last := |bs| - 1;
      PlacesAreLe(bs[..last]);
      LeAppend(bs[..last], bs[last]);
      assert bs == bs[..last] + [bs[last]];
    }
  }

  lemma {:induction false} LengthIsShape(src: seq<byte>, limit: nat, k: nat)
    ensures VarintLength(src, limit) == Some(k) <==>
            1 <= k <= limit && k <= |src| && src[k - 1] < 0x80 && forall i :: 0 <= i < k - 1 ==> src[i] >= 0x80
    decreases limit
  {
    if src != [] && limit > 0 && src[0] >= 0x80 && k > 0 {
      LengthIsShape(src[1..], limit - 1, k - 1);
      if k > 1 && k <= |src| {
        assert src[1..][k - 2] == src[k - 1];
        assert forall i :: 1 <= i < k - 1 ==> src[i] == src[1..][i - 1];
      }
    }
  }

  /** Exactly the varints are read, each as its places say, cut to 64 bits. */
  lemma VarintsAreRead(src: seq<byte>, n: u64, rest: seq<byte>)
    ensures TakeVarint(src) == Ok((n, rest)) <==> Behind(src, rest) && IsVarint(Front(src, rest)) && VarintOf(Front(src, rest)) == n
  {
    if |rest| <= |src| {
      var k := |src| - |rest|;
      LengthIsShape(src, 10, k);
      PlacesAreGroups(src[..k]);
    }
  }

  lemma FixedAreRead(src: seq<byte>, width: nat, n: nat, rest: seq<byte>)
    ensures TakeFixed(src, width) == Ok((n, rest)) <==>
            Behind(src, rest) && |Front(src, rest)| == width && Places256(Front(src, rest)) == n
  {
    if |src| >= width {
      PlacesAreLe(src[..width]);
    }
  }

  lemma BlocksAreRead(src: seq<byte>, body: seq<byte>, rest: seq<byte>)
    ensures TakeLenDelimited(src) == Ok((body, rest)) <==> Behind(src, rest) && IsBlock(Front(src, rest), body)
  {
    hide TakeVarint, IsVarint, VarintOf;
    if TakeLenDelimited(src) == Ok((body, rest)) {
      var (n, mid) := TakeVarint(src).value;
      VarintsAreRead(src, n, mid);
      assert mid == body + rest;
      assert Front(Front(src, rest), body) == Front(src, mid);
    }
    if Behind(src, rest) && IsBlock(Front(src, rest), body) {
      var mid := body + rest;
      assert src == Front(src, rest) + rest && Front(src, rest) == Front(Front(src, rest), body) + body;
      assert Behind(src, mid) && Front(src, mid) == Front(Front(src, rest), body);
      VarintsAreRead(src, |body|, mid);
      assert mid[..|body|] == body && mid[|body|..] == rest;
    }
  }

  predicate TagSays(bs: seq<byte>, number: u32, wt: WireType) {
    var n := VarintOf(bs);
    && IsVarint(bs) && n != 0 && number == n / 8 % 0x1_0000_0000
    && n % 8 == match wt { case Varint => 0 case SixtyFourBit => 1 case Len => 2 case ThirtyTwoBit => 5 }
  }

  /** A tag is a varint that is not zero: field number in front of three bits of wire type. */
  lemma TagsAreRead(src: seq<byte>, number: u32, wt: WireType, rest: seq<byte>)
    ensures TakeTag(src) == Ok((number, wt, rest)) <==> Behind(src, rest) && TagSays(Front(src, rest), number, wt)
  {
    hide TakeVarint, IsVarint, VarintOf;
    if TakeVarint(src).Ok? {
      var (n, behind) := TakeVarint(src).value;
      VarintsAreRead(src, n, behind);
    }
    if Behind(src, rest) {
      VarintsAreRead(src, VarintOf(Front(src, rest)), rest);
    }
  }

  /** The bytes a value of a wire type spans. */
  ghost predicate Spans(wt: WireType, bs: seq<byte>) {
    match wt
    case Varint => IsVarint(bs)
    case SixtyFourBit => |bs| == 8
    case Len => exists body :: IsBlock(bs, body)
    case ThirtyTwoBit => |bs| == 4
  }

  /** Skipping passes over exactly what the wire type spans. */
  lemma SkipsAreSpans(wt: WireType, src: seq<byte>, rest: seq<byte>)
    ensures Skip(wt, src) == Ok(rest) <==> Behind(src, rest) && Spans(wt, Front(src, rest))
  {
    hide TakeVarint, TakeLenDelimited, IsVarint, VarintOf, IsBlock;
    match wt
    case Varint =>
      if TakeVarint(src).Ok? {
        VarintsAreRead(src, TakeVarint(src).value.0, TakeVarint(src).value.1);
      }
      if Behind(src, rest) {
        VarintsAreRead(src, VarintOf(Front(src, rest)), rest);
      }
    case SixtyFourBit =>
    case ThirtyTwoBit =>
    case Len =>
      if TakeLenDelimited(src).Ok? {
        BlocksAreRead(src, TakeLenDelimited(src).value.0, TakeLenDelimited(src).value.1);
      }
      if Behind(src, rest) {
        forall body | IsBlock(Front(src, rest), body)
          ensures TakeLenDelimited(src) == Ok((body, rest))
        {
          BlocksAreRead(src, body, rest);
        }
      }
  }

  // -------------------------------------------------------------------- scalars

  function PrimWireType(p: Prim): WireType {
    match p
    case BoolT | Int32T | Int64T | Uint32T | Uint64T | Sint32T | Sint64T => Varint
    case Fixed32T | Sfixed32T | FloatT => ThirtyTwoBit
    case Fixed64T | Sfixed64T | DoubleT => SixtyFourBit
    case StringT | BytesT => Len
  }

  /** The bytes stand for the value: numbers by their residue, signed zigzag ones by twice their size, text if well-formed. */
  ghost predicate StandsFor(fl: Floats, p: Prim, bs: seq<byte>, w: Value) {
    match p
    case BoolT => IsVarint(bs) && w == Bool(VarintOf(bs) != 0)
    case Int32T | Int64T => IsVarint(bs) && w.I64? && (VarintOf(bs) - w.signed) % 0x1_0000_0000_0000_0000 == 0
    case Uint32T | Uint64T => IsVarint(bs) && w == U64(VarintOf(bs))
    case Sint32T | Sint64T =>
      IsVarint(bs) && w.I64? && VarintOf(bs) == if w.signed >= 0 then 2 * w.signed else -2 * w.signed - 1
    case Fixed32T => |bs| == 4 && w.U64? && w.unsigned == Places256(bs)
    case Sfixed32T =>
      |bs| == 4 && w.I64? && -0x8000_0000 <= w.signed < 0x8000_0000 && (Places256(bs) - w.signed) % 0x1_0000_0000 == 0
    case FloatT => |bs| == 4 && Places256(bs) < 0x1_0000_0000 && w == F64(fl.widen(Places256(bs)))
    case Fixed64T => |bs| == 8 && w.U64? && w.unsigned == Places256(bs)
    case Sfixed64T => |bs| == 8 && w.I64? && (Places256(bs) - w.signed) % 0x1_0000_0000_0000_0000 == 0
    case DoubleT => |bs| == 8 && w.F64? && w.bits == Places256(bs)
    case StringT => w.String? && exists body :: IsBlock(bs, body) && w.text == if ValidUtf8(body) then body else []
    case BytesT => w.Bytes? && IsBlock(bs, w.raw)
  }

  lemma ZigzagSays(n: u64, i: i64)
    ensures DecodeZigzag(n) == i <==> n == if i >= 0 then 2 * i else -2 * i - 1
  {
    ZigzagBijection(i, n);
  }

  lemma ResidueSays(n: u64, i: i64)
    ensures U64AsI64(n) == i <==> (n - i) % 0x1_0000_0000_0000_0000 == 0
  {
  }

  lemma LowResidueSays(n: u32, i: i64)
    ensures U32AsI32(n) == i <==> -0x8000_0000 <= i < 0x8000_0000 && (n - i) % 0x1_0000_0000 == 0
  {
  }

  lemma VarintPrimsAreRead(fl: Floats, p: Prim, src: seq<byte>, w: Value, rest: seq<byte>)
    requires PrimWireType(p) == Varint
    ensures DecodePrim(fl, p, Varint, src) == Ok((w, rest)) <==> Behind(src, rest) && StandsFor(fl, p, Front(src, rest), w)
  {
    hide TakeVarint, IsVarint, VarintOf, DecodeZigzag, U64AsI64;
    if TakeVarint(src).Ok? {
      VarintsAreRead(src, TakeVarint(src).value.0, TakeVarint(src).value.1);
      if w.I64? {
        ZigzagSays(TakeVarint(src).value.0, w.signed);
        ResidueSays(TakeVarint(src).value.0, w.signed);
      }
    }
    if Behind(src, rest) {
      VarintsAreRead(src, VarintOf(Front(src, rest)), rest);
    }
  }

  lemma FixedPrimsAreRead(fl: Floats, p: Prim, src: seq<byte>, w: Value, rest: seq<byte>)
    requires PrimWireType(p) == ThirtyTwoBit || PrimWireType(p) == SixtyFourBit
    ensures DecodePrim(fl, p, PrimWireType(p), src) == Ok((w, rest)) <==>
            Behind(src, rest) && StandsFor(fl, p, Front(src, rest), w)
  {
    hide TakeFixed, Places256, U64AsI64, U32AsI32, LeValue;
    LeWidths();
    var width := if PrimWireType(p) == ThirtyTwoBit then 4 else 8;
    if TakeFixed(src, width).Ok? {
      var (n, behind) := TakeFixed(src, width).value;
      FixedAreRead(src, width, n, behind);
      if w.I64? {
        ResidueSays(n, w.signed);
        if width == 4 {
          LowResidueSays(n, w.signed);
        }
      }
    }
    if Behind(src, rest) {
      FixedAreRead(src, width, Places256(Front(src, rest)), rest);
    }
  }

  lemma BlockPrimsAreRead(fl: Floats, p: Prim, src: seq<byte>, w: Value, rest: seq<byte>)
    requires PrimWireType(p) == Len
    ensures DecodePrim(fl, p, Len, src) == Ok((w, rest)) <==> Behind(src, rest) && StandsFor(fl, p, Front(src, rest), w)
  {
    hide TakeLenDelimited, IsBlock, ValidUtf8;
    if TakeLenDelimited(src).Ok? {
      BlocksAreRead(src, TakeLenDelimited(src).value.0, TakeLenDelimited(src).value.1);
    }
    if Behind(src, rest) {
      forall body | IsBlock(Front(src, rest), body)
        ensures TakeLenDelimited(src) == Ok((body, rest))
      {
        BlocksAreRead(src, body, rest);
      }
    }
  }

  /** A plain field is read exactly from the bytes that stand for a value, under the wire type of its kind. */
  lemma PrimsAreRead(fl: Floats, p: Prim, wt: WireType, src: seq<byte>, w: Value, rest: seq<byte>)
    ensures DecodePrim(fl, p, wt, src) == Ok((w, rest)) <==>
            wt == PrimWireType(p) && Behind(src, rest) && StandsFor(fl, p, Front(src, rest), w)
  {
    if wt == PrimWireType(p) {
      hide DecodePrim, StandsFor;
      if wt == Varint {
        VarintPrimsAreRead(fl, p, src, w, rest);
      } else if wt == Len {
        BlockPrimsAreRead(fl, p, src, w, rest);
      } else {
        FixedPrimsAreRead(fl, p, src, w, rest);
      }
    }
  }

  predicate LowBits32(n: u64, m: i32) {
    (n - m) % 0x1_0000_0000 == 0
  }

  /** The low 32 bits, by name if they have one. */
  ghost predicate EnumShows(e: EnumDesc, n: u64, w: Value) {
    exists m: i32 :: LowBits32(n, m) && w == if m in e.nameOf then String(e.nameOf[m]) else I64(m)
  }

  lemma EnumValueShows(e: EnumDesc, n: u64, w: Value)
    ensures EnumShows(e, n, w) <==> w == EnumValue(e, U64AsI32(n))
  {
    hide LowBits32, U64AsI32;
    LowBitsAre(n, U64AsI32(n));
    forall m: i32 | LowBits32(n, m)
      ensures m == U64AsI32(n)
    {
      LowBitsAre(n, m);
    }
  }

  lemma LowBitsAre(n: u64, m: i32)
    ensures LowBits32(n, m) <==> m == U64AsI32(n)
  {
    var q, low := n / 0x1_0000_0000, n % 0x1_0000_0000;
    SameResidue(n - m, low - m, q);
    NearMultiple(low - m);
  }

  lemma SameResidue(a: int, b: int, q: int)
    requires a == b + q * 0x1_0000_0000
    ensures a % 0x1_0000_0000 == b % 0x1_0000_0000
  {
  }

  lemma NearMultiple(x: int)
    requires -0x1_0000_0000 < x < 0x2_0000_0000
    ensures x % 0x1_0000_0000 == 0 <==> x == 0 || x == 0x1_0000_0000
  {
  }

  /** An enum is a varint whose low 32 bits are shown. */
  lemma EnumsAreRead(fl: Floats, e: EnumDesc, wt: WireType, src: seq<byte>, w: Value, rest: seq<byte>)
    ensures DecodeValue(fl, Enum(e), wt, src) == Ok((w, rest)) <==>
            wt == Varint && Behind(src, rest) && IsVarint(Front(src, rest)) && EnumShows(e, VarintOf(Front(src, rest)), w)
  {
    hide TakeVarint, IsVarint, VarintOf, U64AsI32, EnumShows, EnumValue;
    if TakeVarint(src).Ok? {
      var (n, behind) := TakeVarint(src).value;
      VarintsAreRead(src, n, behind);
      EnumValueShows(e, n, w);
    }
    if Behind(src, rest) {
      VarintsAreRead(src, VarintOf(Front(src, rest)), rest);
      EnumValueShows(e, VarintOf(Front(src, rest)), w);
    }
  }

  /** A submessage is a block of its fields. */
  lemma MessagesAreRead(fl: Floats, meta: Meta, wt: WireType, src: seq<byte>, w: Value, rest: seq<byte>)
    ensures DecodeValue(fl, Message(meta), wt, src) == Ok((w, rest)) <==>
            wt == Len && Behind(src, rest)
            && exists body :: IsBlock(Front(src, rest), body) && DecodeMessage(fl, meta.byNumber, body) == Ok(w)
  {
    hide TakeLenDelimited, IsBlock, DecodeFrom;
    if TakeLenDelimited(src).Ok? {
      BlocksAreRead(src, TakeLenDelimited(src).value.0, TakeLenDelimited(src).value.1);
    }
    if Behind(src, rest) {
      forall body | IsBlock(Front(src, rest), body)
        ensures TakeLenDelimited(src) == Ok((body, rest))
      {
        BlocksAreRead(src, body, rest);
      }
    }
  }

  /** Integer keys are plain varints whatever their kind, text keys well-formed blocks; no other kind is a key. */
  ghost predicate KeyStandsFor(kind: ProtoKind, wt: WireType, bs: seq<byte>, k: MapKey) {
    kind.ProtoPrim? &&
    match kind.prim
    case StringT => wt == Len && k.KeyString? && IsBlock(bs, k.text)
    case BoolT => wt == Varint && IsVarint(bs) && k == KeyBool(VarintOf(bs) != 0)
    case Int32T | Sint32T | Sfixed32T | Int64T | Sint64T | Sfixed64T =>
      wt == Varint && IsVarint(bs) && k.KeyI64? && (VarintOf(bs) - k.signed) % 0x1_0000_0000_0000_0000 == 0
    case Uint32T | Fixed32T | Uint64T | Fixed64T => wt == Varint && IsVarint(bs) && k == KeyU64(VarintOf(bs))
    case BytesT | FloatT | DoubleT => false
  }

  lemma KeysAreRead(kind: ProtoKind, wt: WireType, src: seq<byte>, k: MapKey, rest: seq<byte>)
    ensures DecodeKey(kind, wt, src) == Ok((k, rest)) <==> Behind(src, rest) && KeyStandsFor(kind, wt, Front(src, rest), k)
  {
    if wt == Len {
      TextKeysAreRead(kind, src, k, rest);
    } else {
      hide TakeVarint, IsVarint, VarintOf, U64AsI64;
      if TakeVarint(src).Ok? {
        VarintsAreRead(src, TakeVarint(src).value.0, TakeVarint(src).value.1);
        if k.KeyI64? {
          ResidueSays(TakeVarint(src).value.0, k.signed);
        }
      }
      if Behind(src, rest) {
        VarintsAreRead(src, VarintOf(Front(src, rest)), rest);
      }
    }
  }

  lemma TextKeysAreRead(kind: ProtoKind, src: seq<byte>, k: MapKey, rest: seq<byte>)
    ensures DecodeKey(kind, Len, src) == Ok((k, rest)) <==> Behind(src, rest) && KeyStandsFor(kind, Len, Front(src, rest), k)
  {
    hide TakeLenDelimited, IsBlock, ValidUtf8;
    if TakeLenDelimited(src).Ok? {
      BlocksAreRead(src, TakeLenDelimited(src).value.0, TakeLenDelimited(src).value.1);
    }
    if Behind(src, rest) && k.KeyString? {
      BlocksAreRead(src, k.text, rest);
    }
  }

  // --------------------------------------------------------------------- errors

  ghost predicate NoVarint(src: seq<byte>) {
    forall rest :: Behind(src, rest) ==> !IsVarint(Front(src, rest))
  }

  lemma VarintErrors(src: seq<byte>)
    requires TakeVarint(src).Err?
    ensures TakeVarint(src).error == InvalidVarint && NoVarint(src)
  {
    hide TakeVarint, IsVarint, VarintOf;
    VarintErrorKind(src);
    forall rest | Behind(src, rest)
      ensures !IsVarint(Front(src, rest))
    {
      VarintsAreRead(src, VarintOf(Front(src, rest)), rest);
    }
  }

  lemma VarintErrorKind(src: seq<byte>)
    requires TakeVarint(src).Err?
    ensures TakeVarint(src).error == InvalidVarint
  {
  }

  /** The front is a varint that is larger than what is behind it. */
  ghost predicate TooShort(src: seq<byte>) {
    exists rest :: Behind(src, rest) && IsVarint(Front(src, rest)) && VarintOf(Front(src, rest)) > |rest|
  }

  lemma BlockErrors(src: seq<byte>)
    requires TakeLenDelimited(src).Err?
    ensures || (TakeLenDelimited(src).error == InvalidVarint && NoVarint(src))
            || (TakeLenDelimited(src).error == InvalidLengthDelimited && TooShort(src))
  {
    hide TakeVarint, IsVarint, VarintOf, NoVarint;
    if TakeVarint(src).Err? {
      VarintErrors(src);
    } else {
      VarintsAreRead(src, TakeVarint(src).value.0, TakeVarint(src).value.1);
    }
  }

  /** What a failure to read a tag says. */
  lemma TagErrors(src: seq<byte>)
    requires TakeTag(src).Err?
    ensures match TakeTag(src).error
            case InvalidVarint => NoVarint(src)
            case TagZero => exists rest :: Behind(src, rest) && IsVarint(Front(src, rest)) && VarintOf(Front(src, rest)) == 0
            case UnsupportedWireType(code) =>
              code in {3, 4, 6, 7}
              && exists rest :: Behind(src, rest) && IsVarint(Front(src, rest)) && VarintOf(Front(src, rest)) % 8 == code
            case _ => false
  {
    hide TakeVarint, IsVarint, VarintOf, NoVarint;
    if TakeVarint(src).Err? {
      VarintErrors(src);
    } else {
      var (n, rest) := TakeVarint(src).value;
      VarintsAreRead(src, n, rest);
    }
  }

  /** What a failure to read a plain field says: the wrong wire type first, then what its wire type asks for. */
  lemma PrimErrors(fl: Floats, p: Prim, wt: WireType, src: seq<byte>)
    requires DecodePrim(fl, p, wt, src).Err?
    ensures var e := DecodePrim(fl, p, wt, src).error;
            if wt != PrimWireType(p) then e == WireTypeMismatch
            else match wt
              case Varint => e == InvalidVarint && NoVarint(src)
              case SixtyFourBit => e == UnexpectedEof && |src| < 8
              case ThirtyTwoBit => e == UnexpectedEof && |src| < 4
              case Len => (e == InvalidVarint && NoVarint(src)) || (e == InvalidLengthDelimited && TooShort(src))
  {
    hide TakeVarint, NoVarint, TooShort, TakeLenDelimited;
    if TakeVarint(src).Err? {
      VarintErrors(src);
    }
    if TakeLenDelimited(src).Err? {
      BlockErrors(src);
    }
  }

  /** The front is a block of bytes that are no text. */
  ghost predicate Malformed(src: seq<byte>) {
    exists body, rest :: Behind(src, rest) && IsBlock(Front(src, rest), body) && !ValidUtf8(body)
  }

  /** What a failure to read a key says: a kind that is no key first, then the wire type, then the bytes. */
  lemma KeyErrors(kind: ProtoKind, wt: WireType, src: seq<byte>)
    requires DecodeKey(kind, wt, src).Err?
    ensures var e := DecodeKey(kind, wt, src).error;
            if !kind.ProtoPrim? || kind.prim in {BytesT, FloatT, DoubleT} then e == UnsupportedKeyKind
            else if wt != (if kind.prim == StringT then Len else Varint) then e == WireTypeMismatch
            else if wt == Varint then e == InvalidVarint && NoVarint(src)
            else || (e == InvalidVarint && NoVarint(src)) || (e == InvalidLengthDelimited && TooShort(src))
                 || (e == InvalidUtf8Key && Malformed(src))
  {
    hide TakeVarint, NoVarint, TooShort, TakeLenDelimited, ValidUtf8, IsBlock;
    if TakeVarint(src).Err? {
      VarintErrors(src);
    }
    if TakeLenDelimited(src).Err? {
      BlockErrors(src);
    } else {
      var (body, rest) := TakeLenDelimited(src).value;
      BlocksAreRead(src, body, rest);
      assert !ValidUtf8(body) ==> Malformed(src);
    }
  }

  /** What is sent for a plain field stands for a value that may be received for it. */
  lemma SentStandsForReceived(fl: Floats, p: Prim, v: Value, out: seq<byte>)
    requires EncodesBody(fl, Plain(p), v, out) && |out| < TWO_64
    ensures exists w :: StandsFor(fl, p, out, w) && PrimArrives(fl, p, v, w)
  {
    hide DecodePrim, StandsFor, PrimArrives;
    var w := PrimBack(fl, p, v);
    PrimReadsBack(fl, p, v, []);
    PrimBackArrives(fl, p, v);
    PrimsAreRead(fl, p, WireTypeFor(Plain(p)), out + [], w, []);
    assert out + [] == out && Front(out, []) == out;
  }
}
