/**
What a value is received as when it is sent in a field whose kind is not its own: stated on both values alone,
whatever the encoder does on the way.
*/
module Conversions {
  import opened Wrappers
  import opened Words
  import opened Values
  import opened Primitives
  import opened Schema
  import opened Coercion
  import opened Decoding
  import opened Encoding

  // ------------------------------------------------------------------- scalars

  /** Numbers keep their 64 bits, read as signed; text is read as what it writes. */
  predicate SignedArrives(fl: Floats, v: Value, n: i64) {
    match v
    case I64(i) => n == i
    case U64(u) => n == if u < 0x8000_0000_0000_0000 then u else u - 0x1_0000_0000_0000_0000
    case F64(f) => n == fl.toI64(f)
    case String(s) => WritesSigned(s, n)
    case _ => false
  }

  /** Numbers keep their 64 bits, read as unsigned; text is read as what it writes. */
  predicate UnsignedArrives(fl: Floats, v: Value, n: u64) {
    match v
    case I64(i) => n == if i >= 0 then i else i + 0x1_0000_0000_0000_0000
    case U64(u) => n == u
    case F64(f) => n == fl.toU64(f)
    case String(s) => WritesUnsigned(s, n)
    case _ => false
  }

  predicate DoubleArrives(fl: Floats, v: Value, bits: u64) {
    match v
    case I64(i) => bits == fl.ofI64(i)
    case U64(u) => bits == fl.ofU64(u)
    case F64(f) => bits == f
    case String(s) => fl.parse(s) == Number(bits)
    case _ => false
  }

  /** Exactly non-zero integers, true, and the texts "true" and "1" are true. */
  predicate TruthArrives(v: Value, b: bool) {
    b <==> match v
           case Bool(flag) => flag
           case I64(i) => i != 0
           case U64(u) => u != 0
           case String(s) => s == [0x74, 0x72, 0x75, 0x65] || s == [0x31]
           case _ => false
  }

  /** Text stays, numbers become their decimal text, truth values their names, all else the empty text. */
  predicate TextArrives(fl: Floats, v: Value, t: Str) {
    match v
    case String(s) => t == s
    case I64(i) => DecimalOf(t, i)
    case U64(u) => DecimalOf(t, u)
    case F64(f) => t == fl.show(f)
    case Bool(b) => t == if b then [0x74, 0x72, 0x75, 0x65] else [0x66, 0x61, 0x6C, 0x73, 0x65]
    case _ => t == []
  }

  predicate BytesArrive(v: Value, b: seq<byte>) {
    match v
    case Bytes(raw) => b == raw
    case String(s) => b == s
    case _ => b == []
  }

  /** `w` may be received where `v` was sent in a field of a plain kind. */
  ghost predicate PrimArrives(fl: Floats, p: Prim, v: Value, w: Value) {
    match p
    case BoolT => w.Bool? && TruthArrives(v, w.flag)
    case StringT => w.String? && TextArrives(fl, v, w.text)
    case BytesT => w.Bytes? && BytesArrive(v, w.raw)
    case Int32T | Int64T | Sint32T | Sint64T | Sfixed64T => w.I64? && SignedArrives(fl, v, w.signed)
    case Uint32T | Uint64T | Fixed64T => w.U64? && UnsignedArrives(fl, v, w.unsigned)
    case Sfixed32T =>
      w.I64? && -0x8000_0000 <= w.signed < 0x8000_0000
      && exists n: i64 :: SignedArrives(fl, v, n) && (n - w.signed) % 0x1_0000_0000 == 0
    case Fixed32T =>
      w.U64? && w.unsigned < 0x1_0000_0000
      && exists n: u64 :: UnsignedArrives(fl, v, n) && (n - w.unsigned) % 0x1_0000_0000 == 0
    case FloatT => w.F64? && exists f: u64 :: DoubleArrives(fl, v, f) && w.bits == fl.widen(fl.narrow(f))
    case DoubleT => w.F64? && DoubleArrives(fl, v, w.bits)
  }

  /** A name stands for its number, an unknown name and what is no number for 0. */
  predicate EnumMeans(e: EnumDesc, v: Value, n: int) {
    match v
    case String(s) => n == if s in e.numberOf then e.numberOf[s] else 0
    case I64(i) => n == i
    case U64(u) => n == u
    case _ => n == 0
  }

  /** The number's low 32 bits arrive, as their name if they have one. */
  ghost predicate EnumArrives(e: EnumDesc, v: Value, w: Value) {
    exists n: int, m: i32 :: EnumMeans(e, v, n) && (n - m) % 0x1_0000_0000 == 0
      && w == if m in e.nameOf then String(e.nameOf[m]) else I64(m)
  }

  /** Integer keys arrive as numbers, also from text; unsigned ones never from negative numbers. */
  predicate KeyArrives(kind: ProtoKind, k: MapKey, back: MapKey) {
    kind.ProtoPrim? &&
    match kind.prim
    case StringT => k.KeyString? && back == k
    case BoolT => k.KeyBool? && back == k
    case Int32T | Sint32T | Sfixed32T | Int64T | Sint64T | Sfixed64T =>
      back.KeyI64? && (match k
                       case KeyI64(i) => back.signed == i
                       case KeyU64(u) => back.signed == if u < 0x8000_0000_0000_0000 then u else u - 0x1_0000_0000_0000_0000
                       case KeyString(s) => WritesSigned(s, back.signed)
                       case KeyBool(_) => false)
    case Uint32T | Fixed32T | Uint64T | Fixed64T =>
      back.KeyU64? && (match k
                       case KeyI64(i) => back.unsigned == i
                       case KeyU64(u) => back.unsigned == u
                       case KeyString(s) => WritesUnsigned(s, back.unsigned)
                       case KeyBool(_) => false)
    case BytesT | FloatT | DoubleT => false
  }

  // --------------------------------------------- the encoder's own conversions

  lemma SignedConverts(fl: Floats, v: Value)
    ensures forall n: i64 :: SignedArrives(fl, v, n) <==> ToI64(fl, v) == Ok(n)
  {
    hide WritesSigned, ParseI64;
    if v.String? {
      ParsesWhatIsWritten(v.text);
    }
  }

  lemma UnsignedConverts(fl: Floats, v: Value)
    ensures forall n: u64 :: UnsignedArrives(fl, v, n) <==> ToU64(fl, v) == Ok(n)
  {
    hide WritesUnsigned, ParseU64;
    if v.String? {
      ParsesWhatIsWritten(v.text);
    }
  }

  lemma DoubleConverts(fl: Floats, v: Value)
    ensures forall f: u64 :: DoubleArrives(fl, v, f) <==> ToF64(fl, v) == Ok(f)
  {
  }

  lemma TextConverts(fl: Floats, v: Value)
    ensures TruthArrives(v, ToBool(v)) && TextArrives(fl, v, ToStringLossy(fl, v)) && BytesArrive(v, ToBytesLossy(v))
  {
    hide DecimalOf, ShowInt, ShowNat;
    match v
    case I64(i) => ShownIsDecimal(i);
    case U64(u) => ShownNatIsDecimal(u);
    case _ =>
  }

  /** The low 32 bits of a word differ from it by a multiple of 2^32. */
  lemma LowBits(n: i64, u: u64)
    ensures (n - I64AsI32(n)) % 0x1_0000_0000 == 0 && (u - U64AsU32(u)) % 0x1_0000_0000 == 0
    ensures (u - U64AsI32(u)) % 0x1_0000_0000 == 0
  {
  }

  lemma EnumConverts(e: EnumDesc, v: Value)
    ensures EnumArrives(e, v, EnumValue(e, U64AsI32(I64AsU64(EnumNumber(e, v)))))
  {
    var n := EnumNumber(e, v);
    LowBits(n, 0);
    var m := I64AsI32(n);
    var sent: int := if v.U64? then v.unsigned else n;
    assert (sent - n) % 0x1_0000_0000 == 0;
    assert EnumMeans(e, v, sent) && (sent - m) % 0x1_0000_0000 == 0;
  }

  /** The value a decoder makes of what is sent for `v`. */
  function PrimBack(fl: Floats, p: Prim, v: Value): Value
    requires PrimBytes(fl, p, v).Ok?
  {
    match p
    case BoolT => Bool(ToBool(v))
    case StringT => String(ToStringLossy(fl, v))
    case BytesT => Bytes(ToBytesLossy(v))
    case Int32T | Int64T | Sint32T | Sint64T | Sfixed64T => I64(ToI64(fl, v).value)
    case Uint32T | Uint64T | Fixed64T => U64(ToU64(fl, v).value)
    case Sfixed32T => I64(I64AsI32(ToI64(fl, v).value))
    case Fixed32T => U64(U64AsU32(ToU64(fl, v).value))
    case FloatT => F64(fl.widen(fl.narrow(ToF64(fl, v).value)))
    case DoubleT => F64(ToF64(fl, v).value)
  }

  lemma PrimBackArrives(fl: Floats, p: Prim, v: Value)
    requires PrimBytes(fl, p, v).Ok?
    ensures PrimArrives(fl, p, v, PrimBack(fl, p, v))
  {
    hide SignedArrives, UnsignedArrives, TruthArrives, TextArrives, BytesArrive, DoubleArrives;
    hide ToBool, ToI64, ToU64, ToF64, ToStringLossy, ToBytesLossy, I64AsI32, U64AsU32;
    match p
    case BoolT => TextConverts(fl, v);
    case StringT => TextConverts(fl, v);
    case BytesT => TextConverts(fl, v);
    case Int32T | Int64T | Sint32T | Sint64T | Sfixed64T => SignedConverts(fl, v);
    case Uint32T | Uint64T | Fixed64T => UnsignedConverts(fl, v);
    case Sfixed32T =>
      SignedConverts(fl, v);
      LowBits(ToI64(fl, v).value, 0);
    case Fixed32T =>
      UnsignedConverts(fl, v);
      LowBits(0, ToU64(fl, v).value);
    case FloatT => DoubleConverts(fl, v);
    case DoubleT => DoubleConverts(fl, v);
  }

  /** A plain field can be sent exactly when something may be received for it. */
  lemma SendableIffArrives(fl: Floats, p: Prim, v: Value)
    ensures EncodableBody(fl, Plain(p), v) <==> exists w :: PrimArrives(fl, p, v, w)
  {
    hide SignedArrives, UnsignedArrives, TruthArrives, TextArrives, BytesArrive, DoubleArrives;
    if PrimBytes(fl, p, v).Ok? {
      PrimBackArrives(fl, p, v);
    }
    SignedConverts(fl, v);
    UnsignedConverts(fl, v);
    DoubleConverts(fl, v);
  }

  lemma KeyConverts(kind: ProtoKind, k: MapKey)
    requires kind.ProtoPrim?
    ensures forall n: i64 :: KeyToI64(k) == Ok(n) <==> KeyArrives(ProtoPrim(Int64T), k, KeyI64(n))
    ensures forall n: u64 :: KeyToU64(k) == Ok(n) <==> KeyArrives(ProtoPrim(Uint64T), k, KeyU64(n))
  {
    hide WritesSigned, WritesUnsigned, ParseI64, ParseU64;
    if k.KeyString? {
      ParsesWhatIsWritten(k.text);
    }
  }

  /** A key can be sent exactly when something may be received for it. */
  lemma KeySendableIffArrives(kind: ProtoKind, k: MapKey)
    ensures KeyBytes(kind, k).Ok? <==> exists back :: KeyArrives(kind, k, back)
  {
    hide WritesSigned, WritesUnsigned, KeyToI64, KeyToU64;
    if kind.ProtoPrim? {
      KeyConverts(kind, k);
      if KeyBytes(kind, k).Ok? {
        match kind.prim
        case StringT => assert KeyArrives(kind, k, k);
        case BoolT => assert KeyArrives(kind, k, k);
        case Int32T | Sint32T | Sfixed32T | Int64T | Sint64T | Sfixed64T =>
          assert KeyArrives(kind, k, KeyI64(KeyToI64(k).value));
        case Uint32T | Fixed32T | Uint64T | Fixed64T =>
          assert KeyArrives(kind, k, KeyU64(KeyToU64(k).value));
      }
      if back :| KeyArrives(kind, k, back) {
        match kind.prim
        case Int32T | Sint32T | Sfixed32T | Int64T | Sint64T | Sfixed64T =>
          assert KeyArrives(ProtoPrim(Int64T), k, KeyI64(back.signed));
        case Uint32T | Fixed32T | Uint64T | Fixed64T =>
          assert KeyArrives(ProtoPrim(Uint64T), k, KeyU64(back.unsigned));
        case _ =>
      }
    }
  }

  // ------------------------------------------------------------------ messages

  ghost predicate BodyArrives(fl: Floats, kind: Kind, v: Value, w: Value)
    decreases v, 4
  {
    match kind
    case Plain(p) => PrimArrives(fl, p, v, w)
    case Enum(e) => EnumArrives(e, v, w)
    case Message(meta) => MessageArrives(fl, meta.byName, v, w)
  }

  /** Some entry is received as `b` with value `w`. */
  ghost predicate EntrySent(fl: Floats, keyKind: ProtoKind, kind: Kind, parent: Value,
                            entries: map<MapKey, Value>, b: MapKey, w: Value)
    requires forall k :: k in entries ==> entries[k] < parent
    decreases parent, 5
  {
    exists k :: k in entries && KeyArrives(keyKind, k, b) && BodyArrives(fl, kind, entries[k], w)
  }

  /** The entry is received under some key, unless another one under the same key is. */
  ghost predicate EntryReceived(fl: Floats, keyKind: ProtoKind, kind: Kind, parent: Value,
                                entries: map<MapKey, Value>, k: MapKey, back: map<MapKey, Value>)
    requires k in entries && forall x :: x in entries ==> entries[x] < parent
    decreases parent, 5
  {
    exists b, w :: b in back && KeyArrives(keyKind, k, b) && BodyArrives(fl, kind, entries[k], w)
  }

  /** Every entry received was sent, and every entry sent is received under its key or gives way to another. */
  ghost predicate EntriesArrive(fl: Floats, keyKind: ProtoKind, kind: Kind, parent: Value,
                                entries: map<MapKey, Value>, back: map<MapKey, Value>)
    requires forall k :: k in entries ==> entries[k] < parent
    decreases parent, 6
  {
    && (forall b :: b in back ==> EntrySent(fl, keyKind, kind, parent, entries, b, back[b]))
    && (forall k :: k in entries ==> EntryReceived(fl, keyKind, kind, parent, entries, k, back))
  }

  ghost predicate FieldArrives(fl: Floats, shape: Shape, v: Value, w: Value)
    decreases v, 7
  {
    match shape
    case Single(kind) => BodyArrives(fl, kind, v, w)
    case List(kind) =>
      v.Array? && w.Array? && |v.items| == |w.items|
      && forall i :: 0 <= i < |v.items| ==> BodyArrives(fl, kind, v.items[i], w.items[i])
    case MapOf(keyKind, kind) =>
      w.Map? &&
      match v
      case Object(fields) => EntriesArrive(fl, keyKind, kind, v, TextEntries(fields), w.entries)
      case Map(entries) => EntriesArrive(fl, keyKind, kind, v, entries, w.entries)
      case _ => false
  }

  /** Lists and maps that hold nothing are not sent. */
  predicate HoldsNothing(shape: Shape, v: Value) {
    match shape
    case Single(_) => false
    case List(_) => v == Array([])
    case MapOf(_, _) => v == Object(map[]) || v == Map(map[])
  }

  ghost predicate FieldsArrive(fl: Floats, byName: map<Str, InputField>, parent: Value,
                               fields: map<Str, Value>, back: map<Str, Value>)
    requires forall s :: s in fields ==> fields[s] < parent
    decreases parent, 2
  {
    && (forall s :: s in fields ==> s in byName && byName[s].number != 0 && (s in back <==> !HoldsNothing(byName[s].shape, fields[s])))
    && (forall s :: s in back ==> s in fields && FieldArrives(fl, byName[s].shape, fields[s], back[s]))
  }

  /** An object, or a map with only text keys, arrives as an object of the fields that hold something. */
  ghost predicate MessageArrives(fl: Floats, byName: map<Str, InputField>, v: Value, w: Value)
    decreases v, 3
  {
    w.Object? &&
    match v
    case Object(fields) => FieldsArrive(fl, byName, v, fields, w.fields)
    case Map(entries) => AllText(entries) && FieldsArrive(fl, byName, v, TextFields(entries), w.fields)
    case _ => false
  }

  // ------------------------------------------- whatever may be received can be sent

  lemma {:induction false} BodySendable(fl: Floats, kind: Kind, v: Value, w: Value)
    requires BodyArrives(fl, kind, v, w)
    ensures EncodableBody(fl, kind, v)
    decreases v, 1
  {
    match kind
    case Plain(p) => SendableIffArrives(fl, p, v);
    case Enum(_) =>
    case Message(meta) => MessageSendable(fl, meta.byName, v, w);
  }

  lemma {:induction false} EntriesSendable(fl: Floats, keyKind: ProtoKind, kind: Kind, parent: Value,
                                           entries: map<MapKey, Value>, back: map<MapKey, Value>)
    requires (forall k :: k in entries ==> entries[k] < parent) && EntriesArrive(fl, keyKind, kind, parent, entries, back)
    ensures forall k :: k in entries ==> KeyBytes(keyKind, k).Ok? && EncodableBody(fl, kind, entries[k])
    decreases parent, 2
  {
    hide KeyArrives, BodyArrives, EncodableBody, KeyBytes;
    forall k | k in entries
      ensures KeyBytes(keyKind, k).Ok? && EncodableBody(fl, kind, entries[k])
    {
      assert EntryReceived(fl, keyKind, kind, parent, entries, k, back);
      var b, w :| b in back && KeyArrives(keyKind, k, b) && BodyArrives(fl, kind, entries[k], w);
      KeySendableIffArrives(keyKind, k);
      BodySendable(fl, kind, entries[k], w);
    }
  }

  lemma {:induction false} FieldSendable(fl: Floats, field: InputField, v: Value, w: Value)
    requires field.number != 0 && FieldArrives(fl, field.shape, v, w)
    ensures EncodableField(fl, field, v)
    decreases v, 3
  {
    hide EncodableBody, BodyArrives, EntriesArrive, KeyBytes;
    match field.shape
    case Single(kind) => BodySendable(fl, kind, v, w);
    case List(kind) =>
      forall i | 0 <= i < |v.items|
        ensures EncodableBody(fl, kind, v.items[i])
      {
        BodySendable(fl, kind, v.items[i], w.items[i]);
      }
    case MapOf(keyKind, kind) =>
      match v
      case Object(fields) => EntriesSendable(fl, keyKind, kind, v, TextEntries(fields), w.entries);
      case Map(entries) => EntriesSendable(fl, keyKind, kind, v, entries, w.entries);
  }

  lemma {:induction false} FieldsSendable(fl: Floats, byName: map<Str, InputField>, parent: Value,
                                          fields: map<Str, Value>, back: map<Str, Value>)
    requires (forall s :: s in fields ==> fields[s] < parent) && FieldsArrive(fl, byName, parent, fields, back)
    ensures forall s :: s in fields ==> s in byName && EncodableField(fl, byName[s], fields[s])
    decreases parent, -1
  {
    hide FieldArrives, EncodableBody;
    forall s | s in fields
      ensures s in byName && EncodableField(fl, byName[s], fields[s])
    {
      if s in back {
        FieldSendable(fl, byName[s], fields[s], back[s]);
      }
    }
  }

  /** For whatever could be received the encoder does not fail. */
  lemma {:induction false} MessageSendable(fl: Floats, byName: map<Str, InputField>, v: Value, w: Value)
    requires MessageArrives(fl, byName, v, w)
    ensures EncodableMessage(fl, byName, v)
    decreases v, 0
  {
    hide FieldsArrive, EncodableField;
    match v
    case Object(fields) => FieldsSendable(fl, byName, v, fields, w.fields);
    case Map(entries) => FieldsSendable(fl, byName, v, TextFields(entries), w.fields);
  }
}
