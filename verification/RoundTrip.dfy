/** What the decoder makes of bytes the encoder may have written, for every order of every hash map. */
module RoundTrip {
  import opened Wrappers
  import opened Words
  import opened Values
  import opened Primitives
  import opened Schema
  import opened Coercion
  import opened Decoding
  import opened Encoding
  import opened Conversions
  import opened Merging

  // ---------------------------------------------------------- canonical values

  /** The values a field of a plain kind hands back unchanged. */
  predicate CanonicalPrim(fl: Floats, p: Prim, v: Value) {
    match p
    case BoolT => v.Bool?
    case StringT => v.String?
    case BytesT => v.Bytes?
    case Int32T | Int64T | Sint32T | Sint64T | Sfixed64T => v.I64?
    case Uint32T | Uint64T | Fixed64T => v.U64?
    case Fixed32T => v.U64? && v.unsigned < TWO_32
    case Sfixed32T => v.I64? && -TWO_31 <= v.signed < TWO_31
    case FloatT => v.F64? && fl.widen(fl.narrow(v.bits)) == v.bits
    case DoubleT => v.F64?
  }

  /** The name the enum gives back for its number, or a nameless 32-bit number. */
  predicate CanonicalEnum(e: EnumDesc, v: Value) {
    || (v.String? && v.text in e.numberOf && e.numberOf[v.text] in e.nameOf && e.nameOf[e.numberOf[v.text]] == v.text)
    || (v.I64? && -TWO_31 <= v.signed < TWO_31 && v.signed !in e.nameOf)
  }

  predicate CanonicalKey(kind: ProtoKind, k: MapKey) {
    kind.ProtoPrim? &&
    match kind.prim
    case StringT => k.KeyString?
    case BoolT => k.KeyBool?
    case Int32T | Sint32T | Sfixed32T | Int64T | Sint64T | Sfixed64T => k.KeyI64?
    case Uint32T | Fixed32T | Uint64T | Fixed64T => k.KeyU64?
    case BytesT | FloatT | DoubleT => false
  }

  ghost predicate CanonicalBody(fl: Floats, kind: Kind, v: Value)
    decreases v, 1
  {
    match kind
    case Plain(p) => CanonicalPrim(fl, p, v)
    case Enum(e) => CanonicalEnum(e, v)
    case Message(meta) => CanonicalMessage(fl, meta.byName, v)
  }

  ghost predicate CanonicalField(fl: Floats, shape: Shape, v: Value)
    decreases v, 2
  {
    match shape
    case Single(kind) => CanonicalBody(fl, kind, v)
    case List(kind) => v.Array? && v.items != [] && forall i :: 0 <= i < |v.items| ==> CanonicalBody(fl, kind, v.items[i])
    case MapOf(keyKind, kind) =>
      v.Map? && v.entries != map[]
      && forall k :: k in v.entries ==> CanonicalKey(keyKind, k) && CanonicalBody(fl, kind, v.entries[k])
  }

  ghost predicate CanonicalMessage(fl: Floats, byName: map<Str, InputField>, v: Value)
    decreases v, 0
  {
    v.Object? && forall s :: s in v.fields ==>
      s in byName && byName[s].number != 0 && CanonicalField(fl, byName[s].shape, v.fields[s])
  }

  // ------------------------------------------------------------------- scalars

  lemma PrimReadsBack(fl: Floats, p: Prim, v: Value, rest: seq<byte>)
    requires PrimBytes(fl, p, v).Ok? && |PrimBytes(fl, p, v).value| < TWO_64
    ensures DecodePrim(fl, p, WireTypeFor(Plain(p)), PrimBytes(fl, p, v).value + rest) == Ok((PrimBack(fl, p, v), rest))
  {
    LeWidths();
    match p {
      case BoolT => VarintRoundTrip(if ToBool(v) then 1 else 0, rest);
      case StringT => LenDelimitedRoundTrip(ToStringLossy(fl, v), rest);
      case BytesT => LenDelimitedRoundTrip(ToBytesLossy(v), rest);
      case Int32T | Int64T =>
        var n := ToI64(fl, v).value;
        CastsRoundTrip(0, n);
        VarintRoundTrip(I64AsU64(n), rest);
      case Uint32T | Uint64T => VarintRoundTrip(ToU64(fl, v).value, rest);
      case Sint32T | Sint64T =>
        var n := ToI64(fl, v).value;
        ZigzagBijection(n, 0);
        VarintRoundTrip(EncodeZigzag(n), rest);
      case Fixed32T => FixedRoundTrip(U64AsU32(ToU64(fl, v).value), 4, rest);
      case Sfixed32T => FixedRoundTrip(I32AsU32(I64AsI32(ToI64(fl, v).value)), 4, rest);
      case FloatT => FixedRoundTrip(fl.narrow(ToF64(fl, v).value), 4, rest);
      case Fixed64T => FixedRoundTrip(ToU64(fl, v).value, 8, rest);
      case Sfixed64T =>
        var n := ToI64(fl, v).value;
        CastsRoundTrip(0, n);
        FixedRoundTrip(I64AsU64(n), 8, rest);
      case DoubleT => FixedRoundTrip(ToF64(fl, v).value, 8, rest);
    }
  }

  lemma PrimBackCanonical(fl: Floats, p: Prim, v: Value)
    requires Lawful(fl) && PrimBytes(fl, p, v).Ok?
    ensures CanonicalPrim(fl, p, PrimBack(fl, p, v))
    ensures CanonicalPrim(fl, p, v) ==> PrimBack(fl, p, v) == v
  {
    if p == Sfixed32T && CanonicalPrim(fl, p, v) {
      NarrowRoundTrip(v.signed);
    }
  }

  lemma EnumReadsBack(e: EnumDesc, v: Value) returns (w: Value)
    requires GoodEnum(e)
    ensures w == EnumValue(e, U64AsI32(I64AsU64(EnumNumber(e, v))))
    ensures CanonicalEnum(e, w) && EnumArrives(e, v, w)
    ensures CanonicalEnum(e, v) ==> w == v
  {
    hide EnumArrives;
    EnumConverts(e, v);
    w := EnumValue(e, U64AsI32(I64AsU64(EnumNumber(e, v))));
    if CanonicalEnum(e, v) {
      NarrowRoundTrip(EnumNumber(e, v));
    }
  }

  /** The varint an integer or boolean key is written as. */
  function KeyVarint(kind: ProtoKind, k: MapKey): u64
    requires KeyBytes(kind, k).Ok? && kind.prim != StringT
  {
    match kind.prim
    case BoolT => if k.flag then 1 else 0
    case Int32T | Sint32T | Sfixed32T | Int64T | Sint64T | Sfixed64T => I64AsU64(KeyToI64(k).value)
    case Uint32T | Fixed32T | Uint64T | Fixed64T => KeyToU64(k).value
  }

  lemma VarintKeyReadsBack(kind: ProtoKind, k: MapKey, rest: seq<byte>) returns (back: MapKey)
    requires KeyBytes(kind, k).Ok? && kind.prim != StringT
    ensures KeyBytes(kind, k).value == TagBytes(1, Varint) + VarintBytes(KeyVarint(kind, k))
    ensures DecodeKey(kind, Varint, VarintBytes(KeyVarint(kind, k)) + rest) == Ok((back, rest))
    ensures CanonicalKey(kind, back) && KeyArrives(kind, k, back)
    ensures CanonicalKey(kind, k) ==> back == k
  {
    hide TagBytes, VarintBytes, TakeVarint, WritesSigned, WritesUnsigned;
    KeyConverts(kind, k);
    var n := KeyVarint(kind, k);
    VarintRoundTrip(n, rest);
    CastsRoundTrip(n, U64AsI64(n));
    back := DecodeKey(kind, Varint, VarintBytes(n) + rest).value.0;
    if k.KeyI64? {
      CastsRoundTrip(0, k.signed);
    }
  }

  lemma KeyReadsBack(kind: ProtoKind, k: MapKey, rest: seq<byte>) returns (back: MapKey, wt: WireType, body: seq<byte>)
    requires KeyBytes(kind, k).Ok? && |KeyBytes(kind, k).value| < TWO_64
    ensures TakeTag(KeyBytes(kind, k).value + rest) == Ok((1, wt, body))
    ensures DecodeKey(kind, wt, body) == Ok((back, rest))
    ensures CanonicalKey(kind, back) && KeyArrives(kind, k, back)
    ensures CanonicalKey(kind, k) ==> back == k
  {
    hide TagBytes, VarintBytes, LenDelimited, TakeLenDelimited, TakeTag, KeyVarint;
    if kind.prim == StringT {
      wt, body, back := Len, LenDelimited(k.text) + rest, k;
      LenDelimitedRoundTrip(k.text, rest);
    } else {
      wt, body := Varint, VarintBytes(KeyVarint(kind, k)) + rest;
      back := VarintKeyReadsBack(kind, k, rest);
    }
    assert KeyBytes(kind, k).value + rest == TagBytes(1, wt) + body;
    TagRoundTrip(1, wt, body);
  }

  // ------------------------------------------------------------------ messages

  lemma {:induction false} BodyReadsBack(fl: Floats, kind: Kind, v: Value, out: seq<byte>, rest: seq<byte>) returns (w: Value)
    requires Lawful(fl) && GoodKind(kind) && EncodesBody(fl, kind, v, out) && |out| < TWO_64
    ensures DecodeValue(fl, kind, WireTypeFor(kind), out + rest) == Ok((w, rest))
    ensures CanonicalBody(fl, kind, w) && BodyArrives(fl, kind, v, w)
    ensures CanonicalBody(fl, kind, v) ==> w == v
    decreases v, 4
  {
    match kind {
      case Plain(p) =>
        PrimReadsBack(fl, p, v, rest);
        PrimBackCanonical(fl, p, v);
        PrimBackArrives(fl, p, v);
        w := PrimBack(fl, p, v);
      case Enum(e) =>
        VarintRoundTrip(I64AsU64(EnumNumber(e, v)), rest);
        w := EnumReadsBack(e, v);
      case Message(meta) =>
        var inner :| EncodesMessage(fl, meta.byName, v, inner) && out == LenDelimited(inner);
        LenDelimitedRoundTrip(inner, rest);
        w := MessageReadsBack(fl, meta, v, inner);
    }
  }

  /** One tagged value is one record of its field. */
  lemma {:induction false} ScalarReadsBack(fl: Floats, byNumber: map<u32, (Str, Shape)>, number: u32, v: Value, out: seq<byte>)
    returns (w: Value)
    requires Lawful(fl) && number != 0 && number in byNumber && |out| < TWO_64
    requires var shape := byNumber[number].1;
             !shape.MapOf? && GoodShape(shape) && EncodesScalar(fl, number, shape.kind, v, out)
    ensures var (name, shape) := byNumber[number];
            TakeRecord(fl, byNumber, out) == Ok((Occurrence(name, shape, if shape.List? then Array([w]) else w), []))
    ensures CanonicalBody(fl, byNumber[number].1.kind, w) && BodyArrives(fl, byNumber[number].1.kind, v, w)
    ensures CanonicalBody(fl, byNumber[number].1.kind, v) ==> w == v
    decreases v, 5
  {
    var (name, shape) := byNumber[number];
    var wt := WireTypeFor(shape.kind);
    var tag := TagBytes(number, wt);
    var body := out[|tag|..];
    assert out == tag + body;
    TagRoundTrip(number, wt, body);
    w := BodyReadsBack(fl, shape.kind, v, body, []);
    assert body + [] == body;
    OccurrenceRead(fl, shape, body, w);
  }

  lemma OccurrenceRead(fl: Floats, shape: Shape, body: seq<byte>, w: Value)
    requires !shape.MapOf? && DecodeValue(fl, shape.kind, WireTypeFor(shape.kind), body) == Ok((w, []))
    ensures DecodeField(fl, shape, WireTypeFor(shape.kind), body)
         == Ok((if shape.List? then Array([w]) else w, []))
  {
    assert WireTypeFor(shape.kind) == Len ==> !Packable(shape.kind);
  }

  /** A map entry is one record holding its key and value. */
  lemma {:induction false} EntryReadsBack(fl: Floats, byNumber: map<u32, (Str, Shape)>, number: u32,
                                          k: MapKey, v: Value, out: seq<byte>)
    returns (back: MapKey, w: Value)
    requires Lawful(fl) && number != 0 && number in byNumber && |out| < TWO_64
    requires var shape := byNumber[number].1;
             shape.MapOf? && GoodShape(shape) && EncodesEntry(fl, number, shape.keyKind, shape.kind, k, v, out)
    ensures TakeRecord(fl, byNumber, out) == Ok((Entry(byNumber[number].0, back, w), []))
    ensures CanonicalKey(byNumber[number].1.keyKind, back) && CanonicalBody(fl, byNumber[number].1.kind, w)
    ensures KeyArrives(byNumber[number].1.keyKind, k, back) && BodyArrives(fl, byNumber[number].1.kind, v, w)
    ensures CanonicalKey(byNumber[number].1.keyKind, k) ==> back == k
    ensures CanonicalBody(fl, byNumber[number].1.kind, v) ==> w == v
    decreases v, 6
  {
    hide CanonicalBody, CanonicalKey, BodyArrives, KeyArrives, GoodKind, TagBytes, LenDelimited, TakeTag, DecodeKey, DecodeValue, DecodeEntry, KeyBytes, TakeLenDelimited, EncodesBody;
    var shape := byNumber[number].1;
    var keyBytes := KeyBytes(shape.keyKind, k).value;
    var value :| EncodesScalar(fl, 2, shape.kind, v, value)
                 && out == TagBytes(number, Len) + LenDelimited(keyBytes + value);
    TagRoundTrip(number, Len, LenDelimited(keyBytes + value));
    LenDelimitedRoundTrip(keyBytes + value, []);
    assert LenDelimited(keyBytes + value) + [] == LenDelimited(keyBytes + value);
    var tag := TagBytes(2, WireTypeFor(shape.kind));
    var body := value[|tag|..];
    assert value == tag + body;
    TagRoundTrip(2, WireTypeFor(shape.kind), body);
    w := BodyReadsBack(fl, shape.kind, v, body, []);
    assert body + [] == body;
    var wt, keyBody;
    back, wt, keyBody := KeyReadsBack(shape.keyKind, k, value);
    EntryPartsRead(fl, shape.keyKind, shape.kind, keyBytes + value, value, back, w);
  }

  lemma EntryPartsRead(fl: Floats, keyKind: ProtoKind, kind: Kind, src: seq<byte>, value: seq<byte>, back: MapKey, w: Value)
    requires TakeTag(src).Ok? && TakeTag(src).value.0 == 1
    requires DecodeKey(keyKind, TakeTag(src).value.1, TakeTag(src).value.2) == Ok((back, value))
    requires TakeTag(value).Ok? && TakeTag(value).value.0 == 2
    requires DecodeValue(fl, kind, TakeTag(value).value.1, TakeTag(value).value.2) == Ok((w, []))
    ensures DecodeEntry(fl, keyKind, kind, src) == Ok((back, w))
  {
    hide TakeTag, DecodeKey, DecodeValue;
    assert EntryFrom(fl, keyKind, kind, [], Some(back), Some(w)) == Ok((back, w));
    EmptyHasNoTag();
    assert value != [] && src != [];
    assert EntryFrom(fl, keyKind, kind, value, Some(back), None) == Ok((back, w));
  }

  lemma EmptyHasNoTag()
    ensures TakeTag([]).Err?
  {
  }

  /** Reading one record onto earlier fields. */
  lemma ReadOne(fl: Floats, byNumber: map<u32, (Str, Shape)>, out: seq<byte>, acc: map<Str, Value>, piece: Piece)
    requires TakeRecord(fl, byNumber, out) == Ok((piece, [])) && Absorb(acc, piece).Ok?
    ensures DecodeFrom(fl, byNumber, out, acc) == Absorb(acc, piece)
  {
    var next := Absorb(acc, piece).value;
    assert DecodeFrom(fl, byNumber, [], next) == Ok(next);
    if out == [] {
      EmptyHasNoTag();
    }
  }

  lemma ReadNone(fl: Floats, byNumber: map<u32, (Str, Shape)>, acc: map<Str, Value>)
    ensures DecodeFrom(fl, byNumber, [], acc) == Ok(acc)
  {
  }

  /** One more item behind those read so far. */
  lemma AppendItem(acc: map<Str, Value>, name: Str, shape: Shape, front: seq<Value>, w: Value)
    requires shape.List? && name !in acc
    ensures Absorb(if front == [] then acc else acc[name := Array(front)], Occurrence(name, shape, Array([w])))
         == Ok(acc[name := Array(front + [w])])
  {
    if front == [] {
      assert front + [w] == [w];
    } else {
      assert acc[name := Array(front)][name := Array(front + [w])] == acc[name := Array(front + [w])];
    }
  }

  /** One more entry beside those read so far. */
  lemma InsertOne(acc: map<Str, Value>, name: Str, front: map<MapKey, Value>, key: MapKey, w: Value)
    requires name !in acc
    ensures Absorb(if front == map[] then acc else acc[name := Map(front)], Entry(name, key, w))
         == Ok(acc[name := Map(front[key := w])])
  {
    if front == map[] {
      assert front[key := w] == map[key := w];
    } else {
      assert acc[name := Map(front)][name := Map(front[key := w])] == acc[name := Map(front[key := w])];
    }
  }

  lemma ReadOneMore(fl: Floats, byNumber: map<u32, (Str, Shape)>, out: seq<byte>, cut: nat,
                    acc: map<Str, Value>, acc1: map<Str, Value>, piece: Piece)
    requires cut <= |out| && DecodeFrom(fl, byNumber, out[..cut], acc) == Ok(acc1)
    requires TakeRecord(fl, byNumber, out[cut..]) == Ok((piece, [])) && Absorb(acc1, piece).Ok?
    ensures DecodeFrom(fl, byNumber, out, acc) == Absorb(acc1, piece)
  {
    hide Absorb, TakeRecord;
    ReadOne(fl, byNumber, out[cut..], acc1, piece);
    DecodePrefix(fl, byNumber, out[..cut], out[cut..], acc);
    assert out[..cut] + out[cut..] == out;
  }

  lemma {:induction false} ItemsReadBack(fl: Floats, byNumber: map<u32, (Str, Shape)>, number: u32, parent: Value,
                                         items: seq<Value>, out: seq<byte>, acc: map<Str, Value>)
    returns (back: seq<Value>)
    requires Lawful(fl) && number != 0 && number in byNumber && |out| < TWO_64
    requires byNumber[number].1.List? && GoodShape(byNumber[number].1) && byNumber[number].0 !in acc
    requires forall i :: 0 <= i < |items| ==> items[i] < parent
    requires EncodesItems(fl, number, byNumber[number].1.kind, parent, items, out)
    ensures DecodeFrom(fl, byNumber, out, acc) == Ok(if items == [] then acc else acc[byNumber[number].0 := Array(back)])
    ensures |back| == |items|
    ensures forall i :: 0 <= i < |back| ==>
              CanonicalBody(fl, byNumber[number].1.kind, back[i]) && BodyArrives(fl, byNumber[number].1.kind, items[i], back[i])
    ensures (forall i :: 0 <= i < |items| ==> CanonicalBody(fl, byNumber[number].1.kind, items[i])) ==> back == items
    decreases parent, 6, |items|
  {
    hide DecodeFrom, TakeRecord, EncodesScalar, CanonicalBody, BodyArrives, GoodKind, TakeTag, Absorb;
    if items == [] {
      ReadNone(fl, byNumber, acc);
      return [];
    }
    var (name, shape) := byNumber[number];
    var last := |items| - 1;
    var cut: nat :| cut <= |out|
      && EncodesItems(fl, number, shape.kind, parent, items[..last], out[..cut])
      && EncodesScalar(fl, number, shape.kind, items[last], out[cut..]);
    var front := ItemsReadBack(fl, byNumber, number, parent, items[..last], out[..cut], acc);
    var w := ScalarReadsBack(fl, byNumber, number, items[last], out[cut..]);
    back := front + [w];
    var acc1 := DecodeFrom(fl, byNumber, out[..cut], acc).value;
    var piece := Occurrence(name, shape, Array([w]));
    assert items[..last] == [] <==> front == [];
    AppendItem(acc, name, shape, front, w);
    ReadOneMore(fl, byNumber, out, cut, acc, acc1, piece);
    if forall i :: 0 <= i < |items| ==> CanonicalBody(fl, shape.kind, items[i]) {
      assert forall i :: 0 <= i < last ==> items[..last][i] == items[i];
      assert items == items[..last] + [items[last]];
    }
  }

  ghost predicate CanonicalEntries(fl: Floats, shape: Shape, entries: map<MapKey, Value>)
    requires shape.MapOf?
  {
    forall k :: k in entries ==> CanonicalKey(shape.keyKind, k) && CanonicalBody(fl, shape.kind, entries[k])
  }

  lemma EntriesJoin(fl: Floats, shape: Shape, entries: map<MapKey, Value>, k: MapKey,
                    front: map<MapKey, Value>, key: MapKey, w: Value)
    requires shape.MapOf? && k in entries
    requires CanonicalEntries(fl, shape, front) && (CanonicalEntries(fl, shape, entries - {k}) ==> front == entries - {k})
    requires CanonicalKey(shape.keyKind, key) && CanonicalBody(fl, shape.kind, w)
    requires CanonicalKey(shape.keyKind, k) ==> key == k
    requires CanonicalBody(fl, shape.kind, entries[k]) ==> w == entries[k]
    ensures CanonicalEntries(fl, shape, front[key := w]) && front[key := w] != map[]
    ensures CanonicalEntries(fl, shape, entries) ==> front[key := w] == entries
  {
    hide CanonicalKey, CanonicalBody;
    assert key in front[key := w];
    if CanonicalEntries(fl, shape, entries) {
      assert front == entries - {k};
    }
  }

  lemma NoEntriesArrive(fl: Floats, keyKind: ProtoKind, kind: Kind, parent: Value)
    ensures EntriesArrive(fl, keyKind, kind, parent, map[], map[])
  {
  }

  lemma EntriesArriveJoin(fl: Floats, keyKind: ProtoKind, kind: Kind, parent: Value, entries: map<MapKey, Value>,
                          k: MapKey, front: map<MapKey, Value>, key: MapKey, w: Value)
    requires (forall x :: x in entries ==> entries[x] < parent) && k in entries
    requires EntriesArrive(fl, keyKind, kind, parent, entries - {k}, front)
    requires KeyArrives(keyKind, k, key) && BodyArrives(fl, kind, entries[k], w)
    ensures EntriesArrive(fl, keyKind, kind, parent, entries, front[key := w])
  {
    hide KeyArrives, BodyArrives, EntrySent, EntryReceived;
    var rest, back := entries - {k}, front[key := w];
    forall b | b in back
      ensures EntrySent(fl, keyKind, kind, parent, entries, b, back[b])
    {
      if b != key {
        SentAmongMore(fl, keyKind, kind, parent, entries, k, b, front[b]);
      } else {
        SentIsSent(fl, keyKind, kind, parent, entries, k, key, w);
      }
    }
    forall x | x in entries
      ensures EntryReceived(fl, keyKind, kind, parent, entries, x, back)
    {
      if x == k {
        ReceivedHere(fl, keyKind, kind, parent, entries, k, back, key, w);
      } else {
        ReceivedAmongMore(fl, keyKind, kind, parent, entries, k, x, front, key, w);
      }
    }
  }

  lemma ReceivedHere(fl: Floats, keyKind: ProtoKind, kind: Kind, parent: Value, entries: map<MapKey, Value>,
                     k: MapKey, back: map<MapKey, Value>, b: MapKey, w: Value)
    requires (forall x :: x in entries ==> entries[x] < parent) && k in entries && b in back
    requires KeyArrives(keyKind, k, b) && BodyArrives(fl, kind, entries[k], w)
    ensures EntryReceived(fl, keyKind, kind, parent, entries, k, back)
  {
    hide KeyArrives, BodyArrives;
  }

  lemma ReceivedAmongMore(fl: Floats, keyKind: ProtoKind, kind: Kind, parent: Value, entries: map<MapKey, Value>,
                          k: MapKey, x: MapKey, front: map<MapKey, Value>, key: MapKey, w: Value)
    requires (forall y :: y in entries ==> entries[y] < parent) && x in entries - {k}
    requires EntryReceived(fl, keyKind, kind, parent, entries - {k}, x, front)
    ensures EntryReceived(fl, keyKind, kind, parent, entries, x, front[key := w])
  {
    hide KeyArrives, BodyArrives;
    var b, v :| b in front && KeyArrives(keyKind, x, b) && BodyArrives(fl, kind, (entries - {k})[x], v);
    assert b in front[key := w] && (entries - {k})[x] == entries[x];
  }

  lemma SentIsSent(fl: Floats, keyKind: ProtoKind, kind: Kind, parent: Value, entries: map<MapKey, Value>,
                   k: MapKey, b: MapKey, w: Value)
    requires (forall x :: x in entries ==> entries[x] < parent)
    requires k in entries && KeyArrives(keyKind, k, b) && BodyArrives(fl, kind, entries[k], w)
    ensures EntrySent(fl, keyKind, kind, parent, entries, b, w)
  {
    hide KeyArrives, BodyArrives;
  }

  lemma SentAmongMore(fl: Floats, keyKind: ProtoKind, kind: Kind, parent: Value, entries: map<MapKey, Value>,
                      k: MapKey, b: MapKey, w: Value)
    requires (forall x :: x in entries ==> entries[x] < parent)
    requires EntrySent(fl, keyKind, kind, parent, entries - {k}, b, w)
    ensures EntrySent(fl, keyKind, kind, parent, entries, b, w)
  {
    hide KeyArrives, BodyArrives;
    var x :| x in entries - {k} && KeyArrives(keyKind, x, b) && BodyArrives(fl, kind, (entries - {k})[x], w);
    assert x in entries && (entries - {k})[x] == entries[x];
  }

  lemma {:induction false} EntriesReadBack(fl: Floats, byNumber: map<u32, (Str, Shape)>, number: u32, parent: Value,
                                           entries: map<MapKey, Value>, out: seq<byte>, acc: map<Str, Value>)
    returns (back: map<MapKey, Value>)
    requires Lawful(fl) && number != 0 && number in byNumber && |out| < TWO_64
    requires byNumber[number].1.MapOf? && GoodShape(byNumber[number].1) && byNumber[number].0 !in acc
    requires forall k :: k in entries ==> entries[k] < parent
    requires EncodesEntries(fl, number, byNumber[number].1.keyKind, byNumber[number].1.kind, parent, entries, out)
    ensures DecodeFrom(fl, byNumber, out, acc) == Ok(if entries == map[] then acc else acc[byNumber[number].0 := Map(back)])
    ensures (entries == map[]) == (back == map[])
    ensures CanonicalEntries(fl, byNumber[number].1, back)
    ensures EntriesArrive(fl, byNumber[number].1.keyKind, byNumber[number].1.kind, parent, entries, back)
    ensures CanonicalEntries(fl, byNumber[number].1, entries) ==> back == entries
    decreases parent, 6, |entries|
  {
    hide DecodeFrom, TakeRecord, EncodesEntry, CanonicalBody, CanonicalKey, BodyArrives, KeyArrives, EntriesArrive, GoodKind, TakeTag, Absorb;
    if entries == map[] {
      ReadNone(fl, byNumber, acc);
      NoEntriesArrive(fl, byNumber[number].1.keyKind, byNumber[number].1.kind, parent);
      return map[];
    }
    var (name, shape) := byNumber[number];
    var k, cut: nat :| k in entries && cut <= |out|
      && EncodesEntries(fl, number, shape.keyKind, shape.kind, parent, entries - {k}, out[..cut])
      && EncodesEntry(fl, number, shape.keyKind, shape.kind, k, entries[k], out[cut..]);
    var front := EntriesReadBack(fl, byNumber, number, parent, entries - {k}, out[..cut], acc);
    var key, w := EntryReadsBack(fl, byNumber, number, k, entries[k], out[cut..]);
    back := front[key := w];
    var acc1 := DecodeFrom(fl, byNumber, out[..cut], acc).value;
    var piece := Entry(name, key, w);
    InsertOne(acc, name, front, key, w);
    ReadOne(fl, byNumber, out[cut..], acc1, piece);
    DecodePrefix(fl, byNumber, out[..cut], out[cut..], acc);
    assert out[..cut] + out[cut..] == out;
    EntriesJoin(fl, shape, entries, k, front, key, w);
    EntriesArriveJoin(fl, shape.keyKind, shape.kind, parent, entries, k, front, key, w);
  }

  /** A field's records read onto fields that lack it add the field, or nothing when it holds no item. */
  lemma {:induction false} FieldReadsBack(fl: Floats, meta: Meta, name: Str, v: Value, out: seq<byte>, acc: map<Str, Value>)
    returns (w: Option<Value>)
    requires Lawful(fl) && GoodMeta(meta) && |out| < TWO_64
    requires name in meta.byName && name !in acc && EncodesField(fl, meta.byName[name], v, out)
    ensures meta.byName[name].number != 0
    ensures DecodeFrom(fl, meta.byNumber, out, acc) == Ok(if w.None? then acc else acc[name := w.value])
    ensures w.Some? ==> CanonicalField(fl, meta.byName[name].shape, w.value) && FieldArrives(fl, meta.byName[name].shape, v, w.value)
    ensures w.None? <==> HoldsNothing(meta.byName[name].shape, v)
    ensures CanonicalField(fl, meta.byName[name].shape, v) ==> w == Some(v)
    decreases v, 8
  {
    hide DecodeFrom, TakeRecord, EncodesScalar, EncodesItems, EncodesEntries, CanonicalBody, CanonicalKey, BodyArrives, EntriesArrive, EntrySent, GoodKind;
    var InputField(number, shape) := meta.byName[name];
    match shape {
      case Single(_) =>
        var s := ScalarReadsBack(fl, meta.byNumber, number, v, out);
        ReadOne(fl, meta.byNumber, out, acc, Occurrence(name, shape, s));
        w := Some(s);
      case List(_) =>
        var items := ItemsReadBack(fl, meta.byNumber, number, v, v.items, out, acc);
        w := if v.items == [] then None else Some(Array(items));
      case MapOf(_, _) =>
        w := MapReadsBack(fl, meta, name, v, out, acc);
    }
  }

  lemma {:induction false} MapReadsBack(fl: Floats, meta: Meta, name: Str, v: Value, out: seq<byte>, acc: map<Str, Value>)
    returns (w: Option<Value>)
    requires Lawful(fl) && GoodMeta(meta) && |out| < TWO_64
    requires name in meta.byName && name !in acc && meta.byName[name].shape.MapOf? && EncodesField(fl, meta.byName[name], v, out)
    ensures DecodeFrom(fl, meta.byNumber, out, acc) == Ok(if w.None? then acc else acc[name := w.value])
    ensures w.Some? ==> CanonicalField(fl, meta.byName[name].shape, w.value) && FieldArrives(fl, meta.byName[name].shape, v, w.value)
    ensures w.None? <==> HoldsNothing(meta.byName[name].shape, v)
    ensures CanonicalField(fl, meta.byName[name].shape, v) ==> w == Some(v)
    decreases v, 7
  {
    hide DecodeFrom, TakeRecord, EncodesField, FieldArrives, EncodesEntries, CanonicalField, CanonicalEntries, EntriesArrive, GoodKind,
         GoodShape, HoldsNothing, EntriesSent;
    var InputField(number, shape) := meta.byName[name];
    EntriesWereSent(fl, meta.byName[name], v, out);
    assert number in meta.byNumber && meta.byNumber[number] == (name, shape) && GoodShape(shape);
    hide GoodMeta;
    var back := EntriesReadBack(fl, meta.byNumber, number, v, EntriesSent(v), out, acc);
    w := if back == map[] then None else Some(Map(back));
    EntriesCanonical(fl, shape, Map(back));
    EntriesCanonical(fl, shape, v);
    MapArrives(fl, shape, v, back);
  }

  /** The entries of a value sent as a map. */
  ghost function EntriesSent(v: Value): map<MapKey, Value> {
    match v
    case Object(fields) => TextEntries(fields)
    case Map(entries) => entries
    case _ => map[]
  }

  lemma EntriesWereSent(fl: Floats, field: InputField, v: Value, out: seq<byte>)
    requires field.shape.MapOf? && EncodesField(fl, field, v, out)
    ensures field.number != 0 && (v.Object? || v.Map?) && (v.Map? ==> EntriesSent(v) == v.entries)
    ensures forall k :: k in EntriesSent(v) ==> EntriesSent(v)[k] < v
    ensures EncodesEntries(fl, field.number, field.shape.keyKind, field.shape.kind, v, EntriesSent(v), out)
    ensures EntriesSent(v) == map[] <==> HoldsNothing(field.shape, v)
  {
    hide EncodesEntries;
    if v.Object? {
      if s :| s in v.fields {
        assert KeyString(s) in TextEntries(v.fields);
      }
    }
  }

  lemma MapArrives(fl: Floats, shape: Shape, v: Value, back: map<MapKey, Value>)
    requires shape.MapOf? && (v.Object? || v.Map?) && forall k :: k in EntriesSent(v) ==> EntriesSent(v)[k] < v
    requires EntriesArrive(fl, shape.keyKind, shape.kind, v, EntriesSent(v), back)
    ensures FieldArrives(fl, shape, v, Map(back))
  {
    hide EntriesArrive;
  }

  lemma EntriesCanonical(fl: Floats, shape: Shape, v: Value)
    requires shape.MapOf?
    ensures CanonicalField(fl, shape, v) <==> v.Map? && v.entries != map[] && CanonicalEntries(fl, shape, v.entries)
  {
    hide CanonicalKey, CanonicalBody;
  }

  lemma NoFieldsCanonical(fl: Floats, byName: map<Str, InputField>)
    ensures CanonicalMessage(fl, byName, Object(map[]))
  {
  }

  lemma FieldsJoin(fl: Floats, byName: map<Str, InputField>, fields: map<Str, Value>, name: Str,
                   front: map<Str, Value>, w: Option<Value>)
    requires name in fields && name in byName && byName[name].number != 0
    requires front.Keys <= fields.Keys - {name} && CanonicalMessage(fl, byName, Object(front))
    requires CanonicalMessage(fl, byName, Object(fields - {name})) ==> front == fields - {name}
    requires w.Some? ==> CanonicalField(fl, byName[name].shape, w.value)
    requires CanonicalField(fl, byName[name].shape, fields[name]) ==> w == Some(fields[name])
    ensures var back := if w.None? then front else front[name := w.value];
            && back.Keys <= fields.Keys && CanonicalMessage(fl, byName, Object(back))
            && (CanonicalMessage(fl, byName, Object(fields)) ==> back == fields)
  {
    hide CanonicalField;
    if CanonicalMessage(fl, byName, Object(fields)) {
      assert front == fields - {name};
    }
  }

  lemma NoFieldsArrive(fl: Floats, byName: map<Str, InputField>, parent: Value)
    ensures FieldsArrive(fl, byName, parent, map[], map[])
  {
  }

  lemma FieldsArriveJoin(fl: Floats, byName: map<Str, InputField>, parent: Value, fields: map<Str, Value>, name: Str,
                         front: map<Str, Value>, w: Option<Value>)
    requires (forall s :: s in fields ==> fields[s] < parent) && name in fields && name in byName && byName[name].number != 0
    requires front.Keys <= fields.Keys - {name} && FieldsArrive(fl, byName, parent, fields - {name}, front)
    requires w.Some? ==> FieldArrives(fl, byName[name].shape, fields[name], w.value)
    requires w.None? <==> HoldsNothing(byName[name].shape, fields[name])
    ensures FieldsArrive(fl, byName, parent, fields, if w.None? then front else front[name := w.value])
  {
    hide FieldArrives, HoldsNothing;
    var rest, back := fields - {name}, if w.None? then front else front[name := w.value];
    forall s | s in fields
      ensures s in byName && byName[s].number != 0 && (s in back <==> !HoldsNothing(byName[s].shape, fields[s]))
    {
      assert s != name ==> s in rest && rest[s] == fields[s];
    }
    forall s | s in back
      ensures s in fields && FieldArrives(fl, byName[s].shape, fields[s], back[s])
    {
      assert s != name ==> s in front && rest[s] == fields[s];
    }
  }

  lemma {:induction false} FieldsReadBack(fl: Floats, meta: Meta, parent: Value, fields: map<Str, Value>, out: seq<byte>)
    returns (back: map<Str, Value>)
    requires Lawful(fl) && GoodMeta(meta) && |out| < TWO_64
    requires forall name :: name in fields ==> fields[name] < parent
    requires EncodesFields(fl, meta.byName, parent, fields, out)
    ensures DecodeFrom(fl, meta.byNumber, out, map[]) == Ok(back)
    ensures back.Keys <= fields.Keys && CanonicalMessage(fl, meta.byName, Object(back))
    ensures FieldsArrive(fl, meta.byName, parent, fields, back)
    ensures CanonicalMessage(fl, meta.byName, Object(fields)) ==> back == fields
    decreases parent, 2, |fields|
  {
    hide DecodeFrom, EncodesField, CanonicalField, CanonicalMessage, FieldArrives, FieldsArrive, HoldsNothing, GoodMeta;
    if fields == map[] {
      ReadNone(fl, meta.byNumber, map[]);
      NoFieldsCanonical(fl, meta.byName);
      NoFieldsArrive(fl, meta.byName, parent);
      return map[];
    }
    var name, cut: nat :| name in fields && name in meta.byName && cut <= |out|
      && EncodesFields(fl, meta.byName, parent, fields - {name}, out[..cut])
      && EncodesField(fl, meta.byName[name], fields[name], out[cut..]);
    var front := FieldsReadBack(fl, meta, parent, fields - {name}, out[..cut]);
    var w := FieldReadsBack(fl, meta, name, fields[name], out[cut..], front);
    back := if w.None? then front else front[name := w.value];
    DecodePrefix(fl, meta.byNumber, out[..cut], out[cut..], map[]);
    assert out[..cut] + out[cut..] == out;
    FieldsJoin(fl, meta.byName, fields, name, front, w);
    FieldsArriveJoin(fl, meta.byName, parent, fields, name, front, w);
  }

  lemma {:induction false} MessageReadsBack(fl: Floats, meta: Meta, v: Value, out: seq<byte>) returns (w: Value)
    requires Lawful(fl) && GoodMeta(meta) && |out| < TWO_64
    requires EncodesMessage(fl, meta.byName, v, out)
    ensures DecodeFrom(fl, meta.byNumber, out, map[]).Ok?
    ensures w == Object(DecodeFrom(fl, meta.byNumber, out, map[]).value)
    ensures CanonicalMessage(fl, meta.byName, w) && MessageArrives(fl, meta.byName, v, w)
    ensures CanonicalMessage(fl, meta.byName, v) ==> w == v
    decreases v, 3
  {
    var fields := if v.Object? then v.fields else TextFields(v.entries);
    var back := FieldsReadBack(fl, meta, v, fields, out);
    w := Object(back);
  }

  /**
  Whatever the encoder writes decodes, to a canonical value that is what was sent up to the kinds of its
  fields; and it decodes to the value that was encoded exactly when that value was canonical.
  */
  lemma EncodeDecode(fl: Floats, meta: Meta, v: Value, out: seq<byte>)
    requires Lawful(fl) && GoodMeta(meta) && |out| < TWO_64
    requires EncodesMessage(fl, meta.byName, v, out)
    ensures DecodeMessage(fl, meta.byNumber, out).Ok?
    ensures CanonicalMessage(fl, meta.byName, DecodeMessage(fl, meta.byNumber, out).value)
    ensures MessageArrives(fl, meta.byName, v, DecodeMessage(fl, meta.byNumber, out).value)
    ensures DecodeMessage(fl, meta.byNumber, out) == Ok(v) <==> CanonicalMessage(fl, meta.byName, v)
  {
    var w := MessageReadsBack(fl, meta, v, out);
  }

  /** Encoding never fails on a canonical value. */
  lemma {:induction false} CanonicalBodyEncodes(fl: Floats, kind: Kind, v: Value)
    requires CanonicalBody(fl, kind, v)
    ensures EncodableBody(fl, kind, v)
    decreases v, 1
  {
    if kind.Message? {
      CanonicalEncodes(fl, kind.meta.byName, v);
    }
  }

  lemma {:induction false} CanonicalEncodes(fl: Floats, byName: map<Str, InputField>, v: Value)
    requires CanonicalMessage(fl, byName, v)
    ensures EncodableMessage(fl, byName, v)
    decreases v, 0
  {
    forall s | s in v.fields
      ensures s in byName && EncodableField(fl, byName[s], v.fields[s])
    {
      var x := v.fields[s];
      match byName[s].shape {
        case Single(kind) =>
          CanonicalBodyEncodes(fl, kind, x);
        case List(kind) =>
          forall i | 0 <= i < |x.items| ensures EncodableBody(fl, kind, x.items[i]) {
            CanonicalBodyEncodes(fl, kind, x.items[i]);
          }
        case MapOf(keyKind, kind) =>
          forall k | k in x.entries ensures KeyBytes(keyKind, k).Ok? && EncodableBody(fl, kind, x.entries[k]) {
            CanonicalBodyEncodes(fl, kind, x.entries[k]);
          }
      }
    }
  }

  /** The encoder and the decoder run one after the other on a canonical value. */
  method EncodeThenDecode(fl: Floats, meta: Meta, v: Value) returns (sent: seq<byte>, r: Result<Value, WireError>)
    requires Lawful(fl) && GoodMeta(meta) && CanonicalMessage(fl, meta.byName, v)
    ensures EncodesMessage(fl, meta.byName, v, sent)
    ensures |sent| < TWO_64 ==> r == Ok(v)
  {
    CanonicalEncodes(fl, meta.byName, v);
    var out := new Buffer([]);
    var written := EncodeMessage(fl, meta.byName, v, out);
    sent := out.data;
    assert sent[0..] == sent;
    if |sent| < TWO_64 {
      EncodeDecode(fl, meta, v, sent);
    }
    r := DecodeMessageBody(fl, meta.byNumber, sent);
  }
}
