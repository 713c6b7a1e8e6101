/**
The encoder: from dynamic values to wire bytes. Hash maps are iterated in no particular order, so what
the encoder may write is a relation between a value and bytes, true of every order of every map.
*/
module Encoding {
  import opened Wrappers
  import opened Words
  import opened Values
  import opened Primitives
  import opened Schema
  import opened Coercion

  // -------------------------------------------------------- meaning: scalars

  /** The bytes after the tag of a plain field. */
  function PrimBytes(fl: Floats, p: Prim, v: Value): Result<seq<byte>, WireError> {
    match p
    case BoolT => Ok(VarintBytes(if ToBool(v) then 1 else 0))
    case StringT => Ok(LenDelimited(ToStringLossy(fl, v)))
    case BytesT => Ok(LenDelimited(ToBytesLossy(v)))
    case Int32T | Int64T => (var n :- ToI64(fl, v); Ok(VarintBytes(I64AsU64(n))))
    case Uint32T | Uint64T => (var n :- ToU64(fl, v); Ok(VarintBytes(n)))
    case Sint32T | Sint64T => (var n :- ToI64(fl, v); Ok(VarintBytes(EncodeZigzag(n))))
    case Fixed32T => (var n :- ToU64(fl, v); Ok(LeBytes(U64AsU32(n), 4)))
    case Sfixed32T => (var n :- ToI64(fl, v); Ok(LeBytes(I32AsU32(I64AsI32(n)), 4)))
    case FloatT => (var f :- ToF64(fl, v); Ok(LeBytes(fl.narrow(f), 4)))
    case Fixed64T => (var n :- ToU64(fl, v); Ok(LeBytes(n, 8)))
    case Sfixed64T => (var n :- ToI64(fl, v); Ok(LeBytes(I64AsU64(n), 8)))
    case DoubleT => (var f :- ToF64(fl, v); Ok(LeBytes(f, 8)))
  }

  /** A name stands for its number, an unknown name or any other value for 0. */
  function EnumNumber(e: EnumDesc, v: Value): i64 {
    match v
    case String(s) => if s in e.numberOf then e.numberOf[s] else 0
    case I64(i) => i
    case U64(u) => U64AsI64(u)
    case _ => 0
  }

  /** Tag and value of a map entry's key. */
  function KeyBytes(kind: ProtoKind, k: MapKey): Result<seq<byte>, WireError> {
    match kind
    case ProtoEnum(_) => Err(UnsupportedKeyKind)
    case ProtoMessage(_) => Err(UnsupportedKeyKind)
    case ProtoPrim(p) =>
      match p
      case StringT =>
        if k.KeyString? then Ok(TagBytes(1, Len) + LenDelimited(k.text)) else Err(InvalidKey)
      case BoolT =>
        if k.KeyBool? then Ok(TagBytes(1, Varint) + VarintBytes(if k.flag then 1 else 0)) else Err(InvalidKey)
      case Int32T | Sint32T | Sfixed32T | Int64T | Sint64T | Sfixed64T =>
        (var n :- KeyToI64(k); Ok(TagBytes(1, Varint) + VarintBytes(I64AsU64(n))))
      case Uint32T | Fixed32T | Uint64T | Fixed64T =>
        (var n :- KeyToU64(k); Ok(TagBytes(1, Varint) + VarintBytes(n)))
      case BytesT | FloatT | DoubleT => Err(UnsupportedKeyKind)
  }

  // ------------------------------------------------------- meaning: messages

  /** A map whose keys are all text, as an object. */
  function TextFields(entries: map<MapKey, Value>): (fields: map<Str, Value>)
    ensures forall s :: s in fields <==> KeyString(s) in entries
    ensures forall s :: s in fields ==> fields[s] == entries[KeyString(s)]
  {
    map k | k in entries && k.KeyString? :: k.text := entries[k]
  }

  /** An object as a map with text keys. */
  function TextEntries(fields: map<Str, Value>): (entries: map<MapKey, Value>)
    ensures forall k :: k in entries <==> k.KeyString? && k.text in fields
    ensures forall s :: s in fields ==> entries[KeyString(s)] == fields[s]
  {
    map s | s in fields :: KeyString(s) := fields[s]
  }

  predicate AllText(entries: map<MapKey, Value>) {
    forall k :: k in entries ==> k.KeyString?
  }

  /** `out` is the body of a field of kind `kind` holding `v`, for some order of its maps. */
  ghost predicate EncodesBody(fl: Floats, kind: Kind, v: Value, out: seq<byte>)
    decreases v, 4
  {
    match kind
    case Plain(p) => PrimBytes(fl, p, v) == Ok(out)
    case Enum(e) => out == VarintBytes(I64AsU64(EnumNumber(e, v)))
    case Message(meta) => exists inner :: EncodesMessage(fl, meta.byName, v, inner) && out == LenDelimited(inner)
  }

  ghost predicate EncodesScalar(fl: Floats, number: u32, kind: Kind, v: Value, out: seq<byte>)
    decreases v, 5
  {
    var tag := TagBytes(number, WireTypeFor(kind));
    tag <= out && EncodesBody(fl, kind, v, out[|tag|..])
  }

  ghost predicate EncodesItems(fl: Floats, number: u32, kind: Kind, parent: Value, items: seq<Value>, out: seq<byte>)
    requires forall i :: 0 <= i < |items| ==> items[i] < parent
    decreases parent, 6, |items|
  {
    if items == [] then out == []
    else
      var last := |items| - 1;
      exists cut: nat | cut <= |out| ::
        EncodesItems(fl, number, kind, parent, items[..last], out[..cut])
        && EncodesScalar(fl, number, kind, items[last], out[cut..])
  }

  ghost predicate EncodesEntry(fl: Floats, number: u32, keyKind: ProtoKind, kind: Kind, k: MapKey, v: Value, out: seq<byte>)
    decreases v, 6
  {
    KeyBytes(keyKind, k).Ok? &&
    exists value :: EncodesScalar(fl, 2, kind, v, value)
      && out == TagBytes(number, Len) + LenDelimited(KeyBytes(keyKind, k).value + value)
  }

  ghost predicate EncodesEntries(fl: Floats, number: u32, keyKind: ProtoKind, kind: Kind,
                                 parent: Value, entries: map<MapKey, Value>, out: seq<byte>)
    requires forall k :: k in entries ==> entries[k] < parent
    decreases parent, 6, |entries|
  {
    if entries == map[] then out == []
    else
      exists k, cut: nat | k in entries && cut <= |out| ::
        EncodesEntries(fl, number, keyKind, kind, parent, entries - {k}, out[..cut])
        && EncodesEntry(fl, number, keyKind, kind, k, entries[k], out[cut..])
  }

  ghost predicate EncodesField(fl: Floats, field: InputField, v: Value, out: seq<byte>)
    decreases v, 7
  {
    field.number != 0 &&
    match field.shape
    case Single(kind) => EncodesScalar(fl, field.number, kind, v, out)
    case List(kind) => v.Array? && EncodesItems(fl, field.number, kind, v, v.items, out)
    case MapOf(keyKind, kind) =>
      if v.Object? then EncodesEntries(fl, field.number, keyKind, kind, v, TextEntries(v.fields), out)
      else v.Map? && EncodesEntries(fl, field.number, keyKind, kind, v, v.entries, out)
  }

  ghost predicate EncodesFields(fl: Floats, byName: map<Str, InputField>, parent: Value, fields: map<Str, Value>, out: seq<byte>)
    requires forall name :: name in fields ==> fields[name] < parent
    decreases parent, 2, |fields|
  {
    if fields == map[] then out == []
    else
      exists name, cut: nat | name in fields && name in byName && cut <= |out| ::
        EncodesFields(fl, byName, parent, fields - {name}, out[..cut])
        && EncodesField(fl, byName[name], fields[name], out[cut..])
  }

  ghost predicate EncodesMessage(fl: Floats, byName: map<Str, InputField>, v: Value, out: seq<byte>)
    decreases v, 3
  {
    if v.Object? then EncodesFields(fl, byName, v, v.fields, out)
    else v.Map? && AllText(v.entries) && EncodesFields(fl, byName, v, TextFields(v.entries), out)
  }

  // ---------------------------------------------------- which values encode

  ghost predicate EncodableBody(fl: Floats, kind: Kind, v: Value)
    decreases v, 4
  {
    match kind
    case Plain(p) => PrimBytes(fl, p, v).Ok?
    case Enum(_) => true
    case Message(meta) => EncodableMessage(fl, meta.byName, v)
  }

  ghost predicate EncodableField(fl: Floats, field: InputField, v: Value)
    decreases v, 5
  {
    field.number != 0 &&
    match field.shape
    case Single(kind) => EncodableBody(fl, kind, v)
    case List(kind) => v.Array? && forall i :: 0 <= i < |v.items| ==> EncodableBody(fl, kind, v.items[i])
    case MapOf(keyKind, kind) =>
      || (v.Object? && forall s :: s in v.fields ==> KeyBytes(keyKind, KeyString(s)).Ok? && EncodableBody(fl, kind, v.fields[s]))
      || (v.Map? && forall k :: k in v.entries ==> KeyBytes(keyKind, k).Ok? && EncodableBody(fl, kind, v.entries[k]))
  }

  /** The error cases: not an object, a field the schema lacks, a key that is not text, a bad field. */
  ghost predicate EncodableMessage(fl: Floats, byName: map<Str, InputField>, v: Value)
    decreases v, 3
  {
    || (v.Object? && forall s :: s in v.fields ==> s in byName && EncodableField(fl, byName[s], v.fields[s]))
    || (v.Map? && forall k :: k in v.entries ==>
          k.KeyString? && k.text in byName && EncodableField(fl, byName[k.text], v.entries[k]))
  }

  // ------------------------------------------------------------- the encoder

  method EncodePrim(fl: Floats, p: Prim, value: Value, out: Buffer) returns (r: Result<(), WireError>)
    modifies out
    ensures match PrimBytes(fl, p, value)
            case Ok(bs) => r == Ok(()) && out.data == old(out.data) + bs
            case Err(e) => r == Err(e) && out.data == old(out.data)
  {
    match p {
      case BoolT =>
        WriteVarint(if ToBool(value) then 1 else 0, out);
      case StringT =>
        WriteLenDelimited(ToStringLossy(fl, value), out);
      case BytesT =>
        WriteLenDelimited(ToBytesLossy(value), out);
      case Int32T | Int64T =>
        var n :- ToI64(fl, value);
        WriteVarint(I64AsU64(n), out);
      case Uint32T | Uint64T =>
        var n :- ToU64(fl, value);
        WriteVarint(n, out);
      case Sint32T | Sint64T =>
        var n :- ToI64(fl, value);
        WriteVarint(EncodeZigzag(n), out);
      case Fixed32T =>
        var n :- ToU64(fl, value);
        out.data := out.data + LeBytes(U64AsU32(n), 4);
      case Sfixed32T =>
        var n :- ToI64(fl, value);
        out.data := out.data + LeBytes(I32AsU32(I64AsI32(n)), 4);
      case FloatT =>
        var f :- ToF64(fl, value);
        out.data := out.data + LeBytes(fl.narrow(f), 4);
      case Fixed64T =>
        var n :- ToU64(fl, value);
        out.data := out.data + LeBytes(n, 8);
      case Sfixed64T =>
        var n :- ToI64(fl, value);
        out.data := out.data + LeBytes(I64AsU64(n), 8);
      case DoubleT =>
        var f :- ToF64(fl, value);
        out.data := out.data + LeBytes(f, 8);
    }
    r := Ok(());
  }

  method EncodeScalarField(fl: Floats, number: u32, kind: Kind, value: Value, out: Buffer)
    returns (r: Result<(), WireError>)
    modifies out
    ensures old(out.data) <= out.data
    ensures r.Ok? <==> EncodableBody(fl, kind, value)
    ensures r.Ok? ==> EncodesScalar(fl, number, kind, value, out.data[|old(out.data)|..])
    decreases value, 5
  {
    hide TagBytes, LenDelimited, VarintBytes, PrimBytes, EncodesMessage, EncodableMessage;
    ghost var start := out.data;
    WriteTag(number, WireTypeFor(kind), out);
    ghost var tag := TagBytes(number, WireTypeFor(kind));
    match kind {
      case Plain(p) =>
        var _ :- EncodePrim(fl, p, value, out);
      case Enum(e) =>
        var n := match value
          case String(s) => if s in e.numberOf then e.numberOf[s] else 0
          case I64(i) => i
          case U64(u) => U64AsI64(u)
          case _ => 0;
        WriteVarint(I64AsU64(n), out);
      case Message(meta) =>
        var inner := new Buffer([]);
        var _ :- EncodeMessage(fl, meta.byName, value, inner);
        assert inner.data[0..] == inner.data;
        WriteLenDelimited(inner.data, out);
        assert EncodesBody(fl, kind, value, LenDelimited(inner.data));
    }
    ghost var body := out.data[|start| + |tag|..];
    assert out.data == start + (tag + body);
    assert out.data[|start|..] == tag + body;
    assert (tag + body)[|tag|..] == body;
    r := Ok(());
  }

  method EncodeMapKey(kind: ProtoKind, key: MapKey, out: Buffer) returns (r: Result<(), WireError>)
    modifies out
    ensures match KeyBytes(kind, key)
            case Ok(bs) => r == Ok(()) && out.data == old(out.data) + bs
            case Err(e) => r == Err(e) && out.data == old(out.data)
  {
    hide TagBytes, LenDelimited, VarintBytes;
    if !kind.ProtoPrim? {
      return Err(UnsupportedKeyKind);
    }
    match kind.prim {
      case StringT =>
        if !key.KeyString? {
          return Err(InvalidKey);
        }
        WriteTag(1, Len, out);
        WriteLenDelimited(key.text, out);
      case BoolT =>
        if !key.KeyBool? {
          return Err(InvalidKey);
        }
        WriteTag(1, Varint, out);
        WriteVarint(if key.flag then 1 else 0, out);
      case Int32T | Sint32T | Sfixed32T | Int64T | Sint64T | Sfixed64T =>
        var n :- KeyToI64(key);
        WriteTag(1, Varint, out);
        WriteVarint(I64AsU64(n), out);
      case Uint32T | Fixed32T | Uint64T | Fixed64T =>
        var n :- KeyToU64(key);
        WriteTag(1, Varint, out);
        WriteVarint(n, out);
      case BytesT | FloatT | DoubleT =>
        return Err(UnsupportedKeyKind);
    }
    r := Ok(());
  }

  method EncodeMapEntry(fl: Floats, number: u32, keyKind: ProtoKind, kind: Kind, key: MapKey, value: Value, out: Buffer)
    returns (r: Result<(), WireError>)
    modifies out
    ensures old(out.data) <= out.data
    ensures r.Ok? <==> KeyBytes(keyKind, key).Ok? && EncodableBody(fl, kind, value)
    ensures r.Ok? ==> EncodesEntry(fl, number, keyKind, kind, key, value, out.data[|old(out.data)|..])
    decreases value, 6
  {
    hide EncodesScalar, EncodesBody, EncodableBody, EncodesEntry, KeyBytes, TagBytes, LenDelimited;
    ghost var start := out.data;
    var entry := new Buffer([]);
    var _ :- EncodeMapKey(keyKind, key, entry);
    ghost var keyBytes := entry.data;
    assert keyBytes == KeyBytes(keyKind, key).value;
    var _ :- EncodeScalarField(fl, 2, kind, value, entry);
    EntryWritten(fl, number, keyKind, kind, key, value, entry.data);
    WriteTag(number, Len, out);
    WriteLenDelimited(entry.data, out);
    assert out.data == start + (TagBytes(number, Len) + LenDelimited(entry.data));
    assert out.data[|start|..] == TagBytes(number, Len) + LenDelimited(entry.data);
    r := Ok(());
  }

  lemma EntryWritten(fl: Floats, number: u32, keyKind: ProtoKind, kind: Kind, k: MapKey, v: Value, entry: seq<byte>)
    requires KeyBytes(keyKind, k).Ok? && KeyBytes(keyKind, k).value <= entry
    requires EncodesScalar(fl, 2, kind, v, entry[|KeyBytes(keyKind, k).value|..])
    ensures EncodesEntry(fl, number, keyKind, kind, k, v, TagBytes(number, Len) + LenDelimited(entry))
  {
    hide EncodesScalar, KeyBytes, TagBytes, LenDelimited;
    var keyBytes := KeyBytes(keyKind, k).value;
    var value := entry[|keyBytes|..];
    assert entry == keyBytes + value;
  }

  /** The entry loop, over the map in any order. */
  method EncodeEntries(fl: Floats, number: u32, keyKind: ProtoKind, kind: Kind,
                       ghost parent: Value, entries: map<MapKey, Value>, out: Buffer)
    returns (r: Result<(), WireError>)
    requires forall k :: k in entries ==> entries[k] < parent
    modifies out
    ensures old(out.data) <= out.data
    ensures r.Ok? <==> forall k :: k in entries ==> KeyBytes(keyKind, k).Ok? && EncodableBody(fl, kind, entries[k])
    ensures r.Ok? ==> EncodesEntries(fl, number, keyKind, kind, parent, entries, out.data[|old(out.data)|..])
    decreases parent, 6
  {
    hide EncodesEntry, EncodableBody, KeyBytes;
    ghost var start := out.data;
    var todo := entries;
    ghost var done: map<MapKey, Value> := map[];
    while todo != map[]
      invariant start <= out.data
      invariant forall k :: k in todo ==> k in entries && todo[k] == entries[k]
      invariant forall k :: k in done ==> k in entries && done[k] == entries[k] && k !in todo
      invariant forall k :: k in entries ==> k in todo || k in done
      invariant forall k :: k in done ==> KeyBytes(keyKind, k).Ok? && EncodableBody(fl, kind, done[k])
      invariant EncodesEntries(fl, number, keyKind, kind, parent, done, out.data[|start|..])
      decreases |todo|
    {
      var k :| k in todo;
      ghost var before := out.data;
      var res := EncodeMapEntry(fl, number, keyKind, kind, k, todo[k], out);
      if res.Err? {
        return Err(res.error);
      }
      done := ExtendEntries(fl, number, keyKind, kind, parent, done, k, todo[k], start, before, out.data);
      todo := todo - {k};
    }
    assert done == entries;
    r := Ok(());
  }

  /** One more entry written behind those already written. */
  lemma ExtendEntries(fl: Floats, number: u32, keyKind: ProtoKind, kind: Kind, parent: Value, done: map<MapKey, Value>,
                      k: MapKey, v: Value, start: seq<byte>, before: seq<byte>, after: seq<byte>)
    returns (next: map<MapKey, Value>)
    requires (forall j :: j in done ==> done[j] < parent) && v < parent
    requires k !in done && start <= before <= after
    requires EncodesEntries(fl, number, keyKind, kind, parent, done, before[|start|..])
    requires EncodesEntry(fl, number, keyKind, kind, k, v, after[|before|..])
    ensures next == done[k := v]
    ensures forall j :: j in next ==> next[j] < parent
    ensures EncodesEntries(fl, number, keyKind, kind, parent, next, after[|start|..])
  {
    hide EncodesEntry;
    next := done[k := v];
    var cut := |before| - |start|;
    assert next - {k} == done;
    assert after[|start|..][..cut] == before[|start|..];
    assert after[|start|..][cut..] == after[|before|..];
  }

  method EncodeField(fl: Floats, shape: Shape, number: u32, value: Value, out: Buffer) returns (r: Result<(), WireError>)
    modifies out
    ensures old(out.data) <= out.data
    ensures r.Ok? <==> EncodableField(fl, InputField(number, shape), value)
    ensures r.Ok? ==> EncodesField(fl, InputField(number, shape), value, out.data[|old(out.data)|..])
    decreases value, 7
  {
    hide EncodesScalar, EncodableBody, EncodesEntries, EncodesEntry, KeyBytes;
    if number == 0 {
      return Err(FieldNumberZero);
    }
    ghost var start := out.data;
    match shape {
      case Single(kind) =>
        r := EncodeScalarField(fl, number, kind, value, out);
      case List(kind) =>
        if !value.Array? {
          return Err(NotAnArray);
        }
        for i := 0 to |value.items|
          invariant start <= out.data
          invariant forall j :: 0 <= j < i ==> EncodableBody(fl, kind, value.items[j])
          invariant EncodesItems(fl, number, kind, value, value.items[..i], out.data[|start|..])
        {
          ghost var before := out.data;
          var _ :- EncodeScalarField(fl, number, kind, value.items[i], out);
          ghost var cut := |before| - |start|;
          assert value.items[..i + 1][..i] == value.items[..i];
          assert out.data[|start|..][..cut] == before[|start|..];
          assert out.data[|start|..][cut..] == out.data[|before|..];
        }
        assert value.items[..|value.items|] == value.items;
        r := Ok(());
      case MapOf(keyKind, kind) =>
        if value.Object? {
          r := EncodeEntries(fl, number, keyKind, kind, value, TextEntries(value.fields), out);
        } else if value.Map? {
          r := EncodeEntries(fl, number, keyKind, kind, value, value.entries, out);
        } else {
          r := Err(NotAMapOrObject);
        }
    }
  }

  method EncodeMessage(fl: Floats, byName: map<Str, InputField>, value: Value, out: Buffer)
    returns (r: Result<(), WireError>)
    modifies out
    ensures old(out.data) <= out.data
    ensures r.Ok? <==> EncodableMessage(fl, byName, value)
    ensures r.Ok? ==> EncodesMessage(fl, byName, value, out.data[|old(out.data)|..])
    decreases value, 3
  {
    if value.Object? {
      r := EncodeObject(fl, byName, value, out);
    } else if value.Map? {
      r := EncodeTextMap(fl, byName, value, out);
    } else {
      r := Err(NotAMessage);
    }
  }

  lemma NothingWritten(fl: Floats, byName: map<Str, InputField>, parent: Value)
    ensures EncodesFields(fl, byName, parent, map[], [])
  {
  }

  /** The field loop over an object, in any order. */
  method EncodeObject(fl: Floats, byName: map<Str, InputField>, value: Value, out: Buffer)
    returns (r: Result<(), WireError>)
    requires value.Object?
    modifies out
    ensures old(out.data) <= out.data
    ensures r.Ok? <==> EncodableMessage(fl, byName, value)
    ensures r.Ok? ==> EncodesMessage(fl, byName, value, out.data[|old(out.data)|..])
    decreases value, 2
  {
    hide EncodesField, EncodableField, EncodesFields;
    NothingWritten(fl, byName, value);
    assert out.data[|out.data|..] == [];
    ghost var start := out.data;
    ghost var done: map<Str, Value> := map[];
    var todo := value.fields;
    while todo != map[]
      invariant start <= out.data
      invariant forall s :: s in todo ==> s in value.fields && todo[s] == value.fields[s]
      invariant forall s :: s in done ==> s in value.fields && done[s] == value.fields[s] && s !in todo
      invariant forall s :: s in value.fields ==> s in todo || s in done
      invariant forall s :: s in done ==> s in byName && EncodableField(fl, byName[s], done[s])
      invariant EncodesFields(fl, byName, value, done, out.data[|start|..])
      decreases |todo|
    {
      var name :| name in todo;
      if name !in byName {
        return Err(UnknownField);
      }
      ghost var before := out.data;
      var res := EncodeField(fl, byName[name].shape, byName[name].number, todo[name], out);
      if res.Err? {
        return Err(res.error);
      }
      done := ExtendFields(fl, byName, value, done, name, todo[name], start, before, out.data);
      todo := todo - {name};
    }
    assert done == value.fields;
    r := Ok(());
  }

  /** The field loop over a text-keyed map, in any order. */
  method EncodeTextMap(fl: Floats, byName: map<Str, InputField>, value: Value, out: Buffer)
    returns (r: Result<(), WireError>)
    requires value.Map?
    modifies out
    ensures old(out.data) <= out.data
    ensures r.Ok? <==> EncodableMessage(fl, byName, value)
    ensures r.Ok? ==> EncodesMessage(fl, byName, value, out.data[|old(out.data)|..])
    decreases value, 2
  {
    hide EncodesField, EncodableField, EncodesFields, TextFields, AllText;
    NothingWritten(fl, byName, value);
    assert out.data[|out.data|..] == [];
    ghost var start := out.data;
    ghost var done: map<Str, Value> := map[];
    var todo := value.entries;
    while todo != map[]
      invariant start <= out.data
      invariant forall k :: k in todo ==> k in value.entries && todo[k] == value.entries[k]
      invariant forall k :: k in value.entries ==> k in todo || (k.KeyString? && k.text in done)
      invariant forall s :: s in done ==> KeyString(s) in value.entries && KeyString(s) !in todo
                                          && done[s] == value.entries[KeyString(s)]
      invariant forall s :: s in done ==> s in byName && EncodableField(fl, byName[s], done[s])
      invariant EncodesFields(fl, byName, value, done, out.data[|start|..])
      decreases |todo|
    {
      var k :| k in todo;
      if !k.KeyString? {
        return Err(NotAMessage);
      }
      if k.text !in byName {
        return Err(UnknownField);
      }
      ghost var before := out.data;
      var res := EncodeField(fl, byName[k.text].shape, byName[k.text].number, todo[k], out);
      if res.Err? {
        return Err(res.error);
      }
      done := ExtendFields(fl, byName, value, done, k.text, todo[k], start, before, out.data);
      todo := todo - {k};
    }
    AllTextWritten(value.entries, done);
    r := Ok(());
  }

  lemma AllTextWritten(entries: map<MapKey, Value>, done: map<Str, Value>)
    requires forall k :: k in entries ==> k.KeyString? && k.text in done
    requires forall s :: s in done ==> KeyString(s) in entries && done[s] == entries[KeyString(s)]
    ensures AllText(entries) && done == TextFields(entries)
  {
  }

  lemma FieldsOneMore(fl: Floats, byName: map<Str, InputField>, parent: Value, fields: map<Str, Value>,
                      name: Str, out: seq<byte>, cut: nat)
    requires (forall s :: s in fields ==> fields[s] < parent) && name in fields && name in byName && cut <= |out|
    requires EncodesFields(fl, byName, parent, fields - {name}, out[..cut])
    requires EncodesField(fl, byName[name], fields[name], out[cut..])
    ensures EncodesFields(fl, byName, parent, fields, out)
  {
    hide EncodesField;
  }

  /** One more field written behind those already written. */
  lemma ExtendFields(fl: Floats, byName: map<Str, InputField>, parent: Value, done: map<Str, Value>,
                     name: Str, v: Value, start: seq<byte>, before: seq<byte>, after: seq<byte>)
    returns (next: map<Str, Value>)
    requires (forall s :: s in done ==> done[s] < parent) && v < parent
    requires name !in done && name in byName && start <= before <= after
    requires EncodesFields(fl, byName, parent, done, before[|start|..])
    requires EncodesField(fl, byName[name], v, after[|before|..])
    ensures next == done[name := v]
    ensures forall s :: s in next ==> next[s] < parent
    ensures EncodesFields(fl, byName, parent, next, after[|start|..])
  {
    hide EncodesField, EncodesFields;
    next := done[name := v];
    var cut := |before| - |start|;
    assert next - {name} == done;
    assert after[|start|..][..cut] == before[|start|..];
    assert after[|start|..][cut..] == after[|before|..];
    FieldsOneMore(fl, byName, parent, next, name, after[|start|..], cut);
  }
}
