/** The decoder: from wire bytes to dynamic values. */
module Decoding {
  import opened Wrappers
  import opened Words
  import opened Values
  import opened Primitives
  import opened Schema

  type Decoded<+T> = Result<(T, seq<byte>), WireError>

  // ------------------------------------------------------- meaning: scalars

  function DecodePrim(fl: Floats, p: Prim, wt: WireType, src: seq<byte>): (r: Decoded<Value>)
    ensures r.Ok? ==> |r.value.1| < |src|
  {
    if wt != WireTypeFor(Plain(p)) then Err(WireTypeMismatch)
    else
      match p
      case BoolT => (var (n, rest) :- TakeVarint(src); Ok((Bool(n != 0), rest)))
      case StringT =>
        (var (b, rest) :- TakeLenDelimited(src);
         Ok((if ValidUtf8(b) then String(b) else String([]), rest)))
      case BytesT => (var (b, rest) :- TakeLenDelimited(src); Ok((Bytes(b), rest)))
      case Int32T | Int64T => (var (n, rest) :- TakeVarint(src); Ok((I64(U64AsI64(n)), rest)))
      case Uint32T | Uint64T => (var (n, rest) :- TakeVarint(src); Ok((U64(n), rest)))
      case Sint32T | Sint64T => (var (n, rest) :- TakeVarint(src); Ok((I64(DecodeZigzag(n)), rest)))
      case Fixed32T => LeWidths(); (var (n, rest) :- TakeFixed(src, 4); Ok((U64(n), rest)))
      case Sfixed32T => LeWidths(); (var (n, rest) :- TakeFixed(src, 4); Ok((I64(U32AsI32(n)), rest)))
      case FloatT => LeWidths(); (var (n, rest) :- TakeFixed(src, 4); Ok((F64(fl.widen(n)), rest)))
      case Fixed64T => LeWidths(); (var (n, rest) :- TakeFixed(src, 8); Ok((U64(n), rest)))
      case Sfixed64T => LeWidths(); (var (n, rest) :- TakeFixed(src, 8); Ok((I64(U64AsI64(n)), rest)))
      case DoubleT => LeWidths(); (var (n, rest) :- TakeFixed(src, 8); Ok((F64(n), rest)))
  }

  function EnumValue(e: EnumDesc, n: i32): Value {
    if n in e.nameOf then String(e.nameOf[n]) else I64(n)
  }

  function DecodeValue(fl: Floats, kind: Kind, wt: WireType, src: seq<byte>): (r: Decoded<Value>)
    ensures r.Ok? ==> |r.value.1| < |src|
    decreases |src|, 0
  {
    match kind
    case Plain(p) => DecodePrim(fl, p, wt, src)
    case Enum(e) =>
      if wt != Varint then Err(WireTypeMismatch)
      else
        var (n, rest) :- TakeVarint(src);
        Ok((EnumValue(e, U64AsI32(n)), rest))
    case Message(meta) =>
      if wt != Len then Err(WireTypeMismatch)
      else
        var (body, rest) :- TakeLenDelimited(src);
        var fields :- DecodeFrom(fl, meta.byNumber, body, map[]);
        Ok((Object(fields), rest))
  }

  // -------------------------------------------------------- meaning: packed

  predicate Packable(kind: Kind) {
    match kind
    case Plain(p) => p != StringT && p != BytesT
    case Enum(_) => true
    case Message(_) => false
  }

  /** One element of a packed record; enum elements stay numbers. */
  function PackedItem(fl: Floats, kind: Kind, src: seq<byte>): (r: Decoded<Value>)
    ensures r.Ok? ==> |r.value.1| < |src|
  {
    match kind
    case Message(_) => Err(NotPackable)
    case Enum(_) => (var (n, rest) :- TakeVarint(src); Ok((I64(U64AsI64(n)), rest)))
    case Plain(p) =>
      match p
      case StringT | BytesT => Err(NotPackable)
      case BoolT => (var (n, rest) :- TakeVarint(src); Ok((Bool(n != 0), rest)))
      case Int32T | Int64T => (var (n, rest) :- TakeVarint(src); Ok((I64(U64AsI64(n)), rest)))
      case Sint32T | Sint64T => (var (n, rest) :- TakeVarint(src); Ok((I64(DecodeZigzag(n)), rest)))
      case Uint32T | Uint64T => (var (n, rest) :- TakeVarint(src); Ok((U64(n), rest)))
      case Fixed32T => LeWidths(); (var (n, rest) :- TakeFixed(src, 4); Ok((U64(n), rest)))
      case Sfixed32T => LeWidths(); (var (n, rest) :- TakeFixed(src, 4); Ok((I64(U32AsI32(n)), rest)))
      case FloatT => LeWidths(); (var (n, rest) :- TakeFixed(src, 4); Ok((F64(fl.widen(n)), rest)))
      case Fixed64T => LeWidths(); (var (n, rest) :- TakeFixed(src, 8); Ok((U64(n), rest)))
      case Sfixed64T => LeWidths(); (var (n, rest) :- TakeFixed(src, 8); Ok((I64(U64AsI64(n)), rest)))
      case DoubleT => LeWidths(); (var (n, rest) :- TakeFixed(src, 8); Ok((F64(n), rest)))
  }

  function DecodePacked(fl: Floats, kind: Kind, src: seq<byte>): Result<seq<Value>, WireError>
    decreases |src|
  {
    if !Packable(kind) then Err(NotPackable)
    else if src == [] then Ok([])
    else
      var (v, rest) :- PackedItem(fl, kind, src);
      var vs :- DecodePacked(fl, kind, rest);
      Ok([v] + vs)
  }

  // ----------------------------------------------------------- meaning: maps

  function DecodeKey(kind: ProtoKind, wt: WireType, src: seq<byte>): (r: Decoded<MapKey>)
    ensures r.Ok? ==> |r.value.1| < |src|
  {
    match kind
    case ProtoEnum(_) => Err(UnsupportedKeyKind)
    case ProtoMessage(_) => Err(UnsupportedKeyKind)
    case ProtoPrim(p) =>
      match p
      case StringT =>
        if wt != Len then Err(WireTypeMismatch)
        else (var (b, rest) :- TakeLenDelimited(src);
              if ValidUtf8(b) then Ok((KeyString(b), rest)) else Err(InvalidUtf8Key))
      case BoolT =>
        if wt != Varint then Err(WireTypeMismatch)
        else (var (n, rest) :- TakeVarint(src); Ok((KeyBool(n != 0), rest)))
      case Int32T | Sint32T | Sfixed32T | Int64T | Sint64T | Sfixed64T =>
        if wt != Varint then Err(WireTypeMismatch)
        else (var (n, rest) :- TakeVarint(src); Ok((KeyI64(U64AsI64(n)), rest)))
      case Uint32T | Fixed32T | Uint64T | Fixed64T =>
        if wt != Varint then Err(WireTypeMismatch)
        else (var (n, rest) :- TakeVarint(src); Ok((KeyU64(n), rest)))
      case BytesT | FloatT | DoubleT => Err(UnsupportedKeyKind)
  }

  /** A map entry is read record by record; the last key and the last value win, and both must appear. */
  function EntryFrom(fl: Floats, keyKind: ProtoKind, kind: Kind, src: seq<byte>,
                     key: Option<MapKey>, value: Option<Value>): Result<(MapKey, Value), WireError>
    decreases |src|, 1
  {
    if src == [] then
      if key.None? then Err(MissingKey) else if value.None? then Err(MissingValue) else Ok((key.value, value.value))
    else
      var (number, wt, body) :- TakeTag(src);
      if number == 1 then
        var (k, rest) :- DecodeKey(keyKind, wt, body);
        EntryFrom(fl, keyKind, kind, rest, Some(k), value)
      else if number == 2 then
        var (v, rest) :- DecodeValue(fl, kind, wt, body);
        EntryFrom(fl, keyKind, kind, rest, key, Some(v))
      else
        var rest :- Skip(wt, body);
        EntryFrom(fl, keyKind, kind, rest, key, value)
  }

  function DecodeEntry(fl: Floats, keyKind: ProtoKind, kind: Kind, src: seq<byte>): Result<(MapKey, Value), WireError>
    decreases |src|, 2
  {
    EntryFrom(fl, keyKind, kind, src, None, None)
  }

  // --------------------------------------------------- the records of an entry

  datatype Part = KeyPart(key: MapKey) | ValuePart(value: Value) | OtherPart

  /** `src` is these records one after the other: each a tag and bytes that its number's decoder, or a skip, takes up. */
  ghost predicate Records(fl: Floats, keyKind: ProtoKind, kind: Kind, src: seq<byte>, parts: seq<Part>)
    decreases |parts|
  {
    if parts == [] then src == []
    else
      src != [] && TakeTag(src).Ok? &&
      var (number, wt, body) := TakeTag(src).value;
      match parts[0]
      case KeyPart(k) =>
        number == 1 && DecodeKey(keyKind, wt, body).Ok? &&
        var (read, rest) := DecodeKey(keyKind, wt, body).value;
        read == k && Records(fl, keyKind, kind, rest, parts[1..])
      case ValuePart(v) =>
        number == 2 && DecodeValue(fl, kind, wt, body).Ok? &&
        var (read, rest) := DecodeValue(fl, kind, wt, body).value;
        read == v && Records(fl, keyKind, kind, rest, parts[1..])
      case OtherPart =>
        number != 1 && number != 2 && Skip(wt, body).Ok? && Records(fl, keyKind, kind, Skip(wt, body).value, parts[1..])
  }

  /** The key of the last record that holds one. */
  function LastKey(parts: seq<Part>): Option<MapKey> {
    if parts == [] then None
    else if parts[|parts| - 1].KeyPart? then Some(parts[|parts| - 1].key)
    else LastKey(parts[..|parts| - 1])
  }

  function LastValue(parts: seq<Part>): Option<Value> {
    if parts == [] then None
    else if parts[|parts| - 1].ValuePart? then Some(parts[|parts| - 1].value)
    else LastValue(parts[..|parts| - 1])
  }

  /** What becomes of an entry of these records: its last key with its last value, neither of which may be missing. */
  predicate EntryRead(parts: seq<Part>, r: Result<(MapKey, Value), WireError>) {
    match LastKey(parts)
    case None => r == Err(MissingKey)
    case Some(k) =>
      match LastValue(parts)
      case None => r == Err(MissingValue)
      case Some(v) => r == Ok((k, v))
  }

  /** The last key behind a first record is the last key there is, or the first record's. */
  lemma {:induction false} LastBehind(parts: seq<Part>)
    requires parts != []
    ensures LastKey(parts) == if LastKey(parts[1..]).Some? then LastKey(parts[1..])
                              else if parts[0].KeyPart? then Some(parts[0].key) else None
    ensures LastValue(parts) == if LastValue(parts[1..]).Some? then LastValue(parts[1..])
                                else if parts[0].ValuePart? then Some(parts[0].value) else None
    decreases |parts|
  {
    var last := |parts| - 1;
    if last == 0 {
      assert parts[1..] == [] && parts[..0] == [];
    } else {
      LastBehind(parts[..last]);
      assert parts[..last][1..] == parts[1..][..last - 1];
      assert parts[1..][last - 1] == parts[last];
    }
  }

  /** One record of an entry read. */
  lemma EntryStep(fl: Floats, keyKind: ProtoKind, kind: Kind, src: seq<byte>, parts: seq<Part>,
                  key: Option<MapKey>, value: Option<Value>) returns (rest: seq<byte>)
    requires Records(fl, keyKind, kind, src, parts) && parts != []
    ensures Records(fl, keyKind, kind, rest, parts[1..])
    ensures EntryFrom(fl, keyKind, kind, src, key, value) ==
            EntryFrom(fl, keyKind, kind, rest, if parts[0].KeyPart? then Some(parts[0].key) else key,
                      if parts[0].ValuePart? then Some(parts[0].value) else value)
  {
    hide TakeTag, DecodeKey, DecodeValue, Skip;
    var (number, wt, body) := TakeTag(src).value;
    match parts[0]
    case KeyPart(_) => rest := DecodeKey(keyKind, wt, body).value.1;
    case ValuePart(_) => rest := DecodeValue(fl, kind, wt, body).value.1;
    case OtherPart => rest := Skip(wt, body).value;
  }

  lemma {:induction false} EntryFromRecords(fl: Floats, keyKind: ProtoKind, kind: Kind, src: seq<byte>, parts: seq<Part>,
                                            key: Option<MapKey>, value: Option<Value>)
    requires Records(fl, keyKind, kind, src, parts)
    ensures var k := if LastKey(parts).Some? then LastKey(parts) else key;
            var v := if LastValue(parts).Some? then LastValue(parts) else value;
            EntryFrom(fl, keyKind, kind, src, key, value) ==
            if k.None? then Err(MissingKey) else if v.None? then Err(MissingValue) else Ok((k.value, v.value))
    decreases |parts|
  {
    hide LastKey, LastValue;
    if parts == [] {
      NothingLast();
    } else {
      hide Records, EntryFrom;
      LastBehind(parts);
      var rest := EntryStep(fl, keyKind, kind, src, parts, key, value);
      EntryFromRecords(fl, keyKind, kind, rest, parts[1..], if parts[0].KeyPart? then Some(parts[0].key) else key,
                       if parts[0].ValuePart? then Some(parts[0].value) else value);
    }
  }

  lemma NothingLast()
    ensures LastKey([]) == None && LastValue([]) == None
  {
  }

  lemma {:induction false} EntryHasRecords(fl: Floats, keyKind: ProtoKind, kind: Kind, src: seq<byte>,
                                           key: Option<MapKey>, value: Option<Value>) returns (parts: seq<Part>)
    requires EntryFrom(fl, keyKind, kind, src, key, value).Ok?
    ensures Records(fl, keyKind, kind, src, parts)
    decreases |src|
  {
    hide TakeTag, DecodeKey, DecodeValue, Skip;
    if src == [] {
      return [];
    }
    var (number, wt, body) := TakeTag(src).value;
    var first: Part, rest: seq<byte>, k: Option<MapKey>, v: Option<Value> := OtherPart, body, key, value;
    if number == 1 {
      var read := DecodeKey(keyKind, wt, body).value;
      first, rest, k := KeyPart(read.0), read.1, Some(read.0);
    } else if number == 2 {
      var read := DecodeValue(fl, kind, wt, body).value;
      first, rest, v := ValuePart(read.0), read.1, Some(read.0);
    } else {
      rest := Skip(wt, body).value;
    }
    var behind := EntryHasRecords(fl, keyKind, kind, rest, k, v);
    parts := [first] + behind;
    assert parts[1..] == behind;
  }

  /** An entry of well-formed records is read as its last key and value; bytes that are no such records fail. */
  lemma EntryIsItsRecords(fl: Floats, keyKind: ProtoKind, kind: Kind, src: seq<byte>)
    ensures forall parts :: Records(fl, keyKind, kind, src, parts) ==> EntryRead(parts, DecodeEntry(fl, keyKind, kind, src))
    ensures (forall parts :: !Records(fl, keyKind, kind, src, parts)) ==> DecodeEntry(fl, keyKind, kind, src).Err?
  {
    hide Records;
    forall parts | Records(fl, keyKind, kind, src, parts)
      ensures EntryRead(parts, DecodeEntry(fl, keyKind, kind, src))
    {
      EntryFromRecords(fl, keyKind, kind, src, parts, None, None);
    }
    if DecodeEntry(fl, keyKind, kind, src).Ok? {
      var parts := EntryHasRecords(fl, keyKind, kind, src, None, None);
    }
  }

  // ------------------------------------------------------- meaning: messages

  /** What one record adds to the message being read. */
  datatype Piece =
    | Ignored
    | Entry(name: Str, key: MapKey, value: Value)
    | Occurrence(name: Str, shape: Shape, value: Value)

  function DecodeList(fl: Floats, kind: Kind, wt: WireType, src: seq<byte>): (r: Decoded<Value>)
    ensures r.Ok? ==> |r.value.1| < |src| && r.value.0.Array?
    decreases |src|, 1
  {
    if wt == Len && Packable(kind) then
      var (body, rest) :- TakeLenDelimited(src);
      var items :- DecodePacked(fl, kind, body);
      Ok((Array(items), rest))
    else
      var (v, rest) :- DecodeValue(fl, kind, wt, src);
      Ok((Array([v]), rest))
  }

  /** The value of one record of a field; map fields never come this way. */
  function DecodeField(fl: Floats, shape: Shape, wt: WireType, src: seq<byte>): (r: Decoded<Value>)
    ensures r.Ok? ==> |r.value.1| < |src| && !shape.MapOf? && (shape.List? ==> r.value.0.Array?)
    decreases |src|, 2
  {
    match shape
    case Single(kind) => DecodeValue(fl, kind, wt, src)
    case List(kind) => DecodeList(fl, kind, wt, src)
    case MapOf(_, _) => Err(MapViaEntryPath)
  }

  function TakeRecord(fl: Floats, byNumber: map<u32, (Str, Shape)>, src: seq<byte>): (r: Decoded<Piece>)
    ensures r.Ok? ==> |r.value.1| < |src|
    decreases |src|, 3
  {
    var (number, wt, body) :- TakeTag(src);
    if number !in byNumber then
      var rest :- Skip(wt, body);
      Ok((Ignored, rest))
    else
      var (name, shape) := byNumber[number];
      if shape.MapOf? then
        if wt != Len then Err(WireTypeMismatch)
        else
          var (entry, rest) :- TakeLenDelimited(body);
          var (k, v) :- DecodeEntry(fl, shape.keyKind, shape.kind, entry);
          Ok((Entry(name, k, v), rest))
      else
        var (v, rest) :- DecodeField(fl, shape, wt, body);
        Ok((Occurrence(name, shape, v), rest))
  }

  /** How a decoded occurrence joins what the field already holds, repair branches included. */
  function MergeOccurrence(acc: map<Str, Value>, name: Str, shape: Shape, v: Value): Result<map<Str, Value>, WireError> {
    match shape
    case Single(_) => Ok(acc[name := v])
    case List(_) =>
      var added := if v.Array? then v.items else [v];
      if name !in acc then Ok(acc[name := Array(added)])
      else if acc[name].Array? then Ok(acc[name := Array(acc[name].items + added)])
      else Ok(acc[name := Array([acc[name]] + added)])
    case MapOf(_, _) =>
      if !v.Map? then Err(MapNotMap)
      else if name in acc && acc[name].Map? then Ok(acc[name := Map(acc[name].entries + v.entries)])
      else Ok(acc[name := v])
  }

  /** A single value replaces, list items are appended, map entries united; what has another form gives way or comes first. */
  lemma OccurrenceJoins(acc: map<Str, Value>, name: Str, shape: Shape, v: Value)
    ensures shape.Single? ==> MergeOccurrence(acc, name, shape, v) == Ok(acc[name := v])
    ensures shape.List? ==>
              var had := if name !in acc then [] else if acc[name].Array? then acc[name].items else [acc[name]];
              MergeOccurrence(acc, name, shape, v) == Ok(acc[name := Array(had + if v.Array? then v.items else [v])])
    ensures shape.MapOf? ==>
              var had := if name in acc && acc[name].Map? then acc[name].entries else map[];
              MergeOccurrence(acc, name, shape, v) == if v.Map? then Ok(acc[name := Map(had + v.entries)]) else Err(MapNotMap)
    ensures forall k :: InsertEntry(acc, name, k, v) ==
              acc[name := Map((if name in acc && acc[name].Map? then acc[name].entries else map[])[k := v])]
  {
    var added := if v.Array? then v.items else [v];
    assert [] + added == added;
    assert v.Map? ==> map[] + v.entries == v.entries;
  }

  function InsertEntry(acc: map<Str, Value>, name: Str, k: MapKey, v: Value): map<Str, Value> {
    if name in acc && acc[name].Map? then acc[name := Map(acc[name].entries[k := v])]
    else acc[name := Map(map[k := v])]
  }

  function Absorb(acc: map<Str, Value>, piece: Piece): Result<map<Str, Value>, WireError> {
    match piece
    case Ignored => Ok(acc)
    case Entry(name, k, v) => Ok(InsertEntry(acc, name, k, v))
    case Occurrence(name, shape, v) => MergeOccurrence(acc, name, shape, v)
  }

  /** Read records to the end of `src`, starting from the fields already in `acc`. */
  function DecodeFrom(fl: Floats, byNumber: map<u32, (Str, Shape)>, src: seq<byte>, acc: map<Str, Value>)
    : Result<map<Str, Value>, WireError>
    decreases |src|, 4
  {
    if src == [] then Ok(acc)
    else
      var (piece, rest) :- TakeRecord(fl, byNumber, src);
      var next :- Absorb(acc, piece);
      DecodeFrom(fl, byNumber, rest, next)
  }

  function DecodeMessage(fl: Floats, byNumber: map<u32, (Str, Shape)>, src: seq<byte>): Result<Value, WireError> {
    var fields :- DecodeFrom(fl, byNumber, src, map[]);
    Ok(Object(fields))
  }

  // ------------------------------------------------------------- the decoder

  /** The object under construction; the decoder updates it in place. */
  class ObjectBuilder {
    var fields: map<Str, Value>

    constructor ()
      ensures fields == map[]
    {
      fields := map[];
    }
  }

  method DecodeScalarValue(fl: Floats, kind: Kind, wt: WireType, src: Buffer) returns (r: Result<Value, WireError>)
    modifies src
    ensures match DecodeValue(fl, kind, wt, old(src.data))
            case Ok(t) => r == Ok(t.0) && src.data == t.1
            case Err(e) => r == Err(e)
    decreases |src.data|, 0
  {
    match kind {
      case Plain(p) =>
        r := DecodePrimValue(fl, p, wt, src);
      case Enum(e) =>
        if wt != Varint {
          return Err(WireTypeMismatch);
        }
        var n :- ReadVarint(src);
        var i := U64AsI32(n);
        r := Ok(if i in e.nameOf then String(e.nameOf[i]) else I64(i));
      case Message(meta) =>
        if wt != Len {
          return Err(WireTypeMismatch);
        }
        var body :- ReadLenDelimited(src);
        r := DecodeMessageBody(fl, meta.byNumber, body);
    }
  }

  method DecodePrimValue(fl: Floats, p: Prim, wt: WireType, src: Buffer) returns (r: Result<Value, WireError>)
    modifies src
    ensures match DecodePrim(fl, p, wt, old(src.data))
            case Ok(t) => r == Ok(t.0) && src.data == t.1
            case Err(e) => r == Err(e)
  {
    LeWidths();
    if wt != WireTypeFor(Plain(p)) {
      return Err(WireTypeMismatch);
    }
    match p {
      case BoolT =>
        var n :- ReadVarint(src);
        r := Ok(Bool(n != 0));
      case StringT =>
        var b :- ReadLenDelimited(src);
        r := Ok(if ValidUtf8(b) then String(b) else String([]));
      case BytesT =>
        var b :- ReadLenDelimited(src);
        r := Ok(Bytes(b));
      case Int32T | Int64T =>
        var n :- ReadVarint(src);
        r := Ok(I64(U64AsI64(n)));
      case Uint32T | Uint64T =>
        var n :- ReadVarint(src);
        r := Ok(U64(n));
      case Sint32T | Sint64T =>
        var n :- ReadVarint(src);
        r := Ok(I64(DecodeZigzag(n)));
      case Fixed32T =>
        var n :- ReadFixed(src, 4);
        r := Ok(U64(n));
      case Sfixed32T =>
        var n :- ReadFixed(src, 4);
        r := Ok(I64(U32AsI32(n)));
      case FloatT =>
        var n :- ReadFixed(src, 4);
        r := Ok(F64(fl.widen(n)));
      case Fixed64T =>
        var n :- ReadFixed(src, 8);
        r := Ok(U64(n));
      case Sfixed64T =>
        var n :- ReadFixed(src, 8);
        r := Ok(I64(U64AsI64(n)));
      case DoubleT =>
        var n :- ReadFixed(src, 8);
        r := Ok(F64(n));
    }
  }

  /** One element of a packed record, read off the front of `src`. */
  method ReadPackedItem(fl: Floats, kind: Kind, src: Buffer) returns (r: Result<Value, WireError>)
    requires Packable(kind)
    modifies src
    ensures match PackedItem(fl, kind, old(src.data))
            case Ok(t) => r == Ok(t.0) && src.data == t.1
            case Err(e) => r == Err(e)
  {
    LeWidths();
    if kind.Enum? {
      var n :- ReadVarint(src);
      return Ok(I64(U64AsI64(n)));
    }
    match kind.prim {
      case BoolT =>
        var n :- ReadVarint(src);
        r := Ok(Bool(n != 0));
      case Int32T | Int64T =>
        var n :- ReadVarint(src);
        r := Ok(I64(U64AsI64(n)));
      case Sint32T | Sint64T =>
        var n :- ReadVarint(src);
        r := Ok(I64(DecodeZigzag(n)));
      case Uint32T | Uint64T =>
        var n :- ReadVarint(src);
        r := Ok(U64(n));
      case Fixed32T =>
        var n :- ReadFixed(src, 4);
        r := Ok(U64(n));
      case Sfixed32T =>
        var n :- ReadFixed(src, 4);
        r := Ok(I64(U32AsI32(n)));
      case FloatT =>
        var n :- ReadFixed(src, 4);
        r := Ok(F64(fl.widen(n)));
      case Fixed64T =>
        var n :- ReadFixed(src, 8);
        r := Ok(U64(n));
      case Sfixed64T =>
        var n :- ReadFixed(src, 8);
        r := Ok(I64(U64AsI64(n)));
      case DoubleT =>
        var n :- ReadFixed(src, 8);
        r := Ok(F64(n));
    }
  }

  method DecodePackedValues(fl: Floats, kind: Kind, body: seq<byte>) returns (r: Result<seq<Value>, WireError>)
    ensures r == DecodePacked(fl, kind, body)
  {
    if !Packable(kind) {
      return Err(NotPackable);
    }
    var src := new Buffer(body);
    var out: seq<Value> := [];
    assert forall vs: seq<Value> :: out + vs == vs;
    while |src.data| > 0
      invariant DecodePacked(fl, kind, body) ==
                match DecodePacked(fl, kind, src.data) { case Ok(vs) => Ok(out + vs) case Err(e) => Err(e) }
      decreases |src.data|
    {
      var v :- ReadPackedItem(fl, kind, src);
      assert forall vs: seq<Value> :: (out + [v]) + vs == out + ([v] + vs);
      out := out + [v];
    }
    assert out + [] == out;
    r := Ok(out);
  }

  method DecodeMapKey(kind: ProtoKind, wt: WireType, src: Buffer) returns (r: Result<MapKey, WireError>)
    modifies src
    ensures match DecodeKey(kind, wt, old(src.data))
            case Ok(t) => r == Ok(t.0) && src.data == t.1
            case Err(e) => r == Err(e)
  {
    if !kind.ProtoPrim? {
      return Err(UnsupportedKeyKind);
    }
    match kind.prim {
      case StringT =>
        if wt != Len {
          return Err(WireTypeMismatch);
        }
        var b :- ReadLenDelimited(src);
        if !ValidUtf8(b) {
          return Err(InvalidUtf8Key);
        }
        r := Ok(KeyString(b));
      case BoolT =>
        if wt != Varint {
          return Err(WireTypeMismatch);
        }
        var n :- ReadVarint(src);
        r := Ok(KeyBool(n != 0));
      case Int32T | Sint32T | Sfixed32T | Int64T | Sint64T | Sfixed64T =>
        if wt != Varint {
          return Err(WireTypeMismatch);
        }
        var n :- ReadVarint(src);
        r := Ok(KeyI64(U64AsI64(n)));
      case Uint32T | Fixed32T | Uint64T | Fixed64T =>
        if wt != Varint {
          return Err(WireTypeMismatch);
        }
        var n :- ReadVarint(src);
        r := Ok(KeyU64(n));
      case BytesT | FloatT | DoubleT =>
        r := Err(UnsupportedKeyKind);
    }
  }

  method DecodeMapEntry(fl: Floats, keyKind: ProtoKind, kind: Kind, body: seq<byte>)
    returns (r: Result<(MapKey, Value), WireError>)
    ensures r == DecodeEntry(fl, keyKind, kind, body)
    ensures forall parts :: Records(fl, keyKind, kind, body, parts) ==> EntryRead(parts, r)
    ensures (forall parts :: !Records(fl, keyKind, kind, body, parts)) ==> r.Err?
    decreases |body|, 1
  {
    EntryIsItsRecords(fl, keyKind, kind, body);
    var src := new Buffer(body);
    var key: Option<MapKey> := None;
    var value: Option<Value> := None;
    while |src.data| > 0
      invariant |src.data| <= |body|
      invariant DecodeEntry(fl, keyKind, kind, body) == EntryFrom(fl, keyKind, kind, src.data, key, value)
      decreases |src.data|
    {
      var head :- ReadTag(src);
      var (number, wt) := head;
      if number == 1 {
        var k :- DecodeMapKey(keyKind, wt, src);
        key := Some(k);
      } else if number == 2 {
        var v :- DecodeScalarValue(fl, kind, wt, src);
        value := Some(v);
      } else {
        var _ :- SkipValue(wt, src);
      }
    }
    if key.None? {
      return Err(MissingKey);
    }
    if value.None? {
      return Err(MissingValue);
    }
    r := Ok((key.value, value.value));
  }

  /** Read one map entry record and put it into the map field under construction. */
  method DecodeMapEntryIntoObject(fl: Floats, out: ObjectBuilder, name: Str, keyKind: ProtoKind, kind: Kind,
                                  wt: WireType, src: Buffer) returns (r: Result<(), WireError>)
    modifies src, out
    ensures r == (if wt != Len then Err(WireTypeMismatch)
                  else match TakeLenDelimited(old(src.data))
                       case Err(e) => Err(e)
                       case Ok(t) => match DecodeEntry(fl, keyKind, kind, t.0)
                                     case Err(e) => Err(e)
                                     case Ok(_) => Ok(()))
    ensures r.Ok? ==>
              var (entry, rest) := TakeLenDelimited(old(src.data)).value;
              var (k, v) := DecodeEntry(fl, keyKind, kind, entry).value;
              src.data == rest && out.fields == InsertEntry(old(out.fields), name, k, v)
    decreases |src.data|, 0
  {
    if wt != Len {
      return Err(WireTypeMismatch);
    }
    var body :- ReadLenDelimited(src);
    var entry :- DecodeMapEntry(fl, keyKind, kind, body);
    var (k, v) := entry;
    if name !in out.fields {
      out.fields := out.fields[name := Map(map[k := v])];
    } else if out.fields[name].Map? {
      out.fields := out.fields[name := Map(out.fields[name].entries[k := v])];
    } else {
      out.fields := out.fields[name := Map(map[k := v])];
    }
    r := Ok(());
  }

  method MergeDecodedField(out: ObjectBuilder, name: Str, shape: Shape, v: Value) returns (r: Result<(), WireError>)
    modifies out
    ensures match MergeOccurrence(old(out.fields), name, shape, v)
            case Ok(fields) => r == Ok(()) && out.fields == fields
            case Err(e) => r == Err(e) && out.fields == old(out.fields)
  {
    match shape {
      case Single(_) =>
        out.fields := out.fields[name := v];
      case List(_) =>
        if name !in out.fields {
          if v.Array? {
            out.fields := out.fields[name := Array(v.items)];
          } else {
            out.fields := out.fields[name := Array([v])];
          }
        } else if out.fields[name].Array? {
          var existing := out.fields[name].items;
          if v.Array? {
            out.fields := out.fields[name := Array(existing + v.items)];
          } else {
            out.fields := out.fields[name := Array(existing + [v])];
          }
        } else {
          var prev := out.fields[name];
          if v.Array? {
            out.fields := out.fields[name := Array([prev] + v.items)];
          } else {
            assert [prev, v] == [prev] + [v];
            out.fields := out.fields[name := Array([prev, v])];
          }
        }
      case MapOf(_, _) =>
        if !v.Map? {
          return Err(MapNotMap);
        }
        if name in out.fields && out.fields[name].Map? {
          out.fields := out.fields[name := Map(out.fields[name].entries + v.entries)];
        } else {
          out.fields := out.fields[name := Map(v.entries)];
        }
    }
    r := Ok(());
  }

  method DecodeFieldValue(fl: Floats, shape: Shape, wt: WireType, src: Buffer) returns (r: Result<Value, WireError>)
    modifies src
    ensures match DecodeField(fl, shape, wt, old(src.data))
            case Ok(t) => r == Ok(t.0) && src.data == t.1
            case Err(e) => r == Err(e)
    decreases |src.data|, 1
  {
    if shape.MapOf? {
      return Err(MapViaEntryPath);
    }
    if shape.Single? {
      r := DecodeScalarValue(fl, shape.kind, wt, src);
    } else if wt == Len && Packable(shape.kind) {
      var body :- ReadLenDelimited(src);
      var items :- DecodePackedValues(fl, shape.kind, body);
      r := Ok(Array(items));
    } else {
      var v :- DecodeScalarValue(fl, shape.kind, wt, src);
      r := Ok(Array([v]));
    }
  }

  /** The record loop shared by the method-level and the nested decoder. */
  method DecodeMessageBody(fl: Floats, byNumber: map<u32, (Str, Shape)>, body: seq<byte>)
    returns (r: Result<Value, WireError>)
    ensures r == DecodeMessage(fl, byNumber, body)
    decreases |body|, 2
  {
    var src := new Buffer(body);
    var out := new ObjectBuilder();
    while |src.data| > 0
      invariant |src.data| <= |body|
      invariant DecodeFrom(fl, byNumber, body, map[]) == DecodeFrom(fl, byNumber, src.data, out.fields)
      decreases |src.data|
    {
      var head :- ReadTag(src);
      var (number, wt) := head;
      if number !in byNumber {
        var _ :- SkipValue(wt, src);
      } else {
        var (name, shape) := byNumber[number];
        if shape.MapOf? {
          var _ :- DecodeMapEntryIntoObject(fl, out, name, shape.keyKind, shape.kind, wt, src);
        } else {
          var v :- DecodeFieldValue(fl, shape, wt, src);
          var _ :- MergeDecodedField(out, name, shape, v);
        }
      }
    }
    r := Ok(Object(out.fields));
  }
}
