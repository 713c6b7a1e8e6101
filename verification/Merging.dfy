/** How decoding treats concatenation, unknown fields, older schemas and packed lists. */
module Merging {
  import opened Wrappers
  import opened Words
  import opened Values
  import opened Primitives
  import opened Schema
  import opened Decoding

  // ----------------------------------------------------------------- locality

  lemma DecodePrimLocal(fl: Floats, p: Prim, wt: WireType, src: seq<byte>, t: seq<byte>)
    requires DecodePrim(fl, p, wt, src).Ok?
    ensures DecodePrim(fl, p, wt, src + t)
         == Ok((DecodePrim(fl, p, wt, src).value.0, DecodePrim(fl, p, wt, src).value.1 + t))
  {
    match wt {
      case Varint => TakeVarintLocal(src, t);
      case Len => TakeLenDelimitedLocal(src, t);
      case SixtyFourBit => TakeFixedLocal(src, 8, t);
      case ThirtyTwoBit => TakeFixedLocal(src, 4, t);
    }
  }

  lemma DecodeValueLocal(fl: Floats, kind: Kind, wt: WireType, src: seq<byte>, t: seq<byte>)
    requires DecodeValue(fl, kind, wt, src).Ok?
    ensures DecodeValue(fl, kind, wt, src + t)
         == Ok((DecodeValue(fl, kind, wt, src).value.0, DecodeValue(fl, kind, wt, src).value.1 + t))
  {
    match kind {
      case Plain(p) => DecodePrimLocal(fl, p, wt, src, t);
      case Enum(_) => TakeVarintLocal(src, t);
      case Message(_) => TakeLenDelimitedLocal(src, t);
    }
  }

  lemma DecodeFieldLocal(fl: Floats, shape: Shape, wt: WireType, src: seq<byte>, t: seq<byte>)
    requires DecodeField(fl, shape, wt, src).Ok?
    ensures DecodeField(fl, shape, wt, src + t)
         == Ok((DecodeField(fl, shape, wt, src).value.0, DecodeField(fl, shape, wt, src).value.1 + t))
  {
    match shape {
      case Single(kind) =>
        DecodeValueLocal(fl, kind, wt, src, t);
      case List(kind) =>
        assert DecodeList(fl, kind, wt, src).Ok?;
        if wt == Len && Packable(kind) {
          TakeLenDelimitedLocal(src, t);
        } else {
          DecodeValueLocal(fl, kind, wt, src, t);
        }
    }
  }

  lemma TakeRecordLocal(fl: Floats, byNumber: map<u32, (Str, Shape)>, src: seq<byte>, t: seq<byte>)
    requires TakeRecord(fl, byNumber, src).Ok?
    ensures TakeRecord(fl, byNumber, src + t)
         == Ok((TakeRecord(fl, byNumber, src).value.0, TakeRecord(fl, byNumber, src).value.1 + t))
  {
    TakeTagLocal(src, t);
    var (number, wt, body) := TakeTag(src).value;
    if number !in byNumber {
      SkipLocal(wt, body, t);
    } else if byNumber[number].1.MapOf? {
      TakeLenDelimitedLocal(body, t);
    } else {
      DecodeFieldLocal(fl, byNumber[number].1, wt, body, t);
    }
  }

  /** Once a prefix has been read, the rest is read from the fields it left. */
  lemma {:induction false} DecodePrefix(fl: Floats, byNumber: map<u32, (Str, Shape)>,
                                        a: seq<byte>, b: seq<byte>, acc: map<Str, Value>)
    requires DecodeFrom(fl, byNumber, a, acc).Ok?
    ensures DecodeFrom(fl, byNumber, a + b, acc) == DecodeFrom(fl, byNumber, b, DecodeFrom(fl, byNumber, a, acc).value)
    decreases |a|
  {
    if a == [] {
      assert a + b == b;
    } else {
      var (piece, rest) := TakeRecord(fl, byNumber, a).value;
      TakeRecordLocal(fl, byNumber, a, b);
      DecodePrefix(fl, byNumber, rest, b, Absorb(acc, piece).value);
    }
  }

  // -------------------------------------------------- concatenation is merging

  /** Every number reads into a field of the shape its name has. */
  ghost predicate Agrees(byNumber: map<u32, (Str, Shape)>, shapes: map<Str, Shape>) {
    forall n :: n in byNumber ==> byNumber[n].0 in shapes && shapes[byNumber[n].0] == byNumber[n].1
  }

  function Shapes(meta: Meta): map<Str, Shape> {
    map name | name in meta.byName :: meta.byName[name].shape
  }

  ghost predicate FitsShape(shape: Shape, v: Value) {
    match shape
    case Single(_) => true
    case List(_) => v.Array?
    case MapOf(_, _) => v.Map?
  }

  ghost predicate WellShaped(shapes: map<Str, Shape>, fields: map<Str, Value>) {
    forall name :: name in fields ==> name in shapes && FitsShape(shapes[name], fields[name])
  }

  /** Last value wins, lists append, maps unite with the right side winning. */
  function MergeField(shape: Shape, a: Value, b: Value): Value {
    match shape
    case Single(_) => b
    case List(_) => if a.Array? && b.Array? then Array(a.items + b.items) else b
    case MapOf(_, _) => if a.Map? && b.Map? then Map(a.entries + b.entries) else b
  }

  function MergeObjects(shapes: map<Str, Shape>, a: map<Str, Value>, b: map<Str, Value>): map<Str, Value> {
    map name | name in a.Keys + b.Keys ::
      if name !in b then a[name]
      else if name !in a || name !in shapes then b[name]
      else MergeField(shapes[name], a[name], b[name])
  }

  ghost predicate PieceFits(shapes: map<Str, Shape>, piece: Piece) {
    match piece
    case Ignored => true
    case Entry(name, _, _) => name in shapes && shapes[name].MapOf?
    case Occurrence(name, shape, v) => name in shapes && shapes[name] == shape && !shape.MapOf? && FitsShape(shape, v)
  }

  lemma RecordFits(fl: Floats, byNumber: map<u32, (Str, Shape)>, shapes: map<Str, Shape>, src: seq<byte>)
    requires Agrees(byNumber, shapes) && TakeRecord(fl, byNumber, src).Ok?
    ensures PieceFits(shapes, TakeRecord(fl, byNumber, src).value.0)
  {
  }

  lemma MergeOne(shapes: map<Str, Shape>, acc: map<Str, Value>, name: Str, v: Value)
    requires name in shapes
    ensures MergeObjects(shapes, acc, map[name := v])
         == acc[name := if name in acc then MergeField(shapes[name], acc[name], v) else v]
  {
    hide MergeField;
  }

  /** Absorbing a record is merging in the object that record alone decodes to; no repair branch fires. */
  lemma AbsorbIsMerge(shapes: map<Str, Shape>, acc: map<Str, Value>, piece: Piece)
    requires PieceFits(shapes, piece) && WellShaped(shapes, acc)
    ensures Absorb(map[], piece).Ok? && WellShaped(shapes, Absorb(map[], piece).value)
    ensures Absorb(acc, piece) == Ok(MergeObjects(shapes, acc, Absorb(map[], piece).value))
    ensures WellShaped(shapes, Absorb(acc, piece).value)
  {
    hide MergeObjects;
    match piece {
      case Ignored =>
        MergeEmpty(shapes, acc);
      case Entry(name, k, v) =>
        assert Absorb(map[], piece).value == map[name := Map(map[k := v])];
        MergeOne(shapes, acc, name, Map(map[k := v]));
        if name in acc {
          assert acc[name].entries[k := v] == acc[name].entries + map[k := v];
        }
      case Occurrence(name, shape, v) =>
        assert v.Array? ==> Array(v.items) == v;
        assert Absorb(map[], piece).value == map[name := v];
        MergeOne(shapes, acc, name, v);
    }
  }

  lemma MergeFieldAssociative(shape: Shape, x: Value, y: Value, z: Value)
    requires FitsShape(shape, x) && FitsShape(shape, y) && FitsShape(shape, z)
    ensures MergeField(shape, MergeField(shape, x, y), z) == MergeField(shape, x, MergeField(shape, y, z))
  {
    match shape {
      case Single(_) =>
      case List(_) => assert (x.items + y.items) + z.items == x.items + (y.items + z.items);
      case MapOf(_, _) => assert (x.entries + y.entries) + z.entries == x.entries + (y.entries + z.entries);
    }
  }

  lemma MergeAssociative(shapes: map<Str, Shape>, a: map<Str, Value>, b: map<Str, Value>, c: map<Str, Value>)
    requires WellShaped(shapes, a) && WellShaped(shapes, b) && WellShaped(shapes, c)
    ensures MergeObjects(shapes, MergeObjects(shapes, a, b), c) == MergeObjects(shapes, a, MergeObjects(shapes, b, c))
  {
    var left := MergeObjects(shapes, MergeObjects(shapes, a, b), c);
    var right := MergeObjects(shapes, a, MergeObjects(shapes, b, c));
    assert left.Keys == right.Keys;
    forall name | name in left
      ensures left[name] == right[name]
    {
      if name in a && name in b && name in c {
        MergeFieldAssociative(shapes[name], a[name], b[name], c[name]);
      }
    }
  }

  lemma MergeWellShaped(shapes: map<Str, Shape>, a: map<Str, Value>, b: map<Str, Value>)
    requires WellShaped(shapes, a) && WellShaped(shapes, b)
    ensures WellShaped(shapes, MergeObjects(shapes, a, b))
  {
  }

  lemma MergeEmpty(shapes: map<Str, Shape>, a: map<Str, Value>)
    ensures MergeObjects(shapes, a, map[]) == a
    ensures MergeObjects(shapes, map[], a) == a
  {
  }

  /** Starting from earlier fields is merging them with what the bytes alone decode to. */
  lemma {:induction false} DecodeFromIsMerge(fl: Floats, byNumber: map<u32, (Str, Shape)>, shapes: map<Str, Shape>,
                                             src: seq<byte>, acc: map<Str, Value>)
    requires Agrees(byNumber, shapes) && WellShaped(shapes, acc)
    ensures match DecodeFrom(fl, byNumber, src, map[])
            case Err(e) => DecodeFrom(fl, byNumber, src, acc) == Err(e)
            case Ok(fields) =>
              WellShaped(shapes, fields) && DecodeFrom(fl, byNumber, src, acc) == Ok(MergeObjects(shapes, acc, fields))
    decreases |src|
  {
    hide TakeRecord, Absorb, MergeObjects, PieceFits;
    if src == [] {
      MergeEmpty(shapes, acc);
    } else if TakeRecord(fl, byNumber, src).Ok? {
      var (piece, rest) := TakeRecord(fl, byNumber, src).value;
      RecordFits(fl, byNumber, shapes, src);
      AbsorbIsMerge(shapes, acc, piece);
      var one := Absorb(map[], piece).value;
      var next := Absorb(acc, piece).value;
      DecodeFromIsMerge(fl, byNumber, shapes, rest, one);
      DecodeFromIsMerge(fl, byNumber, shapes, rest, next);
      if DecodeFrom(fl, byNumber, rest, map[]).Ok? {
        var tail := DecodeFrom(fl, byNumber, rest, map[]).value;
        MergeAssociative(shapes, acc, one, tail);
        MergeWellShaped(shapes, one, tail);
      }
    }
  }

  lemma AgreesForMeta(meta: Meta)
    requires GoodMeta(meta)
    ensures Agrees(meta.byNumber, Shapes(meta))
  {
    forall n | n in meta.byNumber
      ensures meta.byNumber[n].0 in Shapes(meta) && Shapes(meta)[meta.byNumber[n].0] == meta.byNumber[n].1
    {
      assert meta.byName[meta.byNumber[n].0] == InputField(n, meta.byNumber[n].1);
    }
  }

  /** When `a` decodes, `a + b` decodes exactly when `b` does, to the merge of the two. */
  lemma ConcatenationMerges(fl: Floats, meta: Meta, a: seq<byte>, b: seq<byte>)
    requires GoodMeta(meta)
    requires DecodeMessage(fl, meta.byNumber, a).Ok?
    ensures match DecodeMessage(fl, meta.byNumber, b)
            case Err(e) => DecodeMessage(fl, meta.byNumber, a + b) == Err(e)
            case Ok(vb) =>
              var va := DecodeMessage(fl, meta.byNumber, a).value;
              && va.Object? && vb.Object? && WellShaped(Shapes(meta), va.fields) && WellShaped(Shapes(meta), vb.fields)
              && DecodeMessage(fl, meta.byNumber, a + b) == Ok(Object(MergeObjects(Shapes(meta), va.fields, vb.fields)))
  {
    AgreesForMeta(meta);
    var shapes := Shapes(meta);
    DecodeFromIsMerge(fl, meta.byNumber, shapes, a, map[]);
    DecodePrefix(fl, meta.byNumber, a, b, map[]);
    DecodeFromIsMerge(fl, meta.byNumber, shapes, b, DecodeFrom(fl, meta.byNumber, a, map[]).value);
  }

  /** Field by field: what only one part holds stays; of both, the later scalar or submessage, both lists, or the united maps. */
  ghost predicate JoinedFields(shapes: map<Str, Shape>, a: map<Str, Value>, b: map<Str, Value>, both: map<Str, Value>) {
    && both.Keys == a.Keys + b.Keys
    && (forall name :: name in a && name !in b ==> both[name] == a[name])
    && (forall name :: name in b && name !in a ==> both[name] == b[name])
    && forall name :: name in a && name in b && name in shapes ==>
         match shapes[name]
         case Single(_) => both[name] == b[name]
         case List(_) => a[name].Array? && b[name].Array? && both[name] == Array(a[name].items + b[name].items)
         case MapOf(_, _) => a[name].Map? && b[name].Map? && both[name] == Map(a[name].entries + b[name].entries)
  }

  /** The fields of a message sent in two parts. */
  lemma ConcatenationJoins(fl: Floats, meta: Meta, a: seq<byte>, b: seq<byte>)
    requires GoodMeta(meta) && DecodeMessage(fl, meta.byNumber, a).Ok? && DecodeMessage(fl, meta.byNumber, b).Ok?
    ensures DecodeMessage(fl, meta.byNumber, a + b).Ok?
    ensures var va, vb := DecodeMessage(fl, meta.byNumber, a).value, DecodeMessage(fl, meta.byNumber, b).value;
            var v := DecodeMessage(fl, meta.byNumber, a + b).value;
            && va.Object? && vb.Object? && v.Object?
            && (forall name :: name in va.fields || name in vb.fields ==> name in meta.byName)
            && JoinedFields(map name | name in meta.byName :: meta.byName[name].shape, va.fields, vb.fields, v.fields)
  {
    hide GoodMeta;
    ConcatenationMerges(fl, meta, a, b);
  }

  // -------------------------------------------------------------- packed records

  lemma OneMoreRepeated(fl: Floats, kind: Kind, src: seq<byte>, v: Value, rest: seq<byte>, vs: seq<Value>)
    requires DecodeValue(fl, kind, WireTypeFor(kind), src) == Ok((v, rest)) && DecodeRepeated(fl, kind, rest) == Ok(vs)
    ensures DecodeRepeated(fl, kind, src) == Ok([v] + vs)
  {
    hide DecodeValue, WireTypeFor;
  }

  lemma {:induction false} RepeatedItems(fl: Floats, kind: Kind, bodies: seq<seq<byte>>, items: seq<Value>)
    requires |bodies| == |items|
    requires forall i :: 0 <= i < |items| ==> DecodeValue(fl, kind, WireTypeFor(kind), bodies[i]) == Ok((items[i], []))
    ensures DecodeRepeated(fl, kind, JoinFront(bodies)) == Ok(items)
    decreases |bodies|
  {
    hide DecodeValue, WireTypeFor;
    if bodies != [] {
      var rest := JoinFront(bodies[1..]);
      assert forall i :: 0 <= i < |items| - 1 ==> bodies[1..][i] == bodies[i + 1] && items[1..][i] == items[i + 1];
      RepeatedItems(fl, kind, bodies[1..], items[1..]);
      DecodeValueLocal(fl, kind, WireTypeFor(kind), bodies[0], rest);
      assert [] + rest == rest;
      OneMoreRepeated(fl, kind, bodies[0] + rest, items[0], rest, items[1..]);
      assert items == [items[0]] + items[1..];
    }
  }

  function JoinFront(chunks: seq<seq<byte>>): seq<byte> {
    if chunks == [] then [] else chunks[0] + JoinFront(chunks[1..])
  }

  lemma PackedRead(fl: Floats, byNumber: map<u32, (Str, Shape)>, number: u32, body: seq<byte>, rest: seq<byte>, items: seq<Value>)
    requires number in byNumber && byNumber[number].1.List? && Packable(byNumber[number].1.kind) && |body| < TWO_64
    requires DecodePacked(fl, byNumber[number].1.kind, body) == Ok(items)
    ensures TakeRecord(fl, byNumber, TagBytes(number, Len) + LenDelimited(body) + rest)
         == Ok((Occurrence(byNumber[number].0, byNumber[number].1, Array(items)), rest))
  {
    hide TagBytes, LenDelimited, TakeTag, TakeLenDelimited, DecodePacked;
    var (name, shape) := byNumber[number];
    TagRoundTrip(number, Len, LenDelimited(body) + rest);
    LenDelimitedRoundTrip(body, rest);
    assert TagBytes(number, Len) + LenDelimited(body) + rest == TagBytes(number, Len) + (LenDelimited(body) + rest);
    assert DecodeField(fl, shape, Len, LenDelimited(body) + rest) == Ok((Array(items), rest));
  }

  /** One length-delimited record of a packable list field, enums aside, holds exactly the items laid end to end in it. */
  lemma PackedRecordRead(fl: Floats, byNumber: map<u32, (Str, Shape)>, number: u32, bodies: seq<seq<byte>>, items: seq<Value>,
                         rest: seq<byte>)
    requires number in byNumber && byNumber[number].1.List? && !byNumber[number].1.kind.Enum? && Packable(byNumber[number].1.kind)
    requires |bodies| == |items| && |JoinFront(bodies)| < TWO_64
    requires forall i :: 0 <= i < |items| ==>
               DecodeValue(fl, byNumber[number].1.kind, WireTypeFor(byNumber[number].1.kind), bodies[i]) == Ok((items[i], []))
    ensures TakeRecord(fl, byNumber, TagBytes(number, Len) + LenDelimited(JoinFront(bodies)) + rest)
         == Ok((Occurrence(byNumber[number].0, byNumber[number].1, Array(items)), rest))
  {
    hide TagBytes, LenDelimited, TakeTag, TakeRecord, DecodePacked, DecodeRepeated, DecodeValue, JoinFront;
    var body := JoinFront(bodies);
    RepeatedItems(fl, byNumber[number].1.kind, bodies, items);
    PackedIsRepeated(fl, byNumber[number].1.kind, body);
    PackedRead(fl, byNumber, number, body, rest, items);
  }

  /** An enum list's packed record holds its numbers, unnamed and uncut. */
  lemma PackedEnumsRead(fl: Floats, byNumber: map<u32, (Str, Shape)>, number: u32, ns: seq<u64>, rest: seq<byte>)
    requires number in byNumber && byNumber[number].1.List? && byNumber[number].1.kind.Enum?
    requires |Varints(ns)| < TWO_64
    ensures exists items: seq<Value> ::
              && TakeRecord(fl, byNumber, TagBytes(number, Len) + LenDelimited(Varints(ns)) + rest)
                 == Ok((Occurrence(byNumber[number].0, byNumber[number].1, Array(items)), rest))
              && |items| == |ns|
              && forall i :: 0 <= i < |ns| ==> items[i].I64? && (ns[i] - items[i].signed) % 0x1_0000_0000_0000_0000 == 0
  {
    hide TagBytes, LenDelimited, TakeTag, TakeRecord, DecodePacked, Varints;
    var body := Varints(ns);
    var items := VarintsUnpack(fl, byNumber[number].1.kind, ns);
    PackedRead(fl, byNumber, number, body, rest, items);
  }

  function Varints(ns: seq<u64>): seq<byte> {
    if ns == [] then [] else VarintBytes(ns[0]) + Varints(ns[1..])
  }

  lemma {:induction false} VarintsUnpack(fl: Floats, kind: Kind, ns: seq<u64>) returns (items: seq<Value>)
    requires kind.Enum?
    ensures DecodePacked(fl, kind, Varints(ns)) == Ok(items) && |items| == |ns|
    ensures forall i :: 0 <= i < |ns| ==> items[i].I64? && (ns[i] - items[i].signed) % 0x1_0000_0000_0000_0000 == 0
    decreases |ns|
  {
    hide VarintBytes, TakeVarint;
    if ns == [] {
      return [];
    }
    var more := VarintsUnpack(fl, kind, ns[1..]);
    VarintRoundTrip(ns[0], Varints(ns[1..]));
    var first := I64(U64AsI64(ns[0]));
    items := [first] + more;
    assert (ns[0] - first.signed) % 0x1_0000_0000_0000_0000 == 0;
    assert PackedItem(fl, kind, Varints(ns)) == Ok((first, Varints(ns[1..])));
    hide U64AsI64, PackedItem;
    assert forall i :: 1 <= i < |ns| ==> items[i] == more[i - 1] && ns[i] == ns[1..][i - 1];
  }

  // --------------------------------------------------------------- map entries

  /** A map field's record holding an entry of well-formed records adds its last key with its last value, or fails. */
  lemma EntryRecordRead(fl: Floats, byNumber: map<u32, (Str, Shape)>, number: u32, entry: seq<byte>, rest: seq<byte>,
                        parts: seq<Part>, r: Result<(MapKey, Value), WireError>)
    requires number in byNumber && byNumber[number].1.MapOf? && |entry| < TWO_64
    requires Records(fl, byNumber[number].1.keyKind, byNumber[number].1.kind, entry, parts) && EntryRead(parts, r)
    ensures TakeRecord(fl, byNumber, TagBytes(number, Len) + LenDelimited(entry) + rest) ==
            match r case Ok((k, v)) => Ok((Entry(byNumber[number].0, k, v), rest)) case Err(e) => Err(e)
  {
    hide TagBytes, LenDelimited, Records, DecodeEntry, TakeTag, TakeLenDelimited;
    TagRoundTrip(number, Len, LenDelimited(entry) + rest);
    LenDelimitedRoundTrip(entry, rest);
    assert TagBytes(number, Len) + LenDelimited(entry) + rest == TagBytes(number, Len) + (LenDelimited(entry) + rest);
    EntryIsItsRecords(fl, byNumber[number].1.keyKind, byNumber[number].1.kind, entry);
    assert EntryRead(parts, DecodeEntry(fl, byNumber[number].1.keyKind, byNumber[number].1.kind, entry));
  }

  // ----------------------------------------------------------- unknown fields

  lemma SkipPassesPrim(fl: Floats, p: Prim, wt: WireType, src: seq<byte>)
    ensures DecodePrim(fl, p, wt, src).Ok? ==> Skip(wt, src) == Ok(DecodePrim(fl, p, wt, src).value.1)
  {
  }

  /** Skipping a field of some wire type passes over exactly the bytes that decoding it would. */
  lemma SkipPassesDecoded(fl: Floats, kind: Kind, keyKind: ProtoKind, wt: WireType, src: seq<byte>)
    ensures DecodeValue(fl, kind, wt, src).Ok? ==> Skip(wt, src) == Ok(DecodeValue(fl, kind, wt, src).value.1)
    ensures DecodeList(fl, kind, wt, src).Ok? ==> Skip(wt, src) == Ok(DecodeList(fl, kind, wt, src).value.1)
    ensures DecodeKey(keyKind, wt, src).Ok? ==> Skip(wt, src) == Ok(DecodeKey(keyKind, wt, src).value.1)
  {
    hide DecodePrim, TakeVarint, TakeLenDelimited, TakeFixed, DecodeFrom, DecodePacked;
    if kind.Plain? {
      SkipPassesPrim(fl, kind.prim, wt, src);
    }
  }

  lemma SkipPassesField(fl: Floats, shape: Shape, wt: WireType, src: seq<byte>)
    ensures DecodeField(fl, shape, wt, src).Ok? ==> Skip(wt, src) == Ok(DecodeField(fl, shape, wt, src).value.1)
  {
    if !shape.MapOf? {
      SkipPassesDecoded(fl, shape.kind, ProtoPrim(BoolT), wt, src);
    }
  }

  /** A run of well-formed records, none of whose numbers the schema knows. */
  ghost predicate AllUnknown(fl: Floats, byNumber: map<u32, (Str, Shape)>, u: seq<byte>)
    decreases |u|
  {
    u == [] ||
    (TakeRecord(fl, byNumber, u).Ok? && TakeRecord(fl, byNumber, u).value.0.Ignored?
     && AllUnknown(fl, byNumber, TakeRecord(fl, byNumber, u).value.1))
  }

  lemma {:induction false} UnknownIgnored(fl: Floats, byNumber: map<u32, (Str, Shape)>, u: seq<byte>, acc: map<Str, Value>)
    requires AllUnknown(fl, byNumber, u)
    ensures DecodeFrom(fl, byNumber, u, acc) == Ok(acc)
    decreases |u|
  {
    if u != [] {
      UnknownIgnored(fl, byNumber, TakeRecord(fl, byNumber, u).value.1, acc);
    }
  }

  /** Unknown records between two records change nothing. */
  lemma UnknownTransparent(fl: Floats, byNumber: map<u32, (Str, Shape)>, a: seq<byte>, u: seq<byte>, b: seq<byte>)
    requires DecodeMessage(fl, byNumber, a).Ok? && AllUnknown(fl, byNumber, u)
    ensures DecodeMessage(fl, byNumber, a + (u + b)) == DecodeMessage(fl, byNumber, a + b)
  {
    var fields := DecodeFrom(fl, byNumber, a, map[]).value;
    DecodePrefix(fl, byNumber, a, b, map[]);
    DecodePrefix(fl, byNumber, a, u + b, map[]);
    UnknownPrefix(fl, byNumber, u, b, fields);
  }

  lemma UnknownPrefix(fl: Floats, byNumber: map<u32, (Str, Shape)>, u: seq<byte>, b: seq<byte>, acc: map<Str, Value>)
    requires AllUnknown(fl, byNumber, u)
    ensures DecodeFrom(fl, byNumber, u + b, acc) == DecodeFrom(fl, byNumber, b, acc)
  {
    UnknownIgnored(fl, byNumber, u, acc);
    DecodePrefix(fl, byNumber, u, b, acc);
  }

  /** Any tag with an unknown number followed by bytes its wire type spans is such a record. */
  lemma UnknownRecord(fl: Floats, byNumber: map<u32, (Str, Shape)>, number: u32, wt: WireType, payload: seq<byte>)
    requires number !in byNumber && (number != 0 || wt != Varint) && Skip(wt, payload) == Ok([])
    ensures AllUnknown(fl, byNumber, TagBytes(number, wt) + payload)
  {
    TagRoundTrip(number, wt, payload);
  }

  function Names(byNumber: map<u32, (Str, Shape)>): set<Str> {
    set n | n in byNumber :: byNumber[n].0
  }

  function Only(fields: map<Str, Value>, names: set<Str>): map<Str, Value> {
    map name | name in fields && name in names :: fields[name]
  }

  lemma OnlyUpdate(acc: map<Str, Value>, name: Str, v: Value, names: set<Str>)
    requires name in names
    ensures Only(acc[name := v], names) == Only(acc, names)[name := v]
    ensures name in Only(acc, names) <==> name in acc
  {
  }

  lemma AbsorbOther(acc: map<Str, Value>, piece: Piece, names: set<Str>)
    requires Absorb(acc, piece).Ok? && (piece.Ignored? || piece.name !in names)
    ensures Only(Absorb(acc, piece).value, names) == Only(acc, names)
  {
    if !piece.Ignored? {
      assert Absorb(acc, piece).value == acc[piece.name := Absorb(acc, piece).value[piece.name]];
    }
  }

  lemma AbsorbOnly(acc: map<Str, Value>, piece: Piece, names: set<Str>)
    requires Absorb(acc, piece).Ok?
    requires piece.Ignored? || piece.name in names
    ensures Absorb(Only(acc, names), piece) == Ok(Only(Absorb(acc, piece).value, names))
  {
    if !piece.Ignored? {
      var name := piece.name;
      var v := Absorb(acc, piece).value[name];
      OnlyUpdate(acc, name, v, names);
      assert name in acc ==> Only(acc, names)[name] == acc[name];
      assert Absorb(acc, piece).value == acc[name := v];
      hide Only;
      assert Absorb(Only(acc, names), piece) == Ok(Only(acc, names)[name := v]);
    }
  }

  /** The newer schema keeps the older one's fields and gives its own fields names of their own. */
  ghost predicate Extends(newer: map<u32, (Str, Shape)>, older: map<u32, (Str, Shape)>) {
    && (forall n :: n in older ==> n in newer && newer[n] == older[n])
    && (forall n :: n in newer && n !in older ==> newer[n].0 !in Names(older))
  }

  lemma OlderRecord(fl: Floats, newer: map<u32, (Str, Shape)>, older: map<u32, (Str, Shape)>, src: seq<byte>)
    requires Extends(newer, older) && TakeRecord(fl, newer, src).Ok?
    ensures var (piece, rest) := TakeRecord(fl, newer, src).value;
            || (TakeRecord(fl, older, src) == Ok((piece, rest)) && (piece.Ignored? || piece.name in Names(older)))
            || (TakeRecord(fl, older, src) == Ok((Ignored, rest)) && (piece.Ignored? || piece.name !in Names(older)))
  {
    var (number, wt, body) := TakeTag(src).value;
    if number in older {
      assert older[number].0 in Names(older);
    } else if number in newer {
      SkipPassesField(fl, newer[number].1, wt, body);
    }
  }

  /** A reader with an older schema sees exactly the fields it knows of what a newer reader decodes. */
  lemma {:induction false} OldReaderProjects(fl: Floats, newer: map<u32, (Str, Shape)>, older: map<u32, (Str, Shape)>,
                                             src: seq<byte>, acc: map<Str, Value>)
    requires Extends(newer, older) && DecodeFrom(fl, newer, src, acc).Ok?
    ensures DecodeFrom(fl, older, src, Only(acc, Names(older)))
         == Ok(Only(DecodeFrom(fl, newer, src, acc).value, Names(older)))
    decreases |src|
  {
    hide Extends, Absorb, Only, TakeRecord, Names;
    if src != [] {
      var (piece, rest) := TakeRecord(fl, newer, src).value;
      OlderRecord(fl, newer, older, src);
      IgnoredAbsorbed();
      if TakeRecord(fl, older, src).value.0 == piece && (piece.Ignored? || piece.name in Names(older)) {
        AbsorbOnly(acc, piece, Names(older));
      } else {
        AbsorbOther(acc, piece, Names(older));
      }
      OldReaderProjects(fl, newer, older, rest, Absorb(acc, piece).value);
    }
  }

  lemma IgnoredAbsorbed()
    ensures forall m :: Absorb(m, Ignored) == Ok(m)
  {
  }

  // ------------------------------------------------------------- packed lists

  /** Scalar records of one kind, laid end to end without tags. */
  function DecodeRepeated(fl: Floats, kind: Kind, src: seq<byte>): Result<seq<Value>, WireError>
    decreases |src|
  {
    if src == [] then Ok([])
    else
      var (v, rest) :- DecodeValue(fl, kind, WireTypeFor(kind), src);
      var vs :- DecodeRepeated(fl, kind, rest);
      Ok([v] + vs)
  }

  /** Except for enums, a packed list is the scalar decoder repeated to the end, errors included. */
  lemma {:induction false} PackedIsRepeated(fl: Floats, kind: Kind, src: seq<byte>)
    requires Packable(kind) && !kind.Enum?
    ensures DecodePacked(fl, kind, src) == DecodeRepeated(fl, kind, src)
    decreases |src|
  {
    if src != [] {
      assert PackedItem(fl, kind, src) == DecodeValue(fl, kind, WireTypeFor(kind), src);
      if PackedItem(fl, kind, src).Ok? {
        PackedIsRepeated(fl, kind, PackedItem(fl, kind, src).value.1);
      }
    }
  }

  ghost predicate AllNumbers(vs: seq<Value>) {
    forall i :: 0 <= i < |vs| ==> vs[i].I64?
  }

  /** What a packed enum number would have read as in a record of its own. */
  function Named(e: EnumDesc, v: Value): Value {
    if v.I64? then EnumValue(e, I64AsI32(v.signed)) else v
  }

  function AllNamed(e: EnumDesc, vs: seq<Value>): (r: seq<Value>)
    ensures |r| == |vs| && forall i :: 0 <= i < |vs| ==> r[i] == Named(e, vs[i])
  {
    if vs == [] then [] else [Named(e, vs[0])] + AllNamed(e, vs[1..])
  }

  /** Packed enums are the unpacked ones before naming and narrowing to 32 bits. */
  lemma {:induction false} PackedEnumNamed(fl: Floats, e: EnumDesc, src: seq<byte>)
    ensures match DecodePacked(fl, Enum(e), src)
            case Err(err) => DecodeRepeated(fl, Enum(e), src) == Err(err)
            case Ok(vs) => AllNumbers(vs) && DecodeRepeated(fl, Enum(e), src) == Ok(AllNamed(e, vs))
    decreases |src|
  {
    if src != [] && TakeVarint(src).Ok? {
      var (n, rest) := TakeVarint(src).value;
      CastsRoundTrip(n, 0);
      PackedEnumNamed(fl, e, rest);
      assert Named(e, I64(U64AsI64(n))) == EnumValue(e, U64AsI32(n));
      if DecodePacked(fl, Enum(e), rest).Ok? {
        var vs := DecodePacked(fl, Enum(e), rest).value;
        assert ([I64(U64AsI64(n))] + vs)[1..] == vs;
      }
    }
  }

  /** Packed and unpacked enum lists agree exactly when no packed number has a name or exceeds 32 bits. */
  lemma PackedEnumAgrees(fl: Floats, e: EnumDesc, src: seq<byte>)
    requires DecodePacked(fl, Enum(e), src).Ok?
    ensures DecodePacked(fl, Enum(e), src) == DecodeRepeated(fl, Enum(e), src) <==>
            forall i :: 0 <= i < |DecodePacked(fl, Enum(e), src).value| ==>
              var n := DecodePacked(fl, Enum(e), src).value[i];
              n.I64? && -TWO_31 <= n.signed < TWO_31 && n.signed !in e.nameOf
  {
    PackedEnumNamed(fl, e, src);
    var vs := DecodePacked(fl, Enum(e), src).value;
    forall i | 0 <= i < |vs|
      ensures Named(e, vs[i]) == vs[i] <==> -TWO_31 <= vs[i].signed < TWO_31 && vs[i].signed !in e.nameOf
    {
      if -TWO_31 <= vs[i].signed < TWO_31 {
        NarrowRoundTrip(vs[i].signed);
      }
    }
    assert AllNamed(e, vs) == vs <==> forall i :: 0 <= i < |vs| ==> Named(e, vs[i]) == vs[i];
  }

  /** The packed record holding 1 for an enum naming 1: a number packed, a name in a record of its own. */
  lemma PackedEnumWitness(fl: Floats)
    ensures var e := EnumDesc(map[1 := [0x41]], map[[0x41] := 1]);
            && DecodePacked(fl, Enum(e), [1]) == Ok([I64(1)])
            && DecodeRepeated(fl, Enum(e), [1]) == Ok([String([0x41])])
  {
    var e := EnumDesc(map[1 := [0x41]], map[[0x41] := 1]);
    assert VarintBytes(1) + [] == [1];
    VarintRoundTrip(1, []);
    assert [I64(1)] + [] == [I64(1)] && [String([0x41])] + [] == [String([0x41])];
    assert TakeVarint([1]) == Ok((1, []));
    assert PackedItem(fl, Enum(e), [1]) == Ok((I64(1), []));
    assert DecodeValue(fl, Enum(e), Varint, [1]) == Ok((String([0x41]), []));
    assert DecodePacked(fl, Enum(e), []) == Ok([]);
    assert DecodeRepeated(fl, Enum(e), []) == Ok([]);
  }

  function Flatten(lists: seq<seq<Value>>): seq<Value> {
    if lists == [] then [] else Flatten(lists[..|lists| - 1]) + lists[|lists| - 1]
  }

  function Join(chunks: seq<seq<byte>>): seq<byte> {
    if chunks == [] then [] else Join(chunks[..|chunks| - 1]) + chunks[|chunks| - 1]
  }

  lemma MergeSingletonLists(shapes: map<Str, Shape>, name: Str, a: seq<Value>, b: seq<Value>)
    requires name in shapes && shapes[name].List?
    ensures MergeObjects(shapes, map[name := Array(a)], map[name := Array(b)]) == map[name := Array(a + b)]
  {
    MergeOne(shapes, map[name := Array(a)], name, Array(b));
  }

  /** A list field sent as any mix of packed and single records holds their items in order. */
  lemma {:induction false} MixedListInOrder(fl: Floats, meta: Meta, name: Str, chunks: seq<seq<byte>>, lists: seq<seq<Value>>)
    requires GoodMeta(meta) && name in meta.byName && meta.byName[name].shape.List?
    requires |chunks| == |lists| > 0
    requires forall i :: 0 <= i < |chunks| ==>
               DecodeMessage(fl, meta.byNumber, chunks[i]) == Ok(Object(map[name := Array(lists[i])]))
    ensures DecodeMessage(fl, meta.byNumber, Join(chunks)) == Ok(Object(map[name := Array(Flatten(lists))]))
    decreases |chunks|
  {
    hide DecodeMessage, GoodMeta, WellShaped, MergeObjects;
    var n := |chunks| - 1;
    if n == 0 {
      assert Join(chunks[..0]) == [] && Flatten(lists[..0]) == [];
      assert Join(chunks) == chunks[0] && Flatten(lists) == lists[0];
    } else {
      MixedListInOrder(fl, meta, name, chunks[..n], lists[..n]);
      ConcatenationMerges(fl, meta, Join(chunks[..n]), chunks[n]);
      MergeSingletonLists(Shapes(meta), name, Flatten(lists[..n]), lists[n]);
    }
  }
}
