/** Field kinds and message metadata, as the codec sees them. */
module Schema {
  import opened Words
  import opened Values
  import opened Primitives

  datatype Prim =
    | BoolT | StringT | BytesT
    | Int32T | Sint32T | Sfixed32T | Int64T | Sint64T | Sfixed64T
    | Uint32T | Fixed32T | Uint64T | Fixed64T
    | FloatT | DoubleT

  /** An enum type: the name a number shows as, and the number a name stands for. */
  datatype EnumDesc = EnumDesc(nameOf: map<i32, Str>, numberOf: map<Str, i32>)

  /** A kind as the descriptor pool states it; message types are referred to by name. */
  datatype ProtoKind = ProtoPrim(prim: Prim) | ProtoEnum(desc: EnumDesc) | ProtoMessage(name: Str)

  /** A kind with the metadata of nested messages attached. */
  datatype Kind = Plain(prim: Prim) | Enum(desc: EnumDesc) | Message(meta: Meta)

  datatype Shape = Single(kind: Kind) | List(kind: Kind) | MapOf(keyKind: ProtoKind, kind: Kind)

  datatype InputField = InputField(number: u32, shape: Shape)

  datatype Meta = Meta(byName: map<Str, InputField>, byNumber: map<u32, (Str, Shape)>)

  function WireTypeFor(kind: Kind): WireType {
    match kind
    case Enum(_) => Varint
    case Message(_) => Len
    case Plain(p) =>
      match p
      case BoolT | Int32T | Sint32T | Int64T | Sint64T | Uint32T | Uint64T => Varint
      case Fixed32T | Sfixed32T | FloatT => ThirtyTwoBit
      case Fixed64T | Sfixed64T | DoubleT => SixtyFourBit
      case StringT | BytesT => Len
  }

  /** The name shown for a number stands for that number (names are unique in an enum). */
  ghost predicate GoodEnum(e: EnumDesc) {
    forall n :: n in e.nameOf ==> e.nameOf[n] in e.numberOf && e.numberOf[e.nameOf[n]] == n
  }

  ghost predicate GoodKind(k: Kind) {
    match k
    case Plain(_) => true
    case Enum(e) => GoodEnum(e)
    case Message(m) => GoodMeta(m)
  }

  ghost predicate GoodShape(s: Shape) {
    GoodKind(s.kind)
  }

  /** The two tables of a message agree: by number is by name read the other way, without number 0. */
  ghost predicate GoodMeta(m: Meta) {
    && (forall name :: name in m.byName ==>
          && GoodShape(m.byName[name].shape)
          && (m.byName[name].number != 0 ==>
                && m.byName[name].number in m.byNumber
                && m.byNumber[m.byName[name].number] == (name, m.byName[name].shape)))
    && (forall n :: n in m.byNumber ==>
          n != 0 && m.byNumber[n].0 in m.byName && m.byName[m.byNumber[n].0] == InputField(n, m.byNumber[n].1))
  }
}
