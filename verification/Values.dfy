/** The dynamic values exchanged with scripts, and Rust text. */
module Values {
  import opened Words

  /** True of exactly the byte strings Rust accepts as text (Unicode, table of well-formed UTF-8 byte sequences). */
  predicate ValidUtf8(s: seq<byte>) {
    s == [] || (var n := LeadLength(s); n > 0 && ValidUtf8(s[n..]))
  }

  /** Length of the well-formed scalar at the front of `s`, 0 when there is none. */
  function LeadLength(s: seq<byte>): (n: nat)
    requires s != []
    ensures n <= |s|
  {
    var b := s[0];
    if b < 0x80 then 1
    else if 0xC2 <= b <= 0xDF && |s| >= 2 && Tail(s[1]) then 2
    else if 0xE0 <= b <= 0xEF && |s| >= 3 && Tail(s[1]) && Tail(s[2])
         && (b == 0xE0 ==> s[1] >= 0xA0) && (b == 0xED ==> s[1] <= 0x9F) then 3
    else if 0xF0 <= b <= 0xF4 && |s| >= 4 && Tail(s[1]) && Tail(s[2]) && Tail(s[3])
         && (b == 0xF0 ==> s[1] >= 0x90) && (b == 0xF4 ==> s[1] <= 0x8F) then 4
    else 0
  }

  predicate Tail(b: byte) {
    0x80 <= b <= 0xBF
  }

  /** A Rust `str`: its bytes are well-formed UTF-8. */
  type Str = s: seq<byte> | ValidUtf8(s) witness []

  datatype MapKey =
    | KeyBool(flag: bool)
    | KeyI64(signed: i64)
    | KeyU64(unsigned: u64)
    | KeyString(text: Str)

  /** `F64` holds the 64 bits of the number; arithmetic on it is a parameter of the model (`Floats`). */
  datatype Value =
    | Null
    | Bool(flag: bool)
    | I64(signed: i64)
    | U64(unsigned: u64)
    | F64(bits: u64)
    | String(text: Str)
    | Bytes(raw: seq<byte>)
    | Array(items: seq<Value>)
    | Object(fields: map<Str, Value>)
    | Map(entries: map<MapKey, Value>)

  /** The floating-point conversions of the host, on bit patterns. */
  datatype Floats = Floats(
    widen: u32 -> u64,          // f64::from(f32)
    narrow: u64 -> u32,         // f64 as f32
    ofI64: i64 -> u64,          // i64 as f64
    ofU64: u64 -> u64,          // u64 as f64
    toI64: u64 -> i64,          // f64 as i64
    toU64: u64 -> u64,          // f64 as u64
    parse: Str -> Parsed,       // str::parse::<f64>
    show: u64 -> Str            // f64::to_string
  )

  datatype Parsed = NotANumber | Number(bits: u64)

  /** Narrowing undoes widening up to the payload of a NaN, which widening keeps stable. */
  ghost predicate Lawful(fl: Floats) {
    forall b: u32 {:trigger fl.widen(b)} :: fl.widen(fl.narrow(fl.widen(b))) == fl.widen(b)
  }
}
