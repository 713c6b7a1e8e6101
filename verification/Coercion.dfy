/** Conversions the encoder applies to values that are not of the kind the schema asks for. */
module Coercion {
  import opened Wrappers
  import opened Words
  import opened Values
  import opened Primitives

  const TRUE_TEXT: seq<byte> := [0x74, 0x72, 0x75, 0x65]
  const FALSE_TEXT: seq<byte> := [0x66, 0x61, 0x6C, 0x73, 0x65]
  const PLUS: byte := 0x2B
  const MINUS: byte := 0x2D
  const ZERO: byte := 0x30

  predicate Ascii(s: seq<byte>) {
    forall i :: 0 <= i < |s| ==> s[i] < 0x80
  }

  lemma {:induction false} AsciiIsUtf8(s: seq<byte>)
    requires Ascii(s)
    ensures ValidUtf8(s)
  {
    if s != [] {
      AsciiIsUtf8(s[1..]);
    }
  }

  // ----------------------------------------------------------------- decimal

  /** The number a run of ASCII digits stands for; none for an empty run or any other character. */
  function Digits(s: seq<byte>): Option<nat> {
    if s == [] then None
    else if !(ZERO <= s[|s| - 1] <= ZERO + 9) then None
    else if |s| == 1 then Some(s[0] - ZERO)
    else match Digits(s[..|s| - 1])
      case None => None
      case Some(n) => Some(10 * n + (s[|s| - 1] - ZERO))
  }

  function ParseI64(s: seq<byte>): Option<i64> {
    var n := if s != [] && s[0] == MINUS then Negated(Digits(s[1..]))
             else if s != [] && s[0] == PLUS then Digits(s[1..])
             else Digits(s);
    if n.Some? && -TWO_63 <= n.value < TWO_63 then Some(n.value) else None
  }

  function Negated(n: Option<int>): Option<int> {
    match n case None => None case Some(v) => Some(-v)
  }

  function ParseU64(s: seq<byte>): Option<u64> {
    var n := if s != [] && s[0] == PLUS then Digits(s[1..]) else Digits(s);
    if n.Some? && n.value < TWO_64 then Some(n.value) else None
  }

  function ShowNat(n: nat): (s: Str)
    ensures s != [] && ZERO <= s[0] <= ZERO + 9 && Ascii(s)
  {
    if n < 10 then AsciiIsUtf8([ZERO + n]); [ZERO + n]
    else
      var s := ShowNat(n / 10) + [ZERO + n % 10];
      AsciiIsUtf8(s);
      s
  }

  function ShowInt(n: int): (s: Str) {
    if n >= 0 then ShowNat(n)
    else
      var s := [MINUS] + ShowNat(-n);
      AsciiIsUtf8(s);
      s
  }

  lemma {:induction false} DigitsOfShown(n: nat)
    ensures Digits(ShowNat(n)) == Some(n)
  {
    if n >= 10 {
      DigitsOfShown(n / 10);
      var s := ShowNat(n);
      assert s[..|s| - 1] == ShowNat(n / 10);
    }
  }

  /** Decimal text of a 64-bit number parses back to it. */
  lemma ParseShown(i: i64, u: u64)
    ensures ParseI64(ShowInt(i)) == Some(i)
    ensures ParseU64(ShowNat(u)) == Some(u)
  {
    hide ShowNat, Digits;
    DigitsOfShown(u);
    if i >= 0 {
      DigitsOfShown(i);
    } else {
      var size: int := i;
      DigitsOfShown(-size);
      assert ShowInt(i)[1..] == ShowNat(-size);
    }
  }

  // --------------------------------------------------------- decimal, by place

  predicate Numeral(s: seq<byte>) {
    s != [] && forall i :: 0 <= i < |s| ==> 0x30 <= s[i] <= 0x39
  }

  function Pow10(k: nat): nat {
    if k == 0 then 1 else 10 * Pow10(k - 1)
  }

  /** Each digit counts for the power of ten of the digits behind it. */
  function PlaceValue(s: seq<byte>): nat
    requires forall i :: 0 <= i < |s| ==> 0x30 <= s[i] <= 0x39
  {
    if s == [] then 0 else (s[0] - 0x30) * Pow10(|s| - 1) + PlaceValue(s[1..])
  }

  lemma {:induction false} PlaceAppend(s: seq<byte>, d: byte)
    requires forall i :: 0 <= i < |s| ==> 0x30 <= s[i] <= 0x39
    requires 0x30 <= d <= 0x39
    ensures PlaceValue(s + [d]) == 10 * PlaceValue(s) + (d - 0x30)
  {
    if s == [] {
      assert s + [d] == [d] && [d][1..] == [];
    } else {
      PlaceAppend(s[1..], d);
      assert (s + [d])[1..] == s[1..] + [d];
      assert (s[0] - 0x30) * (10 * Pow10(|s| - 1)) == 10 * ((s[0] - 0x30) * Pow10(|s| - 1));
    }
  }

  /** Exactly the numerals are read, each as its place value. */
  lemma {:induction false} DigitsArePlaces(s: seq<byte>)
    ensures Digits(s) == if Numeral(s) then Some(PlaceValue(s)) else None
    decreases |s|
  {
    if s != [] {
      var last := |s| - 1;
      DigitsArePlaces(s[..last]);
      assert s == s[..last] + [s[last]];
      if Numeral(s) {
        PlaceAppend(s[..last], s[last]);
        assert last > 0 ==> Numeral(s[..last]);
      } else if last > 0 && Numeral(s[..last]) {
        assert forall i :: 0 <= i < last ==> s[i] == s[..last][i];
      }
    }
  }

  /** The text of a number: a minus sign below zero, then its digits, none of them a leading zero. */
  predicate DecimalOf(s: seq<byte>, n: int) {
    if n < 0 then s != [] && s[0] == 0x2D && DecimalOf(s[1..], -n)
    else Numeral(s) && PlaceValue(s) == n && (s[0] == 0x30 ==> |s| == 1)
  }

  lemma {:induction false} ShownNatIsDecimal(n: nat)
    ensures DecimalOf(ShowNat(n), n)
  {
    if n < 10 {
      assert [ZERO + n][1..] == [] && Pow10(0) == 1;
    } else {
      ShownNatIsDecimal(n / 10);
      PlaceAppend(ShowNat(n / 10), ZERO + n % 10);
    }
  }

  /** Numbers are shown as their decimal text. */
  lemma ShownIsDecimal(n: int)
    ensures DecimalOf(ShowInt(n), n)
  {
    if n >= 0 {
      ShownNatIsDecimal(n);
    } else {
      ShownNatIsDecimal(-n);
      assert ShowInt(n)[1..] == ShowNat(-n);
    }
  }

  /** A number has one decimal text. */
  lemma DecimalIsUnique(s: seq<byte>, t: seq<byte>, n: int)
    requires DecimalOf(s, n) && DecimalOf(t, n)
    ensures s == t
  {
    DecimalIsShown(s, n);
    DecimalIsShown(t, n);
  }

  lemma DecimalIsShown(s: seq<byte>, n: int)
    requires DecimalOf(s, n)
    ensures s == ShowInt(n)
  {
    if n < 0 {
      NumeralIsShown(s[1..], -n);
      assert s == [s[0]] + s[1..];
    } else {
      NumeralIsShown(s, n);
    }
  }

  lemma {:induction false} NumeralIsShown(s: seq<byte>, n: nat)
    requires DecimalOf(s, n)
    ensures s == ShowNat(n)
    decreases |s|
  {
    var last := |s| - 1;
    assert s == s[..last] + [s[last]];
    PlaceAppend(s[..last], s[last]);
    if last > 0 {
      var front := PlaceValue(s[..last]);
      NumeralPositive(s[..last]);
      assert s[..last][0] == s[0];
      NumeralIsShown(s[..last], front);
      hide PlaceValue, Numeral;
      assert n / 10 == front && n % 10 == s[last] - 0x30;
    }
  }

  lemma {:induction false} NumeralPositive(s: seq<byte>)
    requires Numeral(s) && s[0] != 0x30
    ensures PlaceValue(s) > 0
  {
    PowersArePositive(|s| - 1);
    assert (s[0] - 0x30) * Pow10(|s| - 1) >= Pow10(|s| - 1);
  }

  lemma {:induction false} PowersArePositive(k: nat)
    ensures Pow10(k) > 0
  {
    if k > 0 {
      PowersArePositive(k - 1);
    }
  }

  /** What parses as a signed number: an optional sign, then a numeral. */
  predicate WritesSigned(s: seq<byte>, n: int) {
    if s != [] && s[0] == 0x2D then Numeral(s[1..]) && n + PlaceValue(s[1..]) == 0 else WritesUnsigned(s, n)
  }

  predicate WritesUnsigned(s: seq<byte>, n: int) {
    var digits := if s != [] && s[0] == 0x2B then s[1..] else s;
    Numeral(digits) && n == PlaceValue(digits)
  }

  /** Text parses to a 64-bit number exactly when it writes it. */
  lemma ParsesWhatIsWritten(s: seq<byte>)
    ensures forall i: int :: ParseI64(s) == Some(i) <==> -TWO_63 <= i < TWO_63 && WritesSigned(s, i)
    ensures forall u: int :: ParseU64(s) == Some(u) <==> 0 <= u < TWO_64 && WritesUnsigned(s, u)
  {
    hide Digits, PlaceValue;
    DigitsArePlaces(s);
    if s != [] {
      DigitsArePlaces(s[1..]);
    }
  }

  // --------------------------------------------------------------- coercions

  function ToBool(v: Value): bool {
    match v
    case Bool(b) => b
    case String(s) => s == TRUE_TEXT || s == [ZERO + 1]
    case I64(i) => i != 0
    case U64(u) => u != 0
    case _ => false
  }

  function ToI64(fl: Floats, v: Value): Result<i64, WireError> {
    match v
    case I64(i) => Ok(i)
    case U64(u) => Ok(U64AsI64(u))
    case F64(f) => Ok(fl.toI64(f))
    case String(s) => (match ParseI64(s) case Some(i) => Ok(i) case None => Err(InvalidNumber))
    case _ => Err(InvalidNumber)
  }

  function ToU64(fl: Floats, v: Value): Result<u64, WireError> {
    match v
    case U64(u) => Ok(u)
    case I64(i) => Ok(I64AsU64(i))
    case F64(f) => Ok(fl.toU64(f))
    case String(s) => (match ParseU64(s) case Some(u) => Ok(u) case None => Err(InvalidNumber))
    case _ => Err(InvalidNumber)
  }

  function ToF64(fl: Floats, v: Value): Result<u64, WireError> {
    match v
    case F64(f) => Ok(f)
    case I64(i) => Ok(fl.ofI64(i))
    case U64(u) => Ok(fl.ofU64(u))
    case String(s) => (match fl.parse(s) case Number(f) => Ok(f) case NotANumber => Err(InvalidNumber))
    case _ => Err(InvalidNumber)
  }

  function ToStringLossy(fl: Floats, v: Value): Str {
    match v
    case String(s) => s
    case I64(i) => ShowInt(i)
    case U64(u) => ShowNat(u)
    case F64(f) => fl.show(f)
    case Bool(b) => AsciiIsUtf8(TRUE_TEXT); AsciiIsUtf8(FALSE_TEXT); if b then TRUE_TEXT else FALSE_TEXT
    case _ => []
  }

  function ToBytesLossy(v: Value): seq<byte> {
    match v
    case Bytes(b) => b
    case String(s) => s
    case _ => []
  }

  function KeyToI64(k: MapKey): Result<i64, WireError> {
    match k
    case KeyI64(i) => Ok(i)
    case KeyU64(u) => Ok(U64AsI64(u))
    case KeyString(s) => (match ParseI64(s) case Some(i) => Ok(i) case None => Err(InvalidNumber))
    case KeyBool(_) => Err(InvalidKey)
  }

  function KeyToU64(k: MapKey): Result<u64, WireError> {
    match k
    case KeyU64(u) => Ok(u)
    case KeyI64(i) => if i >= 0 then Ok(i) else Err(InvalidKey)
    case KeyString(s) => (match ParseU64(s) case Some(u) => Ok(u) case None => Err(InvalidNumber))
    case KeyBool(_) => Err(InvalidKey)
  }
}
