/** UTF-8 (RFC 3629, section 3): the bytes accepted as text are exactly the encodings of Unicode scalar values. */
module Utf8 {
  import opened Words
  import opened Values

  predicate Scalar(c: int) {
    0 <= c < 0xD800 || 0xE000 <= c <= 0x10FFFF
  }

  function EncodeScalar(c: int): (bs: seq<byte>)
    requires Scalar(c)
    ensures 1 <= |bs| <= 4
  {
    if c < 0x80 then [c]
    else if c < 0x800 then [0xC0 + c / 0x40, 0x80 + c % 0x40]
    else if c < 0x1_0000 then [0xE0 + c / 0x1000, 0x80 + c / 0x40 % 0x40, 0x80 + c % 0x40]
    else [0xF0 + c / 0x4_0000, 0x80 + c / 0x1000 % 0x40, 0x80 + c / 0x40 % 0x40, 0x80 + c % 0x40]
  }

  function Encoded(cs: seq<int>): seq<byte>
    requires forall i :: 0 <= i < |cs| ==> Scalar(cs[i])
  {
    if cs == [] then [] else EncodeScalar(cs[0]) + Encoded(cs[1..])
  }

  lemma EncodedLeads(c: int, rest: seq<byte>)
    requires Scalar(c)
    ensures LeadLength(EncodeScalar(c) + rest) == |EncodeScalar(c)|
  {
    var q := c / 0x40;
    assert c / 0x1000 == q / 0x40 && c / 0x4_0000 == q / 0x1000;
  }

  /** The scalar value of a lead byte's low bits and the six low bits of each byte behind it. */
  function Decoded(s: seq<byte>): int
    requires s != [] && LeadLength(s) > 0
  {
    match LeadLength(s)
    case 1 => s[0]
    case 2 => Joined(Low(s[0], 0xC0), Low(s[1], 0x80))
    case 3 => Joined(Joined(Low(s[0], 0xE0), Low(s[1], 0x80)), Low(s[2], 0x80))
    case _ => Joined(Joined(Joined(Low(s[0], 0xF0), Low(s[1], 0x80)), Low(s[2], 0x80)), Low(s[3], 0x80))
  }

  function Low(b: int, mark: int): int {
    b - mark
  }

  function Joined(high: int, low: int): int {
    high * 0x40 + low
  }

  lemma JoinedParts(high: int, low: int)
    requires 0 <= low < 0x40
    ensures Joined(high, low) / 0x40 == high && Joined(high, low) % 0x40 == low
  {
  }

  lemma Quarters(c: int)
    ensures c / 0x1000 == c / 0x40 / 0x40 && c / 0x4_0000 == c / 0x40 / 0x40 / 0x40
  {
  }

  lemma LeadEncodes(s: seq<byte>)
    requires s != [] && LeadLength(s) > 0
    ensures Scalar(Decoded(s)) && EncodeScalar(Decoded(s)) == s[..LeadLength(s)]
  {
    var n := LeadLength(s);
    assert n <= 4;
    if n == 2 {
      TwoEncode(s);
    } else if n == 3 {
      ThreeEncode(s);
    } else if n == 4 {
      FourEncode(s);
    }
  }

  lemma TwoEncode(s: seq<byte>)
    requires s != [] && LeadLength(s) == 2
    ensures Scalar(Decoded(s)) && EncodeScalar(Decoded(s)) == s[..2]
  {
    var a, b := Low(s[0], 0xC0), Low(s[1], 0x80);
    JoinedParts(a, b);
    assert 0x80 <= Joined(a, b) < 0x800;
    assert s[..2] == [s[0], s[1]];
  }

  lemma ThreeEncode(s: seq<byte>)
    requires s != [] && LeadLength(s) == 3
    ensures Scalar(Decoded(s)) && EncodeScalar(Decoded(s)) == s[..3]
  {
    var a, b, c := Low(s[0], 0xE0), Low(s[1], 0x80), Low(s[2], 0x80);
    JoinedParts(a, b);
    JoinedParts(Joined(a, b), c);
    Quarters(Joined(Joined(a, b), c));
    assert 0x800 <= Joined(Joined(a, b), c) < 0x1_0000;
    assert s[..3] == [s[0], s[1], s[2]];
  }

  lemma FourEncode(s: seq<byte>)
    requires s != [] && LeadLength(s) == 4
    ensures Scalar(Decoded(s)) && EncodeScalar(Decoded(s)) == s[..4]
  {
    var a, b, c, d := Low(s[0], 0xF0), Low(s[1], 0x80), Low(s[2], 0x80), Low(s[3], 0x80);
    JoinedParts(a, b);
    JoinedParts(Joined(a, b), c);
    JoinedParts(Joined(Joined(a, b), c), d);
    Quarters(Joined(Joined(Joined(a, b), c), d));
    assert 0x1_0000 <= Joined(Joined(Joined(a, b), c), d) <= 0x10FFFF;
    assert s[..4] == [s[0], s[1], s[2], s[3]];
  }

  lemma {:induction false} EncodedIsText(cs: seq<int>)
    requires forall i :: 0 <= i < |cs| ==> Scalar(cs[i])
    ensures ValidUtf8(Encoded(cs))
  {
    hide EncodeScalar, LeadLength;
    if cs != [] {
      EncodedIsText(cs[1..]);
      EncodedLeads(cs[0], Encoded(cs[1..]));
      assert Encoded(cs)[|EncodeScalar(cs[0])|..] == Encoded(cs[1..]);
    }
  }

  lemma {:induction false} TextIsEncoded(s: seq<byte>) returns (cs: seq<int>)
    requires ValidUtf8(s)
    ensures (forall i :: 0 <= i < |cs| ==> Scalar(cs[i])) && s == Encoded(cs)
    decreases |s|
  {
    hide EncodeScalar, LeadLength, Decoded, Scalar;
    if s == [] {
      return [];
    }
    var n := LeadLength(s);
    LeadEncodes(s);
    var more := TextIsEncoded(s[n..]);
    cs := [Decoded(s)] + more;
    assert cs[1..] == more && s == s[..n] + s[n..];
  }

  ghost predicate Encodes(s: seq<byte>, cs: seq<int>) {
    (forall i :: 0 <= i < |cs| ==> Scalar(cs[i])) && s == Encoded(cs)
  }

  /** Bytes are text if and only if they encode scalar values. */
  lemma TextEncodesScalars(s: seq<byte>)
    ensures ValidUtf8(s) <==> exists cs :: Encodes(s, cs)
  {
    hide Encoded, ValidUtf8;
    if ValidUtf8(s) {
      var cs := TextIsEncoded(s);
      assert Encodes(s, cs);
    }
    if cs :| Encodes(s, cs) {
      EncodedIsText(cs);
    }
  }
}
