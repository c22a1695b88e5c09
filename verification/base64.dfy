/** The standard base64 alphabet with `=` padding (section 4 of RFC 4648).
    The feedback client reports every token in this form: Python's
    `base64.encodestring` emits it in 76-character lines, and the client strips
    the line breaks, which leaves exactly the encoding defined here (each line
    encodes 57 bytes, a multiple of three, so the pieces join without seams). */
module Base64 {
  import opened Bytes

  const PAD: char := '='

  predicate IsDigit(c: char)
  {
    ('A' <= c <= 'Z') || ('a' <= c <= 'z') || ('0' <= c <= '9') || c == '+' || c == '/'
  }

  /** The sextet a digit stands for. */
  function DigitValue(c: char): (v: int)
    requires IsDigit(c)
    ensures 0 <= v < 64
  {
    if 'A' <= c <= 'Z' then c as int - 'A' as int
    else if 'a' <= c <= 'z' then c as int - 'a' as int + 26
    else if '0' <= c <= '9' then c as int - '0' as int + 52
    else if c == '+' then 62
    else 63
  }

  /** The digit for a sextet; the alphabet is a bijection with [0, 64). */
  function Digit(v: int): (c: char)
    requires 0 <= v < 64
    ensures IsDigit(c) && DigitValue(c) == v
  {
    if v < 26 then ('A' as int + v) as char
    else if v < 52 then ('a' as int + (v - 26)) as char
    else if v < 62 then ('0' as int + (v - 52)) as char
    else if v == 62 then '+'
    else '/'
  }

  /** Three octets as four digits. */
  function EncodeTriple(b0: Byte, b1: Byte, b2: Byte): string
  {
    [Digit(b0 / 4), Digit((b0 % 4) * 16 + b1 / 16), Digit((b1 % 16) * 4 + b2 / 64), Digit(b2 % 64)]
  }

  /** Encoding of an octet string: whole triples first, then a one- or
      two-octet tail padded with `=` to a full quantum. */
  function Encode(b: Bytes): (s: string)
    ensures |s| == 4 * ((|b| + 2) / 3)
    decreases |b|
  {
    if |b| == 0 then ""
    else if |b| == 1 then [Digit(b[0] / 4), Digit((b[0] % 4) * 16), PAD, PAD]
    else if |b| == 2 then [Digit(b[0] / 4), Digit((b[0] % 4) * 16 + b[1] / 16), Digit((b[1] % 16) * 4), PAD]
    else EncodeTriple(b[0], b[1], b[2]) + Encode(b[3..])
  }

  /** The octets spread over two neighbouring sextets: the first octet is
      sextet 0 and the top two bits of sextet 1, the second is the low four
      bits of sextet 1 and the top four of sextet 2, the third the low two
      bits of sextet 2 and all of sextet 3. */
  function FirstOctet(v0: int, v1: int): Byte
    requires 0 <= v0 < 64 && 0 <= v1 < 64
  {
    assert v0 * 4 <= 252;
    v0 * 4 + v1 / 16
  }

  function SecondOctet(v1: int, v2: int): Byte
    requires 0 <= v1 < 64 && 0 <= v2 < 64
  {
    assert (v1 % 16) * 16 <= 240;
    (v1 % 16) * 16 + v2 / 4
  }

  function ThirdOctet(v2: int, v3: int): Byte
    requires 0 <= v2 < 64 && 0 <= v3 < 64
  {
    assert (v2 % 4) * 64 <= 192;
    (v2 % 4) * 64 + v3
  }

  /** Four digits back to the three octets they carry. */
  function DecodeQuad(c0: char, c1: char, c2: char, c3: char): Bytes
    requires IsDigit(c0) && IsDigit(c1) && IsDigit(c2) && IsDigit(c3)
  {
    var v0, v1, v2, v3 := DigitValue(c0), DigitValue(c1), DigitValue(c2), DigitValue(c3);
    [FirstOctet(v0, v1), SecondOctet(v1, v2), ThirdOctet(v2, v3)]
  }

  /** The last quantum when it is padded: two digits and `==` carry one
      octet, three digits and `=` carry two. None for anything else. */
  function DecodeFinal(q: string): Option<Bytes>
    requires |q| == 4
  {
    if q[2] == PAD then
      if q[3] == PAD && IsDigit(q[0]) && IsDigit(q[1])
      then Some([FirstOctet(DigitValue(q[0]), DigitValue(q[1]))])
      else None
    else if IsDigit(q[0]) && IsDigit(q[1]) && IsDigit(q[2])
    then Some([FirstOctet(DigitValue(q[0]), DigitValue(q[1])),
               SecondOctet(DigitValue(q[1]), DigitValue(q[2]))])
    else None
  }

  /** Four more characters keep a length a multiple of four. */
  lemma QuadMultiple(n: int)
    requires n >= 4 && (n - 4) % 4 == 0
    ensures n % 4 == 0
  {
  }

  /** A strict decoder: quanta of four digits, padding only in the last one.
      None for anything else. */
  function Decode(s: string): (r: Option<Bytes>)
    ensures r.Some? ==> |s| % 4 == 0
    decreases |s|
  {
    if |s| == 0 then Some([])
    else if |s| < 4 then None
    else if |s| == 4 && (s[2] == PAD || s[3] == PAD) then DecodeFinal(s)
    else if IsDigit(s[0]) && IsDigit(s[1]) && IsDigit(s[2]) && IsDigit(s[3]) then
      match Decode(s[4..])
      case Some(rest) =>
        QuadMultiple(|s|);
        Some(DecodeQuad(s[0], s[1], s[2], s[3]) + rest)
      case None => None
    else None
  }

  lemma TripleRoundTrip(b0: Byte, b1: Byte, b2: Byte)
    ensures var q := EncodeTriple(b0, b1, b2);
            DecodeQuad(q[0], q[1], q[2], q[3]) == [b0, b1, b2]
  {
    var v1 := (b0 % 4) * 16 + b1 / 16;
    var v2 := (b1 % 16) * 4 + b2 / 64;
    assert v1 / 16 == b0 % 4 && v1 % 16 == b1 / 16;
    assert v2 / 4 == b1 % 16 && v2 % 4 == b2 / 64;
  }

  /** A one-octet tail survives its padded quantum. */
  lemma OneOctetRoundTrip(b: Bytes)
    requires |b| == 1
    ensures Decode(Encode(b)) == Some(b)
  {
    var v1 := (b[0] % 4) * 16;
    assert v1 / 16 == b[0] % 4;
    var s := Encode(b);
    assert s[2] == PAD && s[3] == PAD;
    assert DigitValue(s[0]) == b[0] / 4 && DigitValue(s[1]) == v1;
    assert FirstOctet(b[0] / 4, v1) == b[0];
    assert [b[0]] == b;
  }

  /** A two-octet tail survives its padded quantum. */
  lemma TwoOctetRoundTrip(b: Bytes)
    requires |b| == 2
    ensures Decode(Encode(b)) == Some(b)
  {
    var v1 := (b[0] % 4) * 16 + b[1] / 16;
    var v2 := (b[1] % 16) * 4;
    assert v1 / 16 == b[0] % 4 && v1 % 16 == b[1] / 16;
    assert v2 / 4 == b[1] % 16;
    var s := Encode(b);
    assert s[2] != PAD && s[3] == PAD;
    assert DigitValue(s[0]) == b[0] / 4 && DigitValue(s[1]) == v1 && DigitValue(s[2]) == v2;
    assert FirstOctet(b[0] / 4, v1) == b[0];
    assert SecondOctet(v1, v2) == b[1];
    assert [b[0], b[1]] == b;
  }

  /** A full quantum in front of a decodable string decodes to its three
      octets in front of that string's octets. */
  lemma DecodeFullQuantum(q: string, rest: string)
    requires |q| == 4 && IsDigit(q[0]) && IsDigit(q[1]) && IsDigit(q[2]) && IsDigit(q[3])
    requires Decode(rest).Some?
    ensures Decode(q + rest) == Some(DecodeQuad(q[0], q[1], q[2], q[3]) + Decode(rest).value)
  {
    var s := q + rest;
    assert s[..4] == q && s[4..] == rest;
  }

  /** Decoding undoes encoding. */
  lemma {:induction false} DecodeEncode(b: Bytes)
    ensures Decode(Encode(b)) == Some(b)
    decreases |b|
  {
    if |b| == 1 {
      OneOctetRoundTrip(b);
    } else if |b| == 2 {
      TwoOctetRoundTrip(b);
    } else if |b| >= 3 {
      var head: Bytes := [b[0], b[1], b[2]];
      assert b == head + b[3..];
      var q := EncodeTriple(b[0], b[1], b[2]);
      assert Encode(b) == q + Encode(b[3..]);
      DecodeEncode(b[3..]);
      DecodeFullQuantum(q, Encode(b[3..]));
      TripleRoundTrip(b[0], b[1], b[2]);
    }
  }

  /** Distinct tokens are reported as distinct strings. */
  lemma EncodeInjective(a: Bytes, b: Bytes)
    requires Encode(a) == Encode(b)
    ensures a == b
  {
    DecodeEncode(a);
    DecodeEncode(b);
  }
}
