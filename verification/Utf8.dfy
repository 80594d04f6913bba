/** UTF-8 as in section 3 of RFC 3629, and a decoder that refuses everything else. */
module Utf8 {
  import opened Wrappers

  function CharBytes(c: char): Bytes {
    var n := c as int;
    if n < 0x80 then [n as byte]
    else if n < 0x800 then [(0xC0 + n / 0x40) as byte, (0x80 + n % 0x40) as byte]
    else if n < 0x1_0000 then [(0xE0 + n / 0x1000) as byte, (0x80 + n / 0x40 % 0x40) as byte, (0x80 + n % 0x40) as byte]
    else [(0xF0 + n / 0x4_0000) as byte, (0x80 + n / 0x1000 % 0x40) as byte,
          (0x80 + n / 0x40 % 0x40) as byte, (0x80 + n % 0x40) as byte]
  }

  /** `toUtf8()`. */
  function ToUtf8(text: string): Bytes {
    if text == "" then [] else CharBytes(text[0]) + ToUtf8(text[1..])
  }

  lemma {:induction false} ToUtf8Append(a: string, b: string)
    ensures ToUtf8(a + b) == ToUtf8(a) + ToUtf8(b)
  {
    if a == "" {
      assert a + b == b;
    } else {
      assert (a + b)[1..] == a[1..] + b;
      ToUtf8Append(a[1..], b);
    }
  }

  // ---- Decoding ------------------------------------------------------------------

  datatype Head = Bad | Head(c: char, width: nat)

  predicate IsTail(b: byte) {
    0x80 <= b < 0xC0
  }

  function Payload(b: byte): nat {
    b as nat % 0x40
  }

  /** A scalar value that needs this many bytes: no surrogate, and none that fits in fewer. */
  function Scalar(value: nat, width: nat, least: nat): Head {
    if value < least || 0xD800 <= value < 0xE000 || 0x11_0000 <= value then Bad
    else Head(value as char, width)
  }

  function FirstChar(b: Bytes): (h: Head)
    requires b != []
    ensures h.Head? ==> 1 <= h.width <= |b|
  {
    var lead := b[0] as nat;
    if lead < 0x80 then Scalar(lead, 1, 0)
    else if 0xC0 <= lead < 0xE0 && |b| >= 2 && IsTail(b[1]) then
      Scalar((lead - 0xC0) * 0x40 + Payload(b[1]), 2, 0x80)
    else if 0xE0 <= lead < 0xF0 && |b| >= 3 && IsTail(b[1]) && IsTail(b[2]) then
      Scalar((lead - 0xE0) * 0x1000 + Payload(b[1]) * 0x40 + Payload(b[2]), 3, 0x800)
    else if 0xF0 <= lead < 0xF8 && |b| >= 4 && IsTail(b[1]) && IsTail(b[2]) && IsTail(b[3]) then
      Scalar((lead - 0xF0) * 0x4_0000 + Payload(b[1]) * 0x1000 + Payload(b[2]) * 0x40 + Payload(b[3]), 4, 0x1_0000)
    else Bad
  }

  function FromUtf8(b: Bytes): Option<string>
    decreases |b|
  {
    if b == [] then Some("")
    else
      var h := FirstChar(b);
      if h.Bad? then None
      else
        match FromUtf8(b[h.width..])
        case None => None
        case Some(text) => Some([h.c] + text)
  }

  lemma TailPayload(k: nat)
    requires k < 0x40
    ensures IsTail((0x80 + k) as byte) && Payload((0x80 + k) as byte) == k
  {
  }

  lemma ThreeParts(n: nat)
    ensures n == n / 0x1000 * 0x1000 + n / 0x40 % 0x40 * 0x40 + n % 0x40
  {
  }

  lemma FourParts(n: nat)
    ensures n == n / 0x4_0000 * 0x4_0000 + n / 0x1000 % 0x40 * 0x1000 + n / 0x40 % 0x40 * 0x40 + n % 0x40
  {
    ThreeParts(n);
    ThreeParts(n / 0x40);
  }

  lemma {:induction false} ThreeByteChar(c: char, more: Bytes)
    requires 0x800 <= c as int < 0x1_0000
    ensures FirstChar(CharBytes(c) + more) == Head(c, 3)
  {
    var n := c as int;
    var b := CharBytes(c) + more;
    assert b[0] == (0xE0 + n / 0x1000) as byte;
    assert b[1] == (0x80 + n / 0x40 % 0x40) as byte && b[2] == (0x80 + n % 0x40) as byte;
    TailPayload(n / 0x40 % 0x40);
    TailPayload(n % 0x40);
    ThreeParts(n);
  }

  lemma {:induction false} FourByteChar(c: char, more: Bytes)
    requires 0x1_0000 <= c as int
    ensures FirstChar(CharBytes(c) + more) == Head(c, 4)
  {
    var n := c as int;
    var b := CharBytes(c) + more;
    assert b[0] == (0xF0 + n / 0x4_0000) as byte && b[1] == (0x80 + n / 0x1000 % 0x40) as byte;
    assert b[2] == (0x80 + n / 0x40 % 0x40) as byte && b[3] == (0x80 + n % 0x40) as byte;
    TailPayload(n / 0x1000 % 0x40);
    TailPayload(n / 0x40 % 0x40);
    TailPayload(n % 0x40);
    FourParts(n);
  }

  lemma {:induction false} FirstCharOf(c: char, more: Bytes)
    ensures FirstChar(CharBytes(c) + more) == Head(c, |CharBytes(c)|)
  {
    var n := c as int;
    if 0x80 <= n < 0x800 {
      TailPayload(n % 0x40);
    } else if 0x800 <= n < 0x1_0000 {
      ThreeByteChar(c, more);
    } else if 0x1_0000 <= n {
      FourByteChar(c, more);
    }
  }

  /** Every text is what its UTF-8 form decodes to. */
  lemma {:induction false} DecodesBack(text: string)
    ensures FromUtf8(ToUtf8(text)) == Some(text)
  {
    if text != "" {
      var b := ToUtf8(text);
      FirstCharOf(text[0], ToUtf8(text[1..]));
      assert b[|CharBytes(text[0])|..] == ToUtf8(text[1..]);
      DecodesBack(text[1..]);
      assert text == [text[0]] + text[1..];
    }
  }
}
