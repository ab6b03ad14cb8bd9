/** UTF-8 (section 3 of RFC 3629): the bytes whose number Go's len gives for a string. */
module Utf8 {
  import opened Numbers
  import opened Results
  import opened Text

  /** The bytes of a rune. */
  function EncodeRune(c: char): (bytes: seq<Byte>) {
    var r := c as int;
    if r < 0x80 then [r]
    else if r < 0x800 then [0xC0 + r / 0x40, 0x80 + r % 0x40]
    else if r < 0x1_0000 then [0xE0 + r / 0x1000, 0x80 + r / 0x40 % 0x40, 0x80 + r % 0x40]
    else [0xF0 + r / 0x4_0000, 0x80 + r / 0x1000 % 0x40, 0x80 + r / 0x40 % 0x40, 0x80 + r % 0x40]
  }

  function Encode(s: string): seq<Byte> {
    if s == "" then [] else EncodeRune(s[0]) + Encode(s[1..])
  }

  /** A byte that continues a rune. */
  predicate Continues(b: Byte) {
    0x80 <= b < 0xC0
  }

  /** A code point that is a rune: not a surrogate, and not past the last one. */
  predicate IsRune(r: int) {
    0 <= r < 0xD800 || 0xE000 <= r < 0x11_0000
  }

  /** The first rune of the bytes and how many bytes it takes; None if it is cut short, overlong or no rune. */
  function DecodeRune(bytes: seq<Byte>): (r: Option<(char, nat)>)
    ensures r.Some? ==> 1 <= r.value.1 <= |bytes|
  {
    if bytes == [] then None
    else
      var b: int := bytes[0];
      var n := if b < 0xC0 then 1 else if b < 0xE0 then 2 else if b < 0xF0 then 3 else 4;
      if b < 0x80 then Some((b as char, 1))
      else if b < 0xC0 || b >= 0xF8 || |bytes| < n || (exists i | 0 < i < n :: !Continues(bytes[i])) then None
      else
        var x: int := bytes[1];
        if n == 2 then
          var r := (b - 0xC0) * 0x40 + (x - 0x80);
          if r < 0x80 then None else Some((r as char, 2))
        else
          var y: int := bytes[2];
          if n == 3 then
            var r := (b - 0xE0) * 0x1000 + (x - 0x80) * 0x40 + (y - 0x80);
            if r < 0x800 || !IsRune(r) then None else Some((r as char, 3))
          else
            var z: int := bytes[3];
            var r := (b - 0xF0) * 0x4_0000 + (x - 0x80) * 0x1000 + (y - 0x80) * 0x40 + (z - 0x80);
            if r < 0x1_0000 || !IsRune(r) then None else Some((r as char, 4))
  }

  function Decode(bytes: seq<Byte>): Option<string> {
    if bytes == [] then Some("")
    else
      match DecodeRune(bytes)
      case None => None
      case Some((c, n)) =>
        match Decode(bytes[n..])
        case None => None
        case Some(rest) => Some([c] + rest)
  }

  /** A rune takes as many bytes as Width says, and is decoded from them whatever follows. */
  lemma RuneRoundTrip(c: char, rest: seq<Byte>)
    ensures |EncodeRune(c)| == Width(c)
    ensures DecodeRune(EncodeRune(c) + rest) == Some((c, Width(c)))
  {
    var r := c as int;
    var bytes := EncodeRune(c) + rest;
    assert forall i | 0 <= i < Width(c) :: bytes[i] == EncodeRune(c)[i];
    SixBits(r);
    SixBits(r / 0x40);
    SixBits(r / 0x1000);
    assert r / 0x40 / 0x40 == r / 0x1000 && r / 0x1000 / 0x40 == r / 0x4_0000;
  }

  lemma SixBits(r: int)
    requires r >= 0
    ensures r == r / 0x40 * 0x40 + r % 0x40 && 0 <= r % 0x40 < 0x40
  {
  }

  /** What a string's length in bytes counts: bytes that give the string back. */
  lemma {:induction false} StringRoundTrip(s: string)
    ensures Decode(Encode(s)) == Some(s) && |Encode(s)| == ByteLen(s)
  {
    hide EncodeRune, DecodeRune, Width;
    if s != "" {
      RuneRoundTrip(s[0], Encode(s[1..]));
      StringRoundTrip(s[1..]);
      assert Encode(s)[Width(s[0])..] == Encode(s[1..]);
      assert [s[0]] + s[1..] == s;
    }
  }
}
