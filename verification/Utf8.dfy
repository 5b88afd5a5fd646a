/** UTF-8 (section 3 of RFC 3629) and percent-encoding (section 2.1 of RFC 3986), with their inverses. */
module Utf8 {
  import opened Wrappers

  type Byte = b: int | 0 <= b < 256

  /** The octets of one character. */
  function Encode(c: char): (bytes: seq<Byte>)
    ensures 1 <= |bytes| <= 4
  {
    var n := c as int;
    if n < 0x80 then [n]
    else if n < 0x800 then [0xC0 + n / 64, 0x80 + n % 64]
    else if n < 0x1_0000 then [0xE0 + n / 4096, 0x80 + n / 64 % 64, 0x80 + n % 64]
    else [0xF0 + n / 262144, 0x80 + n / 4096 % 64, 0x80 + n / 64 % 64, 0x80 + n % 64]
  }

  /** How many octets a character takes, by its first octet. */
  function Width(lead: Byte): (w: nat)
    ensures 1 <= w <= 4
  {
    if lead < 0xC0 then 1 else if lead < 0xE0 then 2 else if lead < 0xF0 then 3 else 4
  }

  /** The number that the octets of one character spell. */
  function Number(bytes: seq<Byte>): int
    requires 1 <= |bytes| <= 4
  {
    var b: seq<int> := bytes;
    match |b|
    case 1 => b[0]
    case 2 => (b[0] - 0xC0) * 64 + (b[1] - 0x80)
    case 3 => (b[0] - 0xE0) * 4096 + (b[1] - 0x80) * 64 + (b[2] - 0x80)
    case _ => (b[0] - 0xF0) * 262144 + (b[1] - 0x80) * 4096 + (b[2] - 0x80) * 64 + (b[3] - 0x80)
  }

  predicate IsScalar(n: int) { 0 <= n < 0xD800 || 0xE000 <= n < 0x11_0000 }

  function DecodeAll(bytes: seq<Byte>): Option<string> {
    if bytes == [] then Some("")
    else
      var w := Width(bytes[0]);
      if w > |bytes| || !IsScalar(Number(bytes[..w])) then None
      else
        var rest := DecodeAll(bytes[w..]);
        if rest.None? then None else Some([Number(bytes[..w]) as char] + rest.value)
  }

  function EncodeAll(s: string): seq<Byte> {
    if s == "" then [] else Encode(s[0]) + EncodeAll(s[1..])
  }

  lemma EncodedNumber(c: char)
    ensures |Encode(c)| == Width(Encode(c)[0]) && Number(Encode(c)) == c as int
  {
    var n := c as int;
    assert n / 4096 == n / 64 / 64 && n / 262144 == n / 64 / 64 / 64;
  }

  lemma DecodeOne(c: char, rest: seq<Byte>, s: string)
    requires DecodeAll(rest) == Some(s)
    ensures DecodeAll(Encode(c) + rest) == Some([c] + s)
  {
    EncodedNumber(c);
    var first := Encode(c);
    assert (first + rest)[0] == first[0];
    assert (first + rest)[..|first|] == first && (first + rest)[|first|..] == rest;
    assert IsScalar(c as int);
  }

  lemma {:induction false} DecodeIsInverse(s: string)
    ensures DecodeAll(EncodeAll(s)) == Some(s)
  {
    if s != "" {
      DecodeIsInverse(s[1..]);
      DecodeOne(s[0], EncodeAll(s[1..]), s[1..]);
      assert s == [s[0]] + s[1..];
    }
  }

  // ---- percent-encoding --------------------------------------------------------------------------

  function HexDigit(d: int): (c: char)
    requires 0 <= d < 16
    ensures '0' <= c <= '9' || 'A' <= c <= 'F'
  {
    if d < 10 then ('0' as int + d) as char else ('A' as int + d - 10) as char
  }

  function HexValue(c: char): Option<nat> {
    if '0' <= c <= '9' then Some(c as int - '0' as int)
    else if 'A' <= c <= 'F' then Some(c as int - 'A' as int + 10)
    else None
  }

  lemma HexInverse(d: int)
    requires 0 <= d < 16
    ensures HexValue(HexDigit(d)) == Some(d)
  {
  }

  /** One octet as `%XX`. */
  function Percent(b: Byte): (s: string)
    ensures |s| == 3 && s[0] == '%'
  {
    ['%', HexDigit(b / 16), HexDigit(b % 16)]
  }

  function PercentAll(bytes: seq<Byte>): (s: string)
    ensures |s| == 3 * |bytes|
  {
    if bytes == [] then "" else Percent(bytes[0]) + PercentAll(bytes[1..])
  }

  /** The octets that a percent-encoded ASCII string spells. */
  function Unpercent(s: string): Option<seq<Byte>> {
    if s == "" then Some([])
    else if s[0] != '%' then
      var rest := Unpercent(s[1..]);
      if s[0] as int >= 0x80 || rest.None? then None else Some([s[0] as int] + rest.value)
    else if |s| < 3 || HexValue(s[1]).None? || HexValue(s[2]).None? then None
    else
      var rest := Unpercent(s[3..]);
      if rest.None? then None else Some([HexValue(s[1]).value * 16 + HexValue(s[2]).value] + rest.value)
  }

  lemma UnpercentOne(b: Byte, tail: string, bytes: seq<Byte>)
    requires Unpercent(tail) == Some(bytes)
    ensures Unpercent(Percent(b) + tail) == Some([b] + bytes)
  {
    HexInverse(b / 16);
    HexInverse(b % 16);
    var s := Percent(b) + tail;
    assert s[0] == '%' && s[1] == HexDigit(b / 16) && s[2] == HexDigit(b % 16) && s[3..] == tail;
  }

  lemma Assoc<T>(a: seq<T>, b: seq<T>, c: seq<T>)
    ensures (a + b) + c == a + (b + c)
  {
  }

  lemma {:induction false} UnpercentAll(bytes: seq<Byte>, tail: string, spelled: seq<Byte>)
    requires Unpercent(tail) == Some(spelled)
    ensures Unpercent(PercentAll(bytes) + tail) == Some(bytes + spelled)
  {
    if bytes == [] {
      assert PercentAll(bytes) + tail == tail && bytes + spelled == spelled;
    } else {
      var rest := bytes[1..];
      UnpercentAll(rest, tail, spelled);
      UnpercentOne(bytes[0], PercentAll(rest) + tail, rest + spelled);
      Assoc(Percent(bytes[0]), PercentAll(rest), tail);
      Assoc([bytes[0]], rest, spelled);
      assert bytes == [bytes[0]] + rest;
    }
  }
}
