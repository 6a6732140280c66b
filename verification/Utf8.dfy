/** UTF-8 (section 3 of RFC 3629): Rust's `String::into_bytes` and `String::from_utf8`. */
module Utf8 {
  import opened Wrappers
  import opened Bytes

  function EncodeChar(c: char): (b: seq<byte>)
    ensures 1 <= |b| <= 4
  {
    var n := c as int;
    if n < 0x80 then [n]
    else if n < 0x800 then [0xC0 + n / 0x40, 0x80 + n % 0x40]
    else if n < 0x10000 then [0xE0 + n / 0x1000, 0x80 + n / 0x40 % 0x40, 0x80 + n % 0x40]
    else [0xF0 + n / 0x40000, 0x80 + n / 0x1000 % 0x40, 0x80 + n / 0x40 % 0x40, 0x80 + n % 0x40]
  }

  function Encode(s: string): (b: seq<byte>)
    ensures b == [] <==> s == ""
  {
    if s == "" then [] else EncodeChar(s[0]) + Encode(s[1..])
  }

  predicate Continuation(b: byte) {
    0x80 <= b < 0xC0
  }

  predicate Scalar(n: int) {
    0 <= n < 0xD800 || 0xE000 <= n < 0x11_0000
  }

  /** `lead * 64 + (the six payload bits of a continuation byte)`. */
  function Extend(lead: nat, b: byte): (n: nat)
    requires Continuation(b)
    ensures n / 0x40 == lead && 0x80 + n % 0x40 == b
  {
    var payload: nat := b as int - 0x80;
    lead * 0x40 + payload
  }

  function Three(b: seq<byte>): (r: Option<(char, nat)>)
    requires |b| >= 3 && 0xE0 <= b[0] < 0xF0
    ensures r.Some? ==> r.value.1 == 3 && EncodeChar(r.value.0) == b[..3]
  {
    if Continuation(b[1]) && Continuation(b[2]) then
      var n := Extend(Extend(b[0] - 0xE0, b[1]), b[2]);
      if n >= 0x800 && Scalar(n) then Some((n as char, 3)) else None
    else None
  }

  function Four(b: seq<byte>): (r: Option<(char, nat)>)
    requires |b| >= 4 && 0xF0 <= b[0] < 0xF8
    ensures r.Some? ==> r.value.1 == 4 && EncodeChar(r.value.0) == b[..4]
  {
    if Continuation(b[1]) && Continuation(b[2]) && Continuation(b[3]) then
      var n := Extend(Extend(Extend(b[0] - 0xF0, b[1]), b[2]), b[3]);
      if n >= 0x10000 && Scalar(n) then Some((n as char, 4)) else None
    else None
  }

  /** The first character of `b` with the number of bytes it occupies; overlong forms, surrogates,
      stray continuation bytes and truncated sequences are refused. */
  function DecodeChar(b: seq<byte>): (r: Option<(char, nat)>)
    ensures r.Some? ==> 1 <= r.value.1 <= |b|
    ensures r.Some? ==> EncodeChar(r.value.0) == b[..r.value.1]
  {
    if b == [] then None
    else
      var lead: int := b[0];
      if lead < 0x80 then Some((lead as char, 1))
      else if |b| >= 2 && 0xC2 <= lead < 0xE0 && Continuation(b[1]) then
        Some((Extend(lead - 0xC0, b[1]) as char, 2))
      else if |b| >= 3 && 0xE0 <= lead < 0xF0 then Three(b)
      else if |b| >= 4 && 0xF0 <= lead < 0xF8 then Four(b)
      else None
  }

  function Decode(b: seq<byte>): (r: Option<string>) {
    if b == [] then Some("")
    else match DecodeChar(b)
      case None => None
      case Some((c, n)) =>
        match Decode(b[n..])
        case None => None
        case Some(rest) => Some([c] + rest)
  }

  lemma ExtendSplit(n: nat)
    ensures n == n / 0x40 * 0x40 + n % 0x40
    ensures n / 0x1000 == n / 0x40 / 0x40 && n / 0x40000 == n / 0x40 / 0x40 / 0x40
    ensures n / 0x1000 % 0x40 == n / 0x40 / 0x40 % 0x40
  {
  }

  lemma DecodeEncodedChar(c: char, rest: seq<byte>)
    ensures DecodeChar(EncodeChar(c) + rest) == Some((c, |EncodeChar(c)|))
  {
    var n := c as int;
    var e := EncodeChar(c);
    var b := e + rest;
    assert forall i | 0 <= i < |e| :: b[i] == e[i];
    ExtendSplit(n);
    if n >= 0x80 {
      assert Extend(n / 0x40, b[|e| - 1]) == n;
    }
    if n >= 0x800 {
      assert Extend(n / 0x1000, b[|e| - 2]) == n / 0x40;
    }
    if n >= 0x10000 {
      assert Extend(n / 0x40000, b[1]) == n / 0x1000;
    }
  }

  /** Every string survives encoding. */
  lemma {:induction false} RoundTrip(s: string)
    ensures Decode(Encode(s)) == Some(s)
  {
    if s != "" {
      RoundTrip(s[1..]);
      DecodeEncodedChar(s[0], Encode(s[1..]));
      var b := Encode(s);
      assert b[|EncodeChar(s[0])|..] == Encode(s[1..]);
      assert [s[0]] + s[1..] == s;
    }
  }

  /** Whatever decodes is the encoding of what it decodes to, so decoding is injective. */
  lemma {:induction false} DecodeIsInverse(b: seq<byte>)
    ensures Decode(b).Some? ==> Encode(Decode(b).value) == b
  {
    hide DecodeChar, EncodeChar;
    if b != [] && DecodeChar(b).Some? {
      var (c, n) := DecodeChar(b).value;
      DecodeIsInverse(b[n..]);
      if Decode(b).Some? {
        var s := Decode(b).value;
        assert s[1..] == Decode(b[n..]).value;
        assert b == b[..n] + b[n..];
      }
    }
  }
}
