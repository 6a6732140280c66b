/** The standard Base64 alphabet with mandatory padding (section 4 of RFC 4648). */
module Base64 {
  import opened Wrappers
  import opened Bytes

  type sextet = n: int | 0 <= n < 64

  function Symbol(n: sextet): (c: char) {
    if n < 26 then (n + 'A' as int) as char
    else if n < 52 then (n - 26 + 'a' as int) as char
    else if n < 62 then (n - 52 + '0' as int) as char
    else if n == 62 then '+'
    else '/'
  }

  function SymbolValue(c: char): (r: Option<sextet>)
    ensures r.Some? ==> Symbol(r.value) == c
  {
    if 'A' <= c <= 'Z' then Some(c as int - 'A' as int)
    else if 'a' <= c <= 'z' then Some(c as int - 'a' as int + 26)
    else if '0' <= c <= '9' then Some(c as int - '0' as int + 52)
    else if c == '+' then Some(62)
    else if c == '/' then Some(63)
    else None
  }

  lemma SymbolRoundTrip(n: sextet)
    ensures SymbolValue(Symbol(n)) == Some(n)
    ensures Symbol(n) != '='
  {
  }

  /** Three bytes as four six-bit symbols. */
  function EncodeQuad(b0: byte, b1: byte, b2: byte): (q: string)
    ensures |q| == 4
  {
    [Symbol(b0 / 4), Symbol(b0 % 4 * 16 + b1 / 16), Symbol(b1 % 16 * 4 + b2 / 64), Symbol(b2 % 64)]
  }

  function Encode(b: seq<byte>): (s: string)
    ensures s == "" <==> b == []
  {
    if b == [] then ""
    else if |b| == 1 then EncodeQuad(b[0], 0, 0)[..2] + "=="
    else if |b| == 2 then EncodeQuad(b[0], b[1], 0)[..3] + "="
    else EncodeQuad(b[0], b[1], b[2]) + Encode(b[3..])
  }

  function Join(v0: nat, v1: nat, v2: nat, v3: nat): (b: (byte, byte, byte))
    requires v0 < 64 && v1 < 64 && v2 < 64 && v3 < 64
    ensures b.0 / 4 == v0 && b.0 % 4 * 16 + b.1 / 16 == v1
    ensures b.1 % 16 * 4 + b.2 / 64 == v2 && b.2 % 64 == v3
  {
    (v0 * 4 + v1 / 16, v1 % 16 * 16 + v2 / 4, v2 % 4 * 64 + v3)
  }

  lemma JoinSplit(b0: byte, b1: byte, b2: byte)
    ensures Join(b0 / 4, b0 % 4 * 16 + b1 / 16, b1 % 16 * 4 + b2 / 64, b2 % 64) == (b0, b1, b2)
  {
  }

  /** Three bytes out of four symbols. */
  function DecodeQuad(q: string): (r: Option<(byte, byte, byte)>)
    requires |q| == 4
    ensures r.Some? ==> EncodeQuad(r.value.0, r.value.1, r.value.2) == q
  {
    match (SymbolValue(q[0]), SymbolValue(q[1]), SymbolValue(q[2]), SymbolValue(q[3]))
    case (Some(v0), Some(v1), Some(v2), Some(v3)) => Some(Join(v0, v1, v2, v3))
    case _ => None
  }

  /** Strict decoding: padding must be canonical and the bits under it zero. */
  function Decode(s: string): (r: Option<seq<byte>>) {
    if s == "" then Some([])
    else if |s| < 4 then None
    else if |s| == 4 && s[2..] == "==" then
      match DecodeQuad(s[..2] + "AA")
      case Some((b0, b1, _)) => if b1 == 0 then Some([b0]) else None
      case None => None
    else if |s| == 4 && s[3] == '=' then
      match DecodeQuad(s[..3] + "A")
      case Some((b0, b1, b2)) => if b2 == 0 then Some([b0, b1]) else None
      case None => None
    else
      match DecodeQuad(s[..4])
      case None => None
      case Some((b0, b1, b2)) =>
        match Decode(s[4..])
        case None => None
        case Some(rest) => Some([b0, b1, b2] + rest)
  }

  predicate AllSymbols(s: string) {
    forall i | 0 <= i < |s| :: s[i] == '=' || SymbolValue(s[i]).Some?
  }

  lemma QuadRoundTrip(b0: byte, b1: byte, b2: byte)
    ensures DecodeQuad(EncodeQuad(b0, b1, b2)) == Some((b0, b1, b2))
    ensures forall i | 0 <= i < 4 :: EncodeQuad(b0, b1, b2)[i] != '='
    ensures AllSymbols(EncodeQuad(b0, b1, b2))
  {
    SymbolRoundTrip(b0 / 4);
    SymbolRoundTrip(b0 % 4 * 16 + b1 / 16);
    SymbolRoundTrip(b1 % 16 * 4 + b2 / 64);
    SymbolRoundTrip(b2 % 64);
    JoinSplit(b0, b1, b2);
  }

  lemma DecodeOneByte(b: byte)
    ensures Decode(Encode([b])) == Some([b])
  {
    QuadRoundTrip(b, 0, 0);
    var s := Encode([b]);
    assert s == EncodeQuad(b, 0, 0)[..2] + "==";
    assert s[..2] + "AA" == EncodeQuad(b, 0, 0);
    assert s[2..] == "==";
  }

  lemma DecodeTwoBytes(b0: byte, b1: byte)
    ensures Decode(Encode([b0, b1])) == Some([b0, b1])
  {
    QuadRoundTrip(b0, b1, 0);
    var s := Encode([b0, b1]);
    assert s == EncodeQuad(b0, b1, 0)[..3] + "=";
    assert s[..3] + "A" == EncodeQuad(b0, b1, 0);
    assert s[2] == EncodeQuad(b0, b1, 0)[2] && s[2..][0] == s[2];
  }

  lemma DecodeThreeBytes(b0: byte, b1: byte, b2: byte, rest: seq<byte>)
    requires Decode(Encode(rest)) == Some(rest)
    ensures Decode(Encode([b0, b1, b2] + rest)) == Some([b0, b1, b2] + rest)
  {
    var b := [b0, b1, b2] + rest;
    var q := EncodeQuad(b0, b1, b2);
    assert b[3..] == rest;
    var s := Encode(b);
    assert s == q + Encode(rest);
    QuadRoundTrip(b0, b1, b2);
    assert s[..4] == q && s[4..] == Encode(rest);
    assert s[2..][1] == q[3];
  }

  lemma DecodeNothing()
    ensures Decode(Encode([])) == Some([])
  {
  }

  /** Every byte string survives. */
  lemma {:induction false} RoundTrip(b: seq<byte>)
    ensures Decode(Encode(b)) == Some(b)
  {
    hide Decode, Encode;
    if b == [] {
      DecodeNothing();
    } else if |b| == 1 {
      assert b == [b[0]];
      DecodeOneByte(b[0]);
    } else if |b| == 2 {
      assert b == [b[0], b[1]];
      DecodeTwoBytes(b[0], b[1]);
    } else {
      RoundTrip(b[3..]);
      DecodeThreeBytes(b[0], b[1], b[2], b[3..]);
      assert [b[0], b[1], b[2]] + b[3..] == b;
    }
  }

  /** The text uses nothing but the alphabet and `=`, so it needs no XML escaping. */
  lemma {:induction false} EncodedSymbols(b: seq<byte>)
    ensures AllSymbols(Encode(b))
  {
    if |b| == 1 {
      QuadRoundTrip(b[0], 0, 0);
    } else if |b| == 2 {
      QuadRoundTrip(b[0], b[1], 0);
    } else if |b| > 2 {
      QuadRoundTrip(b[0], b[1], b[2]);
      EncodedSymbols(b[3..]);
    }
  }

  /** Strictness: text that decodes is exactly the encoding of its value. */
  lemma {:induction false} DecodeIsInverse(s: string)
    ensures Decode(s).Some? ==> Encode(Decode(s).value) == s
  {
    if s == "" || |s| < 4 {
    } else if |s| == 4 && s[2..] == "==" {
      assert s == s[..2] + "==";
      if Decode(s).Some? {
        var (b0, b1, b2) := DecodeQuad(s[..2] + "AA").value;
        assert b1 % 16 == 0;
        assert EncodeQuad(b0, b1, b2)[..2] == s[..2];
        assert EncodeQuad(b0, 0, 0)[..2] == s[..2];
      }
    } else if |s| == 4 && s[3] == '=' {
      assert s == s[..3] + "=";
      if Decode(s).Some? {
        var (b0, b1, b2) := DecodeQuad(s[..3] + "A").value;
        assert EncodeQuad(b0, b1, b2)[..3] == s[..3];
      }
    } else {
      DecodeIsInverse(s[4..]);
      assert s == s[..4] + s[4..];
      if Decode(s).Some? {
        var d := Decode(s).value;
        var (b0, b1, b2) := DecodeQuad(s[..4]).value;
        assert d[3..] == Decode(s[4..]).value;
        if d[3..] == [] {
          assert s[4..] == "";
        }
      }
    }
  }
}
