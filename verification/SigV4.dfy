/** The canonical query string of a signed request: percent-encode every pair, sort, join. */
module SigV4 {
  import opened Wrappers
  import opened Bytes
  import Utf8

  type Pair = (string, string)

  // ----- percent-encoding -----

  predicate Unreserved(c: char) {
    'A' <= c <= 'Z' || 'a' <= c <= 'z' || '0' <= c <= '9' || c == '-' || c == '.' || c == '_' || c == '~'
  }

  predicate PassesThrough(c: char, encodeSlash: bool) {
    Unreserved(c) || (c == '/' && !encodeSlash)
  }

  function HexDigit(n: nat): char
    requires n < 16
  {
    if n < 10 then '0' + n as char else 'A' + (n - 10) as char
  }

  function Percent(b: byte): string {
    ['%', HexDigit(b / 16), HexDigit(b % 16)]
  }

  /** Two digits, in upper case. */
  lemma PercentMeans(b: byte)
    ensures Percent(b) == "%" + ["0123456789ABCDEF"[b / 16], "0123456789ABCDEF"[b % 16]]
  {
    HexDigitMeans(b / 16);
    HexDigitMeans(b % 16);
  }

  lemma HexDigitMeans(n: nat)
    requires n < 16
    ensures HexDigit(n) == "0123456789ABCDEF"[n]
  {
  }

  function PercentAll(b: seq<byte>): string {
    if b == [] then "" else Percent(b[0]) + PercentAll(b[1..])
  }

  function UriEncodeChar(c: char, encodeSlash: bool): string {
    if PassesThrough(c, encodeSlash) then [c] else PercentAll(Utf8.EncodeChar(c))
  }

  function UriEncode(s: string, encodeSlash: bool): string {
    if s == "" then "" else UriEncodeChar(s[0], encodeSlash) + UriEncode(s[1..], encodeSlash)
  }

  lemma PercentFrom(b: seq<byte>, j: nat)
    requires j < |b|
    ensures PercentAll(b[j..]) == Percent(b[j]) + PercentAll(b[j + 1..])
  {
    hide Percent;
    assert b[j..][0] == b[j] && b[j..][1..] == b[j + 1..];
  }

  lemma NothingToEscape()
    ensures PercentAll([]) == ""
  {
  }

  method EscapeChar(c: char) returns (out: string)
    ensures out == PercentAll(Utf8.EncodeChar(c))
  {
    hide Percent, PercentAll, Utf8.EncodeChar;
    NothingToEscape();
    out := "";
    var bytes := Utf8.EncodeChar(c);
    for j := 0 to |bytes|
      invariant out + PercentAll(bytes[j..]) == PercentAll(bytes)
    {
      PercentFrom(bytes, j);
      ghost var rest := PercentAll(bytes[j + 1..]);
      assert out + (Percent(bytes[j]) + rest) == out + Percent(bytes[j]) + rest;
      out := out + Percent(bytes[j]);
    }
    assert bytes[|bytes|..] == [] && out + "" == out;
  }

  method EncodeUri(input: string, encodeSlash: bool) returns (out: string)
    ensures out == UriEncode(input, encodeSlash)
  {
    hide Unreserved, PercentAll, Utf8.EncodeChar;
    out := "";
    for i := 0 to |input|
      invariant out + UriEncode(input[i..], encodeSlash) == UriEncode(input, encodeSlash)
    {
      var c := input[i];
      assert input[i..][0] == c && input[i..][1..] == input[i + 1..];
      if Unreserved(c) {
        out := out + [c];
      } else if c == '/' && !encodeSlash {
        out := out + "/";
      } else {
        var escaped := EscapeChar(c);
        out := out + escaped;
      }
    }
    assert out + "" == out;
  }

  /** The reference encoding of section 2 of RFC 3986: byte by byte over the UTF-8 form. */
  function EncodeBytes(b: seq<byte>, encodeSlash: bool): string {
    if b == [] then ""
    else
      var c := if b[0] < 0x80 && PassesThrough(b[0] as char, encodeSlash) then [b[0] as char] else Percent(b[0]);
      c + EncodeBytes(b[1..], encodeSlash)
  }

  /** Every byte is itself if it is a letter, a digit or one of four marks, or a slash that may stay, and two
      upper-case hexadecimal digits behind a percent sign if it is not. */
  lemma EncodedByteMeans(b: byte, encodeSlash: bool)
    ensures EncodeBytes([b], encodeSlash) ==
            if 65 <= b <= 90 || 97 <= b <= 122 || 48 <= b <= 57 || b in {45, 46, 95, 126} || (b == 47 && !encodeSlash)
            then [b as char]
            else "%" + ["0123456789ABCDEF"[b / 16], "0123456789ABCDEF"[b % 16]]
  {
    hide Percent;
    assert [b][1..] == [];
    PercentMeans(b);
  }

  lemma {:induction false} EncodeBytesConcat(a: seq<byte>, b: seq<byte>, encodeSlash: bool)
    ensures EncodeBytes(a + b, encodeSlash) == EncodeBytes(a, encodeSlash) + EncodeBytes(b, encodeSlash)
  {
    hide PassesThrough, Percent;
    if a == [] {
      assert a + b == b;
    } else {
      assert (a + b)[1..] == a[1..] + b;
      EncodeBytesConcat(a[1..], b, encodeSlash);
    }
  }

  lemma {:induction false} AllEscaped(b: seq<byte>, encodeSlash: bool)
    requires forall i | 0 <= i < |b| :: b[i] >= 0x80 || !PassesThrough(b[i] as char, encodeSlash)
    ensures EncodeBytes(b, encodeSlash) == PercentAll(b)
  {
    hide PassesThrough, Percent;
    if b != [] {
      AllEscaped(b[1..], encodeSlash);
    }
  }

  lemma CharAgrees(c: char, encodeSlash: bool)
    ensures UriEncodeChar(c, encodeSlash) == EncodeBytes(Utf8.EncodeChar(c), encodeSlash)
  {
    hide Percent;
    var b := Utf8.EncodeChar(c);
    if PassesThrough(c, encodeSlash) {
      assert b == [c as int] && b[1..] == [];
    } else {
      AllEscaped(b, encodeSlash);
    }
  }

  /** Encoding character by character is encoding the UTF-8 bytes one by one. */
  lemma {:induction false} PerCharIsPerByte(s: string, encodeSlash: bool)
    ensures UriEncode(s, encodeSlash) == EncodeBytes(Utf8.Encode(s), encodeSlash)
  {
    hide UriEncodeChar, Utf8.EncodeChar;
    if s != "" {
      CharAgrees(s[0], encodeSlash);
      EncodeBytesConcat(Utf8.EncodeChar(s[0]), Utf8.Encode(s[1..]), encodeSlash);
      PerCharIsPerByte(s[1..], encodeSlash);
    }
  }

  // ----- percent-decoding -----

  function HexValue(c: char): (n: Option<nat>)
    ensures n.Some? ==> n.value < 16
  {
    if '0' <= c <= '9' then Some(c as int - '0' as int)
    else if 'A' <= c <= 'F' then Some(c as int - 'A' as int + 10)
    else if 'a' <= c <= 'f' then Some(c as int - 'a' as int + 10)
    else None
  }

  function PercentDecode(t: string): Option<seq<byte>> {
    if t == "" then Some([])
    else if t[0] == '%' then
      if |t| < 3 || HexValue(t[1]).None? || HexValue(t[2]).None? then None
      else match PercentDecode(t[3..])
        case None => None
        case Some(rest) => Some([HexValue(t[1]).value * 16 + HexValue(t[2]).value] + rest)
    else if t[0] as int >= 0x80 then None
    else match PercentDecode(t[1..])
      case None => None
      case Some(rest) => Some([t[0] as int] + rest)
  }

  function UriDecode(t: string): Option<string> {
    match PercentDecode(t)
    case None => None
    case Some(b) => Utf8.Decode(b)
  }

  lemma PercentReads(b: byte, rest: string)
    requires PercentDecode(rest).Some?
    ensures PercentDecode(Percent(b) + rest) == Some([b] + PercentDecode(rest).value)
  {
    var t := Percent(b) + rest;
    assert t[3..] == rest;
    assert HexValue(HexDigit(b / 16)) == Some(b / 16) && HexValue(HexDigit(b % 16)) == Some(b % 16);
  }

  lemma {:induction false} BytesDecode(b: seq<byte>, encodeSlash: bool)
    ensures PercentDecode(EncodeBytes(b, encodeSlash)) == Some(b)
  {
    hide Percent;
    if b != [] {
      BytesDecode(b[1..], encodeSlash);
      var rest := EncodeBytes(b[1..], encodeSlash);
      assert [b[0]] + b[1..] == b;
      if b[0] < 0x80 && PassesThrough(b[0] as char, encodeSlash) {
        assert ([b[0] as char] + rest)[1..] == rest;
      } else {
        PercentReads(b[0], rest);
      }
    }
  }

  /** Percent-decoding undoes the encoding, with slashes escaped or not. */
  lemma UriRoundTrip(s: string, encodeSlash: bool)
    ensures UriDecode(UriEncode(s, encodeSlash)) == Some(s)
  {
    PerCharIsPerByte(s, encodeSlash);
    BytesDecode(Utf8.Encode(s), encodeSlash);
    Utf8.RoundTrip(s);
  }

  // ----- sorting -----

  /** Rust orders strings by their bytes; encoded ones are ASCII. */
  predicate Le(a: string, b: string) {
    a == "" || (b != "" && (a[0] < b[0] || (a[0] == b[0] && Le(a[1..], b[1..]))))
  }

  lemma SameHead(a: string, b: string, n: nat)
    requires 0 < n <= |a| && n <= |b| && a[..n] == b[..n]
    ensures a[0] == b[0]
  {
    assert a[..n][0] == b[..n][0];
  }

  /** A text comes before another if it is a beginning of it, or smaller where they first differ. */
  lemma {:induction false} LeMeans(a: string, b: string)
    ensures Le(a, b) <==> (a <= b || exists n: nat :: n < |a| && n < |b| && a[..n] == b[..n] && a[n] < b[n])
  {
    if a != "" && b != "" {
      LeMeans(a[1..], b[1..]);
      forall n: nat | 0 < n < |a| && n < |b| && a[..n] == b[..n]
        ensures a[0] == b[0]
      {
        SameHead(a, b, n);
      }
      if a[0] == b[0] {
        assert a <= b <==> a[1..] <= b[1..] by {
          assert a == [a[0]] + a[1..] && b == [b[0]] + b[1..];
        }
        if n: nat :| n < |a[1..]| && n < |b[1..]| && a[1..][..n] == b[1..][..n] && a[1..][n] < b[1..][n] {
          assert a[..n + 1] == [a[0]] + a[1..][..n] && b[..n + 1] == [b[0]] + b[1..][..n];
          assert a[n + 1] < b[n + 1];
        }
        if n: nat :| n < |a| && n < |b| && a[..n] == b[..n] && a[n] < b[n] {
          assert n > 0;
          assert a[1..][..n - 1] == a[..n][1..] && b[1..][..n - 1] == b[..n][1..];
          assert a[1..][n - 1] < b[1..][n - 1];
        }
      } else if a[0] < b[0] {
        assert a[..0] == b[..0];
      }
    }
  }

  lemma {:induction false} LeIsTotal(a: string, b: string)
    ensures Le(a, b) || Le(b, a)
    ensures Le(a, b) && Le(b, a) ==> a == b
  {
    if a != "" && b != "" {
      LeIsTotal(a[1..], b[1..]);
      assert a == [a[0]] + a[1..] && b == [b[0]] + b[1..];
    }
  }

  lemma {:induction false} LeIsTransitive(a: string, b: string, c: string)
    requires Le(a, b) && Le(b, c)
    ensures Le(a, c)
  {
    if a != "" && b != "" && a[0] == b[0] == c[0] {
      LeIsTransitive(a[1..], b[1..], c[1..]);
    }
  }

  predicate PairLe(p: Pair, q: Pair) {
    if p.0 == q.0 then Le(p.1, q.1) else Le(p.0, q.0)
  }

  lemma PairLeIsTotal(p: Pair, q: Pair)
    ensures PairLe(p, q) || PairLe(q, p)
    ensures PairLe(p, q) && PairLe(q, p) ==> p == q
  {
    LeIsTotal(p.0, q.0);
    LeIsTotal(p.1, q.1);
  }

  lemma PairLeIsTransitive(p: Pair, q: Pair, r: Pair)
    requires PairLe(p, q) && PairLe(q, r)
    ensures PairLe(p, r)
  {
    hide Le;
    LeIsTotal(p.0, q.0);
    if p.0 == q.0 == r.0 {
      LeIsTransitive(p.1, q.1, r.1);
    } else {
      LeIsReflexive(q.0);
      LeIsTransitive(p.0, q.0, r.0);
    }
  }

  lemma LeIsReflexive(a: string)
    ensures Le(a, a)
  {
    LeIsTotal(a, a);
  }

  predicate Ordered(s: seq<Pair>) {
    forall i, j | 0 <= i < j < |s| :: PairLe(s[i], s[j])
  }

  function Insert(p: Pair, s: seq<Pair>): seq<Pair> {
    if s == [] || PairLe(p, s[0]) then [p] + s else [s[0]] + Insert(p, s[1..])
  }

  function Sorted(s: seq<Pair>): seq<Pair> {
    if s == [] then [] else Insert(s[0], Sorted(s[1..]))
  }

  lemma {:induction false} InsertSorts(p: Pair, s: seq<Pair>)
    requires Ordered(s)
    ensures Ordered(Insert(p, s)) && multiset(Insert(p, s)) == multiset{p} + multiset(s)
  {
    hide PairLe;
    if s == [] {
    } else if PairLe(p, s[0]) {
      forall j | 0 <= j < |s|
        ensures PairLe(p, s[j])
      {
        if j > 0 {
          PairLeIsTransitive(p, s[0], s[j]);
        }
      }
    } else {
      PairLeIsTotal(p, s[0]);
      InsertSorts(p, s[1..]);
      var t := Insert(p, s[1..]);
      assert s == [s[0]] + s[1..];
      forall j | 0 <= j < |t|
        ensures PairLe(s[0], t[j])
      {
        assert t[j] in multiset(t);
        if t[j] != p {
          assert t[j] in s[1..];
        }
      }
    }
  }

  lemma {:induction false} SortedSorts(s: seq<Pair>)
    ensures Ordered(Sorted(s)) && multiset(Sorted(s)) == multiset(s)
  {
    hide PairLe;
    if s != [] {
      SortedSorts(s[1..]);
      InsertSorts(s[0], Sorted(s[1..]));
      assert s == [s[0]] + s[1..];
    }
  }

  lemma HeadsAgree(a: seq<Pair>, b: seq<Pair>)
    requires Ordered(a) && Ordered(b) && multiset(a) == multiset(b) && a != [] && b != []
    ensures a[0] == b[0]
  {
    hide PairLe;
    assert a[0] in multiset(b) && b[0] in multiset(a);
    var i :| 0 <= i < |a| && a[i] == b[0];
    var j :| 0 <= j < |b| && b[j] == a[0];
    PairLeIsTotal(a[0], b[0]);
  }

  lemma RestAgrees(a: seq<Pair>, b: seq<Pair>)
    requires Ordered(a) && Ordered(b) && multiset(a) == multiset(b) && a != [] && b != [] && a[0] == b[0]
    ensures Ordered(a[1..]) && Ordered(b[1..]) && multiset(a[1..]) == multiset(b[1..])
  {
    hide PairLe;
    assert a == [a[0]] + a[1..] && b == [b[0]] + b[1..];
    assert multiset(a[1..]) == multiset(a) - multiset{a[0]} && multiset(b[1..]) == multiset(b) - multiset{b[0]};
  }

  /** Any two sorts give the same: a multiset of pairs has one order. */
  lemma {:induction false} OneOrder(a: seq<Pair>, b: seq<Pair>)
    requires Ordered(a) && Ordered(b) && multiset(a) == multiset(b)
    ensures a == b
    decreases |a|
  {
    hide PairLe;
    if a == [] || b == [] {
      assert |multiset(a)| == |a| && |multiset(b)| == |b|;
    } else {
      HeadsAgree(a, b);
      RestAgrees(a, b);
      OneOrder(a[1..], b[1..]);
      assert a == [a[0]] + a[1..] && b == [b[0]] + b[1..];
    }
  }

  // ----- the query -----

  function EncodedPair(p: Pair): Pair {
    (UriEncode(p.0, true), UriEncode(p.1, true))
  }

  function EncodedPairs(p: seq<Pair>): (e: seq<Pair>)
    ensures |e| == |p|
  {
    if p == [] then [] else [EncodedPair(p[0])] + EncodedPairs(p[1..])
  }

  function Joined(e: seq<Pair>): string {
    if e == [] then ""
    else if |e| == 1 then e[0].0 + "=" + e[0].1
    else e[0].0 + "=" + e[0].1 + "&" + Joined(e[1..])
  }

  /** What is still to be written once `i` pairs are: all but the first are led by their separator. */
  function Remaining(e: seq<Pair>, i: nat): string
    requires i <= |e|
  {
    (if 0 < i < |e| then "&" else "") + Joined(e[i..])
  }

  lemma WriteOne(e: seq<Pair>, i: nat)
    requires i < |e|
    ensures Remaining(e, i) == (if i > 0 then "&" else "") + (e[i].0 + "=" + e[i].1) + Remaining(e, i + 1)
  {
    assert e[i..][0] == e[i] && e[i..][1..] == e[i + 1..];
    var one := e[i].0 + "=" + e[i].1;
    assert Joined(e[i..]) == one + Remaining(e, i + 1);
  }

  lemma WrittenOut(e: seq<Pair>)
    ensures Remaining(e, 0) == Joined(e) && Remaining(e, |e|) == ""
  {
    assert e[0..] == e && e[|e|..] == [];
  }

  function Canonical(p: seq<Pair>): string {
    Joined(Sorted(EncodedPairs(p)))
  }

  method CanonicalQuery(pairs: seq<Pair>) returns (query: string)
    ensures query == Canonical(pairs)
  {
    hide Sorted;
    var encoded := EncodePairs(pairs);
    query := JoinPairs(Sorted(encoded));
  }

  method EncodePairs(pairs: seq<Pair>) returns (encoded: seq<Pair>)
    ensures encoded == EncodedPairs(pairs)
  {
    hide UriEncode;
    encoded := [];
    for i := 0 to |pairs|
      invariant encoded + EncodedPairs(pairs[i..]) == EncodedPairs(pairs)
    {
      assert pairs[i..][0] == pairs[i] && pairs[i..][1..] == pairs[i + 1..];
      var k := EncodeUri(pairs[i].0, true);
      var v := EncodeUri(pairs[i].1, true);
      encoded := encoded + [(k, v)];
    }
    assert encoded + [] == encoded;
  }

  method JoinPairs(encoded: seq<Pair>) returns (query: string)
    ensures query == Joined(encoded)
  {
    hide Remaining, Joined;
    WrittenOut(encoded);
    query := "";
    for i := 0 to |encoded|
      invariant query + Remaining(encoded, i) == Joined(encoded)
    {
      WriteOne(encoded, i);
      ghost var before := query;
      if i > 0 {
        query := query + "&";
      }
      query := query + encoded[i].0 + "=" + encoded[i].1;
      ghost var one := (if i > 0 then "&" else "") + (encoded[i].0 + "=" + encoded[i].1);
      assert query == before + one;
      assert before + (one + Remaining(encoded, i + 1)) == query + Remaining(encoded, i + 1);
    }
    assert query + "" == query;
  }

  // ----- reading a query back -----

  function IndexOf(t: string, c: char): (i: nat)
    ensures i <= |t| && (i < |t| ==> t[i] == c) && c !in t[..i]
  {
    if t == "" || t[0] == c then 0 else
      var i := IndexOf(t[1..], c) + 1;
      assert t[..i] == [t[0]] + t[1..][..i - 1];
      i
  }

  function ReadPair(t: string): Option<Pair> {
    var i := IndexOf(t, '=');
    if i == |t| then None
    else match (UriDecode(t[..i]), UriDecode(t[i + 1..]))
      case (Some(k), Some(v)) => Some((k, v))
      case _ => None
  }

  /** Split on `&`, split each piece at its `=`, and decode both sides; no text means no pairs. */
  function ReadQuery(t: string): Option<seq<Pair>>
    decreases |t|
  {
    if t == "" then Some([])
    else
      var i := IndexOf(t, '&');
      match ReadPair(t[..i])
      case None => None
      case Some(p) =>
        if i == |t| then Some([p])
        else match ReadQuery(t[i + 1..])
          case None => None
          case Some(rest) => Some([p] + rest)
  }

  predicate Plain(t: string) {
    '&' !in t && '=' !in t
  }

  lemma {:induction false} EncodedIsPlain(b: seq<byte>)
    ensures Plain(EncodeBytes(b, true))
  {
    if b != [] {
      EncodedIsPlain(b[1..]);
      assert Plain(Percent(b[0]));
    }
  }

  lemma {:induction false} IndexOfFirst(front: string, c: char, rest: string)
    requires c !in front
    ensures IndexOf(front + [c] + rest, c) == |front|
  {
    if front != "" {
      assert front[0] in front;
      assert (front + [c] + rest)[1..] == front[1..] + [c] + rest;
      IndexOfFirst(front[1..], c, rest);
    }
  }

  lemma IndexOfNone(t: string, c: char)
    requires c !in t
    ensures IndexOf(t, c) == |t|
  {
  }

  lemma PairReadsBack(p: Pair)
    ensures var t := EncodedPair(p).0 + "=" + EncodedPair(p).1;
            '&' !in t && t != "" && ReadPair(t) == Some(p)
  {
    hide UriEncode, UriDecode, EncodeBytes;
    var (k, v) := EncodedPair(p);
    PerCharIsPerByte(p.0, true);
    PerCharIsPerByte(p.1, true);
    EncodedIsPlain(Utf8.Encode(p.0));
    EncodedIsPlain(Utf8.Encode(p.1));
    var t := k + "=" + v;
    IndexOfFirst(k, '=', v);
    assert t[..|k|] == k && t[|k| + 1..] == v;
    UriRoundTrip(p.0, true);
    UriRoundTrip(p.1, true);
  }

  lemma {:induction false} JoinedReadsBack(p: seq<Pair>)
    ensures ReadQuery(Joined(EncodedPairs(p))) == Some(p)
  {
    hide EncodedPair, ReadPair, IndexOf;
    if p != [] {
      var e := EncodedPairs(p);
      var t := e[0].0 + "=" + e[0].1;
      PairReadsBack(p[0]);
      if |p| == 1 {
        IndexOfNone(t, '&');
        assert t[..|t|] == t && p == [p[0]];
      } else {
        JoinedReadsBack(p[1..]);
        assert e[1..] == EncodedPairs(p[1..]);
        var rest := Joined(e[1..]);
        IndexOfFirst(t, '&', rest);
        var whole := t + "&" + rest;
        assert whole[..|t|] == t && whole[|t| + 1..] == rest;
        assert p == [p[0]] + p[1..];
      }
    }
  }

  lemma {:induction false} EncodedAt(p: seq<Pair>, i: nat)
    requires i < |p|
    ensures EncodedPairs(p)[i] == EncodedPair(p[i])
  {
    hide EncodedPair;
    if i > 0 {
      EncodedAt(p[1..], i - 1);
    }
  }

  lemma EncodedFirst(p: seq<Pair>)
    requires p != []
    ensures multiset(EncodedPairs(p)) == multiset{EncodedPair(p[0])} + multiset(EncodedPairs(p[1..]))
  {
    hide EncodedPair;
    assert EncodedPairs(p) == [EncodedPair(p[0])] + EncodedPairs(p[1..]);
  }

  lemma {:induction false} EncodedWithout(p: seq<Pair>, i: nat)
    requires i < |p|
    ensures multiset(EncodedPairs(p)) == multiset{EncodedPair(p[i])} + multiset(EncodedPairs(p[..i] + p[i + 1..]))
  {
    hide EncodedPair, EncodedPairs;
    if i == 0 {
      assert p[..0] + p[1..] == p[1..];
      EncodedFirst(p);
    } else {
      EncodedWithout(p[1..], i - 1);
      var q, r := p[..i] + p[i + 1..], p[1..][..i - 1] + p[1..][i..];
      assert q[0] == p[0] && q[1..] == r;
      EncodedFirst(p);
      EncodedFirst(q);
    }
  }

  lemma Without(p: seq<Pair>, i: nat)
    requires i < |p|
    ensures multiset(p[..i] + p[i + 1..]) == multiset(p) - multiset{p[i]}
  {
    assert p == p[..i] + [p[i]] + p[i + 1..];
  }

  /** Reordering the pairs reorders their encodings, */
  lemma {:induction false} EncodedPermutes(p: seq<Pair>, q: seq<Pair>)
    requires multiset(p) == multiset(q)
    ensures multiset(EncodedPairs(p)) == multiset(EncodedPairs(q))
    decreases |p|
  {
    hide EncodedPair;
    if p == [] || q == [] {
      assert |multiset(p)| == |p| && |multiset(q)| == |q|;
    } else {
      assert p[0] in multiset(q);
      var i :| 0 <= i < |q| && q[i] == p[0];
      Without(q, i);
      assert p == [p[0]] + p[1..];
      EncodedPermutes(p[1..], q[..i] + q[i + 1..]);
      EncodedWithout(q, i);
    }
  }

  lemma PickEncoded(p: seq<Pair>, x: Pair) returns (i: nat)
    requires x in multiset(EncodedPairs(p))
    ensures i < |p| && x == EncodedPair(p[i])
    ensures multiset(EncodedPairs(p[..i] + p[i + 1..])) == multiset(EncodedPairs(p)) - multiset{x}
  {
    hide EncodedPair, EncodedPairs;
    i :| 0 <= i < |p| && EncodedPairs(p)[i] == x;
    EncodedAt(p, i);
    EncodedWithout(p, i);
  }

  lemma NothingEncoded(p: seq<Pair>, e: seq<Pair>)
    requires multiset(e) == multiset(EncodedPairs(p)) && e == []
    ensures p == []
  {
    assert |multiset(e)| == |e| && |multiset(EncodedPairs(p))| == |p|;
  }

  /** and every reordering of the encodings encodes some reordering of the pairs. */
  lemma {:induction false} PermutedEncodes(p: seq<Pair>, e: seq<Pair>) returns (q: seq<Pair>)
    requires multiset(e) == multiset(EncodedPairs(p))
    ensures EncodedPairs(q) == e && multiset(q) == multiset(p)
    decreases |e|
  {
    hide EncodedPair, EncodedPairs;
    if e == [] {
      NothingEncoded(p, e);
      EncodedNothing();
      return [];
    }
    HeadAndRest(e);
    var i := PickEncoded(p, e[0]);
    Without(p, i);
    var rest := PermutedEncodes(p[..i] + p[i + 1..], e[1..]);
    q := [p[i]] + rest;
    EncodedCons(p[i], rest);
    assert p[i] in multiset(p);
  }

  lemma HeadAndRest(e: seq<Pair>)
    requires e != []
    ensures e[0] in multiset(e) && e == [e[0]] + e[1..] && multiset(e[1..]) == multiset(e) - multiset{e[0]}
  {
    assert e == [e[0]] + e[1..];
  }

  lemma EncodedCons(p: Pair, rest: seq<Pair>)
    ensures EncodedPairs([p] + rest) == [EncodedPair(p)] + EncodedPairs(rest)
  {
    assert ([p] + rest)[1..] == rest;
  }

  lemma EncodedNothing()
    ensures EncodedPairs([]) == []
  {
  }

  // ----- main results -----

  /** Reading the canonical query gives back exactly the pairs that went in, each as often. */
  lemma QueryReadsBack(p: seq<Pair>)
    ensures ReadQuery(Canonical(p)).Some? && multiset(ReadQuery(Canonical(p)).value) == multiset(p)
  {
    hide EncodedPairs, Joined, ReadQuery;
    SortedSorts(EncodedPairs(p));
    var q := PermutedEncodes(p, Sorted(EncodedPairs(p)));
    JoinedReadsBack(q);
  }

  /** Two requests have the same canonical query exactly when they carry the same pairs, in any order. */
  lemma SameQueryIffSamePairs(p: seq<Pair>, q: seq<Pair>)
    ensures Canonical(p) == Canonical(q) <==> multiset(p) == multiset(q)
  {
    hide EncodedPairs, Joined, ReadQuery, Ordered;
    QueryReadsBack(p);
    QueryReadsBack(q);
    if multiset(p) == multiset(q) {
      EncodedPermutes(p, q);
      SortedSorts(EncodedPairs(p));
      SortedSorts(EncodedPairs(q));
      OneOrder(Sorted(EncodedPairs(p)), Sorted(EncodedPairs(q)));
    }
  }
}
