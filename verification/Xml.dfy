/** XML as the importer sees it: a list of reader events, and the text such a list is printed as. */
module Xml {
  import opened Wrappers
  import opened KdbxTypes

  /** A piece of character data: literal characters, or a reference such as `lt` or `#60`. */
  datatype Run = Chars(text: string) | Reference(name: string)

  /** One event of the reader. `protectedTrue` says the start tag carries `Protected="True"`; `Prolog`
      is the declaration, standing for every event the importer ignores; `Fault` is an event at which
      the reader, or the decoding of its bytes, fails. */
  datatype Event =
    | Start(name: string, protectedTrue: bool)
    | End(name: string)
    | Content(run: Run)
    | Prolog(text: string)
    | Fault(error: KdbxError)

  // ----- references (section 4.6 of XML 1.0) -----

  function DigitValue(c: char, radix: nat): (r: Option<nat>)
    ensures r.Some? ==> r.value < radix
  {
    var v := if '0' <= c <= '9' then c as int - '0' as int
             else if 'a' <= c <= 'f' then c as int - 'a' as int + 10
             else if 'A' <= c <= 'F' then c as int - 'A' as int + 10
             else radix;
    if v < radix then Some(v) else None
  }

  function ParseNumber(s: string, radix: nat): Option<nat> {
    if s == "" then None
    else match DigitValue(s[|s| - 1], radix)
      case None => None
      case Some(d) =>
        if |s| == 1 then Some(d)
        else match ParseNumber(s[..|s| - 1], radix)
          case None => None
          case Some(n) => Some(n * radix + d)
  }

  /** What a reference stands for: a character reference, or one of the five predefined entities. */
  function Resolve(name: string): Option<string> {
    if name != "" && name[0] == '#' then
      var code := if |name| > 1 && name[1] == 'x' then ParseNumber(name[2..], 16) else ParseNumber(name[1..], 10);
      match code
      case None => None
      case Some(n) =>
        if 0 < n < 0xD800 || 0xE000 <= n < 0x11_0000 then Some([n as char]) else None
    else if name == "lt" then Some("<")
    else if name == "gt" then Some(">")
    else if name == "amp" then Some("&")
    else if name == "apos" then Some("'")
    else if name == "quot" then Some("\"")
    else None
  }

  /** A number in its digits, with any number of zeros before it. */
  function Numeral(n: nat, radix: nat, digits: string, zeros: nat): string
    requires |digits| == radix >= 2
    decreases n, zeros
  {
    if zeros > 0 then "0" + Numeral(n, radix, digits, zeros - 1)
    else (if n < radix then "" else Numeral(n / radix, radix, digits, 0)) + [digits[n % radix]]
  }

  const DECIMAL := "0123456789"
  const HEX_LOWER := "0123456789abcdef"
  const HEX_UPPER := "0123456789ABCDEF"

  lemma DigitsCount(d: nat)
    ensures d < 10 ==> DigitValue(DECIMAL[d], 10) == Some(d)
    ensures d < 16 ==> DigitValue(HEX_LOWER[d], 16) == Some(d) && DigitValue(HEX_UPPER[d], 16) == Some(d)
  {
  }

  lemma {:induction false} NumeralsParse(n: nat, radix: nat, digits: string)
    requires |digits| == radix >= 2 && forall d: nat | d < radix :: DigitValue(digits[d], radix) == Some(d)
    ensures ParseNumber(Numeral(n, radix, digits, 0), radix) == Some(n)
    decreases n
  {
    hide DigitValue, ParseNumber, Numeral;
    NumeralLast(n, radix, digits);
    DivMod(n, radix);
    var q, d: nat := n / radix, n % radix;
    assert DigitValue(digits[d], radix) == Some(d);
    if n >= radix {
      NumeralsParse(q, radix, digits);
      ParseLast(Numeral(q, radix, digits, 0), digits[d], radix, q, d);
    } else {
      ParseOne(digits[d], radix);
    }
  }

  lemma DivMod(n: nat, r: nat)
    requires r >= 2
    ensures n == n / r * r + n % r && 0 <= n % r < r && n / r >= 0
    ensures n >= r ==> n / r < n
    ensures n < r ==> n % r == n
  {
    var q, m := n / r, n % r;
    assert n == q * r + m;
    QuotientBounds(n, r, q, m);
  }

  lemma QuotientBounds(n: nat, r: nat, q: int, m: nat)
    requires r >= 2 && n == q * r + m && m < r
    ensures q >= 0 && (n >= r ==> q < n) && (n < r ==> m == n)
  {
    assert q < 0 ==> q * r + r <= 0;
    if q > 0 {
      assert q * r >= q * 2;
      assert q * r >= r;
    }
  }

  lemma NumeralLast(n: nat, radix: nat, digits: string)
    requires |digits| == radix >= 2
    ensures Numeral(n, radix, digits, 0)
         == if n < radix then [digits[n % radix]] else Numeral(n / radix, radix, digits, 0) + [digits[n % radix]]
  {
  }

  lemma ParseOne(c: char, radix: nat)
    requires DigitValue(c, radix).Some?
    ensures ParseNumber([c], radix) == DigitValue(c, radix)
  {
    hide DigitValue;
  }

  lemma ParseLast(front: string, c: char, radix: nat, n: nat, d: nat)
    requires ParseNumber(front, radix) == Some(n) && DigitValue(c, radix) == Some(d)
    ensures ParseNumber(front + [c], radix) == Some(n * radix + d)
  {
    hide DigitValue;
    var s := front + [c];
    assert s[..|s| - 1] == front && s[|s| - 1] == c;
  }

  lemma {:induction false} ZerosDoNotCount(s: string, radix: nat, n: nat)
    requires radix >= 2 && ParseNumber(s, radix) == Some(n)
    ensures ParseNumber("0" + s, radix) == Some(n)
    decreases |s|
  {
    var t := "0" + s;
    assert t[..|t| - 1] == "0" + s[..|s| - 1] && t[|t| - 1] == s[|s| - 1];
    if |s| == 1 {
      assert t[..|t| - 1] == "0" && ParseNumber("0", radix) == Some(0);
    } else {
      ZerosDoNotCount(s[..|s| - 1], radix, ParseNumber(s[..|s| - 1], radix).value);
    }
  }

  lemma {:induction false} PaddedParses(n: nat, radix: nat, digits: string, zeros: nat)
    requires |digits| == radix >= 2 && forall d: nat | d < radix :: DigitValue(digits[d], radix) == Some(d)
    requires digits[0] == '0'
    ensures ParseNumber(Numeral(n, radix, digits, zeros), radix) == Some(n)
    decreases zeros
  {
    hide DigitValue;
    if zeros == 0 {
      NumeralsParse(n, radix, digits);
    } else {
      PaddedParses(n, radix, digits, zeros - 1);
      ZerosDoNotCount(Numeral(n, radix, digits, zeros - 1), radix, n);
    }
  }

  /** A character reference stands for the character of that number, decimal or hexadecimal in either case and
      with any zeros before it, and for nothing if there is no such character or it is zero. */
  lemma CharacterReferences(n: nat, zeros: nat)
    ensures var c := if 0 < n < 0xD800 || 0xE000 <= n < 0x11_0000 then Some([n as char]) else None;
            && Resolve("#" + Numeral(n, 10, DECIMAL, zeros)) == c
            && Resolve("#x" + Numeral(n, 16, HEX_LOWER, zeros)) == c
            && Resolve("#x" + Numeral(n, 16, HEX_UPPER, zeros)) == c
  {
    hide ParseNumber, Numeral;
    forall d: nat
      ensures d < 10 ==> DigitValue(DECIMAL[d], 10) == Some(d)
      ensures d < 16 ==> DigitValue(HEX_LOWER[d], 16) == Some(d) && DigitValue(HEX_UPPER[d], 16) == Some(d)
    {
      DigitsCount(d);
    }
    PaddedParses(n, 10, DECIMAL, zeros);
    PaddedParses(n, 16, HEX_LOWER, zeros);
    PaddedParses(n, 16, HEX_UPPER, zeros);
    NoHexMark(n, zeros);
    var d, l, u := Numeral(n, 10, DECIMAL, zeros), Numeral(n, 16, HEX_LOWER, zeros), Numeral(n, 16, HEX_UPPER, zeros);
    assert ("#" + d)[1..] == d && ("#x" + l)[2..] == l && ("#x" + u)[2..] == u;
  }

  lemma {:induction false} NoHexMark(n: nat, zeros: nat)
    ensures Numeral(n, 10, DECIMAL, zeros)[0] != 'x'
    decreases n, zeros
  {
    if zeros == 0 && n >= 10 {
      NoHexMark(n / 10, 0);
    }
  }

  function RunText(r: Run): Option<string> {
    match r
    case Chars(t) => Some(t)
    case Reference(n) => Resolve(n)
  }

  predicate Resolvable(runs: seq<Run>) {
    forall i | 0 <= i < |runs| :: RunText(runs[i]).Some?
  }

  /** The characters a list of runs spells; a reference to nothing spells nothing. */
  function TextOf(runs: seq<Run>): string {
    if runs == [] then ""
    else (match RunText(runs[0]) case Some(t) => t case None => "") + TextOf(runs[1..])
  }

  // ----- escaping -----

  predicate Special(c: char) {
    c == '<' || c == '>' || c == '&' || c == '\'' || c == '"'
  }

  function EntityName(c: char): (n: string)
    requires Special(c)
    ensures Resolve(n) == Some([c])
  {
    match c
    case '<' => "lt"
    case '>' => "gt"
    case '&' => "amp"
    case '\'' => "apos"
    case _ => "quot"
  }

  function Escape(s: string): string {
    if s == "" then ""
    else (if Special(s[0]) then "&" + EntityName(s[0]) + ";" else [s[0]]) + Escape(s[1..])
  }

  /** The runs in which the reader delivers `Escape(s)`: maximal plain stretches between references. */
  function Runs(s: string): (r: seq<Run>) {
    if s == "" then []
    else if Special(s[0]) then [Reference(EntityName(s[0]))] + Runs(s[1..])
    else Prepend(s[0], Runs(s[1..]))
  }

  function Prepend(c: char, runs: seq<Run>): seq<Run> {
    if runs != [] && runs[0].Chars? then [Chars([c] + runs[0].text)] + runs[1..]
    else [Chars([c])] + runs
  }

  /** Reading the runs of an escaped string spells the string: escaping loses nothing. */
  lemma {:induction false} RunsRoundTrip(s: string)
    ensures Resolvable(Runs(s)) && TextOf(Runs(s)) == s
  {
    if s != "" {
      RunsRoundTrip(s[1..]);
      var rest := Runs(s[1..]);
      assert s == [s[0]] + s[1..];
      if Special(s[0]) {
        assert Runs(s)[1..] == rest;
      } else if rest != [] && rest[0].Chars? {
        assert Runs(s)[1..] == rest[1..];
        assert TextOf(rest) == rest[0].text + TextOf(rest[1..]);
      } else {
        assert Runs(s)[1..] == rest;
      }
    }
  }

  // ----- printing -----

  function RenderRun(r: Run): string {
    match r
    case Chars(t) => t
    case Reference(n) => "&" + n + ";"
  }

  function RenderEvent(e: Event): string {
    match e
    case Start(n, p) => "<" + n + (if p then " Protected=\"True\">" else ">")
    case End(n) => "</" + n + ">"
    case Content(r) => RenderRun(r)
    case Prolog(t) => "<?" + t + "?>"
    case Fault(_) => ""
  }

  function Render(es: seq<Event>): string {
    if es == [] then "" else RenderEvent(es[0]) + Render(es[1..])
  }

  function Contents(runs: seq<Run>): (es: seq<Event>)
    ensures |es| == |runs|
  {
    seq(|runs|, i requires 0 <= i < |runs| => Content(runs[i]))
  }

  lemma RenderFirst(es: seq<Event>)
    requires es != []
    ensures Render(es) == RenderEvent(es[0]) + Render(es[1..])
  {
  }

  lemma RenderNothing()
    ensures Render([]) == ""
  {
  }

  lemma {:induction false} RenderConcat(a: seq<Event>, b: seq<Event>)
    ensures Render(a + b) == Render(a) + Render(b)
  {
    hide RenderEvent, Render;
    if a == [] {
      assert a + b == b;
      RenderNothing();
    } else {
      RenderConcat(a[1..], b);
      RenderFirst(a);
      RenderFirst(a + b);
      assert (a + b)[1..] == a[1..] + b;
      assert RenderEvent(a[0]) + (Render(a[1..]) + Render(b)) == RenderEvent(a[0]) + Render(a[1..]) + Render(b);
    }
  }

  function RenderRunList(runs: seq<Run>): string {
    if runs == [] then "" else RenderRun(runs[0]) + RenderRunList(runs[1..])
  }

  lemma {:induction false} RenderContents(runs: seq<Run>)
    ensures Render(Contents(runs)) == RenderRunList(runs)
  {
    if runs != [] {
      RenderContents(runs[1..]);
      assert Contents(runs)[1..] == Contents(runs[1..]);
    }
  }

  lemma RenderPrepend(c: char, runs: seq<Run>)
    ensures RenderRunList(Prepend(c, runs)) == [c] + RenderRunList(runs)
  {
    var p := Prepend(c, runs);
    if runs != [] && runs[0].Chars? {
      assert p[1..] == runs[1..];
    } else {
      assert p[1..] == runs;
    }
  }

  /** Printing the runs of a string is escaping it. */
  lemma {:induction false} RenderRuns(s: string)
    ensures RenderRunList(Runs(s)) == Escape(s)
  {
    if s != "" {
      RenderRuns(s[1..]);
      if Special(s[0]) {
        assert Runs(s)[1..] == Runs(s[1..]);
      } else {
        RenderPrepend(s[0], Runs(s[1..]));
      }
    }
  }

  // ----- what a reader must give back -----

  predicate NameChar(c: char) {
    'a' <= c <= 'z' || 'A' <= c <= 'Z' || '0' <= c <= '9'
  }

  /** How the text of a declaration begins. */
  const XML := "xml "

  predicate Name(n: string) {
    n != "" && forall i | 0 <= i < |n| :: NameChar(n[i])
  }

  predicate PlainChar(c: char) {
    c != '<' && c != '&'
  }

  predicate PrintableEvent(e: Event) {
    match e
    case Start(n, _) => Name(n)
    case End(n) => Name(n)
    case Content(Chars(t)) => t != "" && forall i | 0 <= i < |t| :: PlainChar(t[i])
    case Content(Reference(n)) => n != "" && forall i | 0 <= i < |n| :: NameChar(n[i]) || n[i] == '#'
    case Prolog(t) => XML <= t && forall i | 0 <= i < |t| :: t[i] != '>'
    case Fault(_) => false
  }

  /** Event lists that are determined by their text: no two stretches of characters in a row. */
  predicate Printable(es: seq<Event>) {
    && (forall i | 0 <= i < |es| :: PrintableEvent(es[i]))
    && (forall i | 0 < i < |es| :: !(Plain(es[i - 1]) && Plain(es[i])))
  }

  predicate Plain(e: Event) {
    e.Content? && e.run.Chars?
  }

  /** The elements open after `es`, if every end tag closes the innermost open one. */
  function Nesting(es: seq<Event>, open: seq<string>): Option<seq<string>>
    decreases |es|
  {
    if es == [] then Some(open)
    else match es[0]
      case Start(n, _) => Nesting(es[1..], open + [n])
      case End(n) =>
        if open == [] || open[|open| - 1] != n then None else Nesting(es[1..], open[..|open| - 1])
      case _ => Nesting(es[1..], open)
  }

  predicate Balanced(es: seq<Event>) {
    Nesting(es, []) == Some([])
  }

  /** A document a conforming reader must give back from its text: a declaration, then nested elements
      and character data. */
  predicate Readable(es: seq<Event>) {
    && Printable(es) && Balanced(es)
    && es != [] && es[0].Prolog? && forall i | 1 <= i < |es| :: !es[i].Prolog?
  }

  lemma {:induction false} NestingConcat(a: seq<Event>, b: seq<Event>, open: seq<string>)
    ensures Nesting(a + b, open) == match Nesting(a, open) case None => None case Some(o) => Nesting(b, o)
    decreases |a|
  {
    if a == [] {
      assert a + b == b;
    } else {
      assert (a + b)[1..] == a[1..] + b;
      match a[0]
      case Start(n, _) => NestingConcat(a[1..], b, open + [n]);
      case End(n) =>
        if open != [] {
          NestingConcat(a[1..], b, open[..|open| - 1]);
        }
      case _ => NestingConcat(a[1..], b, open);
    }
  }

  /** Elements that are open already do not matter to what nests properly. */
  lemma {:induction false} NestingUnder(es: seq<Event>, open: seq<string>, outer: seq<string>)
    requires Nesting(es, open).Some?
    ensures Nesting(es, outer + open) == Some(outer + Nesting(es, open).value)
    decreases |es|
  {
    if es != [] {
      match es[0]
      case Start(n, _) =>
        assert outer + open + [n] == outer + (open + [n]);
        NestingUnder(es[1..], open + [n], outer);
      case End(n) =>
        assert (outer + open)[..|outer + open| - 1] == outer + open[..|open| - 1];
        NestingUnder(es[1..], open[..|open| - 1], outer);
      case _ => NestingUnder(es[1..], open, outer);
    }
  }

  lemma BalancedConcat(a: seq<Event>, b: seq<Event>)
    requires Balanced(a) && Balanced(b)
    ensures Balanced(a + b)
  {
    NestingConcat(a, b, []);
  }
}
