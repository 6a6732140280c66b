/** The laws asked of the foreign code can all hold at once: a plain tag scanner takes every printed
    document apart again, and trivial primitives satisfy the rest. */
module KdbxLaws {
  import opened Wrappers
  import opened Bytes
  import opened KdbxTypes
  import opened Xml
  import opened KdbxFile
  import Utf8

  function IndexOf(s: string, c: char): (k: nat)
    ensures k <= |s|
    ensures forall i | 0 <= i < k :: s[i] != c
    ensures k < |s| ==> s[k] == c
  {
    if s == "" || s[0] == c then 0 else 1 + IndexOf(s[1..], c)
  }

  /** The length of the character data `s` begins with. */
  function TextLength(s: string): (k: nat)
    ensures k <= |s|
    ensures forall i | 0 <= i < k :: PlainChar(s[i])
    ensures k < |s| ==> !PlainChar(s[k])
  {
    if s == "" || !PlainChar(s[0]) then 0 else 1 + TextLength(s[1..])
  }

  const PROTECTED := " Protected=\"True\""

  function TagEvent(tag: string): Event {
    if tag == "" then Fault(Corrupt("xml"))
    else if tag[0] == '?' then Prolog(if |tag| < 2 then "" else tag[1..|tag| - 1])
    else if tag[0] == '/' then End(tag[1..])
    else
      var k := IndexOf(tag, ' ');
      Start(tag[..k], tag[k..] == PROTECTED)
  }

  function Scan(s: string): seq<Event>
    decreases |s|
  {
    if s == "" then []
    else if s[0] == '<' then
      var k := IndexOf(s, '>');
      if k == |s| then [Fault(Corrupt("xml"))] else [TagEvent(s[1..k])] + Scan(s[k + 1..])
    else if s[0] == '&' then
      var k := IndexOf(s, ';');
      if k == |s| then [Fault(Corrupt("xml"))] else [Content(Reference(s[1..k]))] + Scan(s[k + 1..])
    else
      var k := TextLength(s);
      [Content(Chars(s[..k]))] + Scan(s[k..])
  }

  lemma IndexAfter(s: string, head: string, c: char, rest: string)
    requires s == head + [c] + rest && forall i | 0 <= i < |head| :: head[i] != c
    ensures IndexOf(s, c) == |head| && s[..|head|] == head && s[|head| + 1..] == rest
  {
    assert s[|head|] == c;
    assert forall i | 0 <= i < |head| :: s[i] == head[i];
  }

  function TagText(e: Event): string
    requires e.Start? || e.End? || e.Prolog?
  {
    match e
    case Start(n, p) => n + (if p then PROTECTED else "")
    case End(n) => "/" + n
    case Prolog(t) => "?" + t + "?"
  }

  lemma TagTextIsClean(e: Event)
    requires PrintableEvent(e) && (e.Start? || e.End? || e.Prolog?)
    ensures forall i | 0 <= i < |TagText(e)| :: TagText(e)[i] != '>'
    ensures RenderEvent(e) == "<" + TagText(e) + ">"
  {
    if e.Start? {
      StartTagIsClean(e.name, e.protectedTrue);
    }
  }

  lemma StartTagIsClean(name: string, guarded: bool)
    requires forall i | 0 <= i < |name| :: NameChar(name[i])
    ensures forall i | 0 <= i < |TagText(Start(name, guarded))| :: TagText(Start(name, guarded))[i] != '>'
    ensures RenderEvent(Start(name, guarded)) == "<" + TagText(Start(name, guarded)) + ">"
  {
    assert forall i | 0 <= i < |PROTECTED| :: PROTECTED[i] != '>';
    if guarded {
      assert " Protected=\"True\">" == PROTECTED + ">";
      assert name + (PROTECTED + ">") == name + PROTECTED + ">";
    } else {
      assert name + "" == name;
    }
  }

  lemma TagEventOfText(e: Event)
    requires PrintableEvent(e) && (e.Start? || e.End? || e.Prolog?)
    ensures TagEvent(TagText(e)) == e
  {
    var tag := TagText(e);
    match e
    case End(n) => assert tag[1..] == n;
    case Prolog(t) => assert tag[1..|tag| - 1] == t;
    case Start(n, p) =>
      assert NameChar(n[0]) && tag[0] == n[0];
      assert forall i | 0 <= i < |n| :: NameChar(n[i]);
      if p {
        var after := PROTECTED[1..];
        assert PROTECTED == [' '] + after;
        assert tag == n + [' '] + after;
        IndexAfter(tag, n, ' ', after);
        assert tag[|n|..] == PROTECTED;
      } else {
        assert tag == n;
        assert forall i | 0 <= i < |tag| :: tag[i] != ' ';
        assert tag[|n|..] == "" && tag[..|n|] == n;
      }
  }

  lemma ScanTag(e: Event, rest: string)
    requires PrintableEvent(e) && (e.Start? || e.End? || e.Prolog?)
    ensures Scan(RenderEvent(e) + rest) == [e] + Scan(rest)
  {
    hide RenderEvent, TagText, TagEvent;
    var tag := TagText(e);
    TagTextIsClean(e);
    TagEventOfText(e);
    var s := RenderEvent(e) + rest;
    assert s == ("<" + tag) + ['>'] + rest;
    assert forall i | 0 <= i < |"<" + tag| :: ("<" + tag)[i] != '>';
    IndexAfter(s, "<" + tag, '>', rest);
    assert s[1..|tag| + 1] == tag;
  }

  lemma ScanReference(name: string, rest: string)
    requires PrintableEvent(Content(Reference(name)))
    ensures Scan(RenderEvent(Content(Reference(name))) + rest) == [Content(Reference(name))] + Scan(rest)
  {
    var s := RenderEvent(Content(Reference(name))) + rest;
    assert s == ("&" + name) + [';'] + rest;
    assert forall i | 0 <= i < |"&" + name| :: ("&" + name)[i] != ';';
    IndexAfter(s, "&" + name, ';', rest);
    assert s[1..|name| + 1] == name;
  }

  lemma ScanText(text: string, rest: string)
    requires PrintableEvent(Content(Chars(text))) && (rest != "" ==> !PlainChar(rest[0]))
    ensures Scan(text + rest) == [Content(Chars(text))] + Scan(rest)
  {
    var s := text + rest;
    var k := TextLength(s);
    assert PlainChar(text[0]) && s[0] == text[0];
    assert forall i | 0 <= i < |text| :: s[i] == text[i];
    assert rest != "" ==> s[|text|] == rest[0];
    assert s[..k] == text && s[k..] == rest;
  }

  lemma RenderStartsMarked(es: seq<Event>)
    requires Printable(es) && es != [] && !Plain(es[0])
    ensures Render(es) != "" && !PlainChar(Render(es)[0])
  {
    assert PrintableEvent(es[0]);
  }

  /** Printed documents are taken apart again, event by event. */
  lemma {:induction false} ScanRendered(es: seq<Event>)
    requires Printable(es)
    ensures Scan(Render(es)) == es
  {
    hide RenderEvent, Scan, PrintableEvent;
    if es == [] {
      ScanNothing();
    } else {
      var e, rest := es[0], es[1..];
      assert PrintableEvent(e);
      assert Printable(rest) by {
        forall i | 0 < i < |rest|
          ensures !(Plain(rest[i - 1]) && Plain(rest[i]))
        {
          assert !(Plain(es[i]) && Plain(es[i + 1]));
        }
      }
      ScanRendered(rest);
      assert es == [e] + rest;
      match e
      case Content(Reference(name)) => ScanReference(name, Render(rest));
      case Content(Chars(text)) =>
        if rest != [] {
          assert !(Plain(es[0]) && Plain(es[1]));
          RenderStartsMarked(rest);
        }
        RenderChars(text);
        ScanText(text, Render(rest));
      case Fault(_) => NoFault(e);
      case Start(_, _) => ScanTag(e, Render(rest));
      case End(_) => ScanTag(e, Render(rest));
      case Prolog(_) => ScanTag(e, Render(rest));
    }
  }

  lemma ScanNothing()
    ensures Scan("") == []
  {
  }

  lemma RenderChars(text: string)
    ensures RenderEvent(Content(Chars(text))) == text
  {
  }

  lemma NoFault(e: Event)
    requires PrintableEvent(e)
    ensures !e.Fault?
  {
  }

  /** A reader that checks end tags fails on anything that does not nest. */
  function Nested(es: seq<Event>): seq<Event> {
    if Balanced(es) then es else [Fault(Corrupt("xml"))]
  }

  function Zeros(n: nat): (z: seq<byte>)
    ensures |z| == n
  {
    seq(n, i => 0)
  }

  function PlainLibrary(): Library {
    Library(
      x => Zeros(32),
      x => Zeros(64),
      (k, x) => Zeros(32),
      (m, t, p) => true,
      (id, old10, m, t, p, salt, pw) => Some(Zeros(32)),
      (k, iv, x) => x,
      (k, iv, x) => Some(x),
      (k, n, i) => 0,
      x => x,
      x => Some(x),
      f => None,
      b => match Utf8.Decode(b) case Some(s) => Nested(Scan(s)) case None => [Fault(Corrupt("xml"))])
  }

  lemma PlainCodecs()
    ensures CodecLaws(PlainLibrary())
  {
    hide Scan, Printable, Balanced, Render, Utf8.Encode, Utf8.Decode;
    var lib := PlainLibrary();
    forall es | Readable(es)
      ensures lib.events(Utf8.Encode(Render(es))) == es
    {
      Utf8.RoundTrip(Render(es));
      ScanRendered(es);
    }
  }

  lemma LawsAreConsistent()
    ensures exists lib :: Lawful(lib)
  {
    hide Scan, CodecLaws, Utf8.Decode;
    PlainCodecs();
    assert Lawful(PlainLibrary());
  }
}
