/** The one-pass reader of the inner XML: a stack machine over reader events that spends the inner
    key stream on every protected value it meets, in document order. */
module KdbxWalker {
  import opened Wrappers
  import opened Bytes
  import opened KdbxTypes
  import opened Xml
  import Base64
  import Utf8

  type KeyStream = nat -> byte

  datatype Mode = Idle | InKey | InValue | InGroupName | InTags

  /** The local variables of the walk. `pos` is how much key stream has been spent. */
  datatype Walker = Walker(
    entries: seq<Entry>,
    frames: seq<Entry>,
    groups: seq<string>,
    history: nat,
    mode: Mode,
    guarded: bool,
    key: string,
    val: string,
    pos: nat)

  const INITIAL := Walker([], [], [], 0, Idle, false, "", "", 0)

  function Last<T>(s: seq<T>): T
    requires s != []
  {
    s[|s| - 1]
  }

  function Front<T>(s: seq<T>): seq<T>
    requires s != []
  {
    s[..|s| - 1]
  }

  /** `last_mut().push(x)`, which does nothing on an empty stack. */
  function PushOnTop(frames: seq<Entry>, f: Field): seq<Entry> {
    if frames == [] then [] else Front(frames) + [Last(frames) + [f]]
  }

  function StartElement(st: Walker, name: string, protectedTrue: bool): Walker {
    if name == "Group" then st.(groups := st.groups + [""])
    else if name == "Entry" then st.(frames := st.frames + [[]])
    else if name == "History" then st.(history := st.history + 1)
    else if name == "Tags" && st.frames != [] then st.(mode := InTags, val := "")
    else if name == "Name" && st.frames == [] then st.(mode := InGroupName)
    else if name == "Key" then st.(mode := InKey, key := "")
    else if name == "Value" then st.(mode := InValue, val := "", guarded := protectedTrue)
    else st
  }

  function AddText(st: Walker, text: string): Walker {
    match st.mode
    case InKey => st.(key := st.key + text)
    case InValue => st.(val := st.val + text)
    case InTags => st.(val := st.val + text)
    case InGroupName =>
      if st.groups == [] then st else st.(groups := Front(st.groups) + [Last(st.groups) + text])
    case Idle => st
  }

  /** One protected value: Base64, then the key stream from `pos`, then UTF-8. The second component
      is the amount of key stream spent. */
  function Unprotect(ks: KeyStream, pos: nat, text: string): Res<(string, nat)> {
    match Base64.Decode(text)
    case None => Failure(Corrupt("b64"))
    case Some(raw) =>
      match Utf8.Decode(Apply(ks, pos, raw))
      case None => Failure(Corrupt("protected utf8"))
      case Some(s) => Success((s, |raw|))
  }

  /** The content of a value element, and how much key stream it spends: a protected one is decrypted
      unless it is empty, any other stands for itself. */
  function Reveal(ks: KeyStream, pos: nat, text: string, guarded: bool): Res<(string, nat)> {
    if guarded && text != "" then Unprotect(ks, pos, text) else Success((text, 0))
  }

  function JoinPath(names: seq<string>): string {
    if names == [] then ""
    else if |names| == 1 then names[0]
    else names[0] + "/" + JoinPath(names[1..])
  }

  function NonEmpty(names: seq<string>): seq<string> {
    if names == [] then []
    else (if names[0] == "" then [] else [names[0]]) + NonEmpty(names[1..])
  }

  /** The entry with its folder path added: the group names without the outermost and the empty ones. */
  function WithGroupPath(fields: Entry, groups: seq<string>): Entry {
    var path := JoinPath(NonEmpty(if groups == [] then [] else groups[1..]));
    if path == "" then fields else fields + [Field(GROUP_KEY, path, false)]
  }

  function EndElement(ks: KeyStream, st: Walker, name: string): Res<Walker> {
    if name == "Value" then
      var (plain, spent) :- Reveal(ks, st.pos, st.val, st.guarded);
      Success(st.(frames := PushOnTop(st.frames, Field(st.key, plain, st.guarded)),
                  pos := st.pos + spent, mode := Idle))
    else if name == "Key" || name == "Name" then Success(st.(mode := Idle))
    else if name == "Tags" then
      if st.mode != InTags then Success(st)
      else
        Success(st.(frames := if st.val == "" then st.frames else PushOnTop(st.frames, Field(TAGS_KEY, st.val, false)),
                    mode := Idle))
    else if name == "History" then Success(st.(history := if st.history == 0 then 0 else st.history - 1))
    else if name == "Group" then Success(st.(groups := if st.groups == [] then [] else Front(st.groups)))
    else if name == "Entry" then
      if st.frames == [] then Success(st)
      else
        var below := Front(st.frames);
        if st.history == 0 && below == [] && RECYCLE_BIN !in st.groups then
          Success(st.(frames := below, entries := st.entries + [WithGroupPath(Last(st.frames), st.groups)]))
        else
          Success(st.(frames := below))
    else Success(st)
  }

  function Step(ks: KeyStream, st: Walker, e: Event): Res<Walker> {
    match e
    case Start(name, p) => Success(StartElement(st, name, p))
    case Content(run) =>
      (match RunText(run)
       case None => Failure(Corrupt("xml entity"))
       case Some(text) => Success(AddText(st, text)))
    case End(name) => EndElement(ks, st, name)
    case Prolog(_) => Success(st)
    case Fault(error) => Failure(error)
  }

  function Feed(ks: KeyStream, st: Walker, es: seq<Event>): Res<Walker>
    decreases |es|
  {
    if es == [] then Success(st)
    else
      var next :- Step(ks, st, es[0]);
      Feed(ks, next, es[1..])
  }

  function Walk(ks: KeyStream, es: seq<Event>): Res<seq<Entry>> {
    var st :- Feed(ks, INITIAL, es);
    Success(st.entries)
  }

  function Continue(ks: KeyStream, r: Res<Walker>, es: seq<Event>): Res<Walker> {
    match r
    case Failure(e) => Failure(e)
    case Success(st) => Feed(ks, st, es)
  }

  lemma {:induction false} FeedConcat(ks: KeyStream, st: Walker, a: seq<Event>, b: seq<Event>)
    ensures Feed(ks, st, a + b) == Continue(ks, Feed(ks, st, a), b)
    decreases |a|
  {
    hide Step;
    if a == [] {
      assert a + b == b;
    } else {
      assert (a + b)[1..] == a[1..] + b;
      if Step(ks, st, a[0]).Success? {
        FeedConcat(ks, Step(ks, st, a[0]).value, a[1..], b);
      }
    }
  }

  /** The value of a closing `</Value>` and the key stream position after it. */
  method ReadValue(ks: KeyStream, pos: nat, text: string, isProtected: bool) returns (r: Res<(string, nat)>)
    ensures r == Reveal(ks, pos, text, isProtected)
  {
    if !isProtected || text == "" {
      return Success((text, 0));
    }
    var raw := Base64.Decode(text);
    if raw.None? {
      return Failure(Corrupt("b64"));
    }
    var plain := Utf8.Decode(Apply(ks, pos, raw.value));
    if plain.None? {
      return Failure(Corrupt("protected utf8"));
    }
    r := Success((plain.value, |raw.value|));
  }

  /** What a closing `</Entry>` adds to the result. */
  method EmitEntry(frame: Entry, enclosing: seq<Entry>, groups: seq<string>, history: nat)
    returns (emitted: seq<Entry>)
    ensures emitted == if history == 0 && enclosing == [] && RECYCLE_BIN !in groups
                       then [WithGroupPath(frame, groups)] else []
  {
    if history != 0 || enclosing != [] || RECYCLE_BIN in groups {
      return [];
    }
    var path := JoinPath(NonEmpty(if groups == [] then [] else groups[1..]));
    emitted := [if path == "" then frame else frame + [Field(GROUP_KEY, path, false)]];
  }

  /** The importer's loop, with its own variables, computes `Walk`. */
  method ParseInnerXml(events: seq<Event>, ks: KeyStream) returns (r: Res<seq<Entry>>)
    ensures r == Walk(ks, events)
  {
    hide Feed, Reveal, RunText, Resolve, WithGroupPath;
    var entries: seq<Entry> := [];
    var entryStack: seq<Entry> := [];
    var groupNames: seq<string> := [];
    var historyDepth: nat := 0;
    var mode := Idle;
    var isProtected := false;
    var curKey, curVal := "", "";
    var pos: nat := 0;
    assert events[0..] == events;
    for i := 0 to |events|
      invariant i <= |events|
      invariant Feed(ks, INITIAL, events)
             == Feed(ks, Walker(entries, entryStack, groupNames, historyDepth, mode, isProtected, curKey, curVal, pos),
                     events[i..])
    {
      ghost var before := Walker(entries, entryStack, groupNames, historyDepth, mode, isProtected, curKey, curVal, pos);
      FeedStep(ks, before, events[i..]);
      assert events[i..][1..] == events[i + 1..];
      match events[i] {
        case Start(name, protectedTrue) =>
          if name == "Group" {
            groupNames := groupNames + [""];
          } else if name == "Entry" {
            entryStack := entryStack + [[]];
          } else if name == "History" {
            historyDepth := historyDepth + 1;
          } else if name == "Tags" && entryStack != [] {
            mode, curVal := InTags, "";
          } else if name == "Name" && entryStack == [] {
            mode := InGroupName;
          } else if name == "Key" {
            mode, curKey := InKey, "";
          } else if name == "Value" {
            mode, curVal, isProtected := InValue, "", protectedTrue;
          }
        case Content(run) =>
          var text := RunText(run);
          if text.None? {
            return Failure(Corrupt("xml entity"));
          }
          match mode {
            case InKey => curKey := curKey + text.value;
            case InValue => curVal := curVal + text.value;
            case InTags => curVal := curVal + text.value;
            case InGroupName =>
              if groupNames != [] {
                groupNames := Front(groupNames) + [Last(groupNames) + text.value];
              }
            case Idle =>
          }
        case End(name) =>
          if name == "Value" {
            var value := ReadValue(ks, pos, curVal, isProtected);
            if value.Failure? {
              return Failure(value.error);
            }
            entryStack := PushOnTop(entryStack, Field(curKey, value.value.0, isProtected));
            pos := pos + value.value.1;
            mode := Idle;
          } else if name == "Key" || name == "Name" {
            mode := Idle;
          } else if name == "Tags" {
            if mode == InTags {
              if curVal != "" {
                entryStack := PushOnTop(entryStack, Field(TAGS_KEY, curVal, false));
              }
              mode := Idle;
            }
          } else if name == "History" {
            historyDepth := if historyDepth == 0 then 0 else historyDepth - 1;
          } else if name == "Group" {
            if groupNames != [] {
              groupNames := Front(groupNames);
            }
          } else if name == "Entry" && entryStack != [] {
            var frame := Last(entryStack);
            entryStack := Front(entryStack);
            var emitted := EmitEntry(frame, entryStack, groupNames, historyDepth);
            if emitted != [] {
              entries := entries + emitted;
            }
          }
        case Prolog(_) =>
        case Fault(error) =>
          return Failure(error);
      }
    }
    FeedNothing(ks, Walker(entries, entryStack, groupNames, historyDepth, mode, isProtected, curKey, curVal, pos));
    assert events[|events|..] == [];
    r := Success(entries);
  }

  lemma FeedNothing(ks: KeyStream, st: Walker)
    ensures Feed(ks, st, []) == Success(st)
  {
  }

  lemma FeedStep(ks: KeyStream, st: Walker, es: seq<Event>)
    requires es != []
    ensures Feed(ks, st, es) == Continue(ks, Step(ks, st, es[0]), es[1..])
  {
  }
}
