/** Where imported entries come from: which groups they lay in, and how the Group field tells it. */
module KdbxFolders {
  import opened Wrappers
  import opened KdbxTypes
  import opened Xml
  import opened KdbxWalker
  import opened KdbxTree
  import opened KdbxOnePass

  // ----- paths -----

  /** The pieces of a text between its slashes. */
  function Split(path: string): (r: seq<string>)
    ensures |r| >= 1
  {
    if path == "" then [""]
    else
      var rest := Split(path[1..]);
      if path[0] == '/' then [""] + rest else [[path[0]] + rest[0]] + rest[1..]
  }

  function AllSplit(names: seq<string>): seq<string> {
    if names == [] then [] else Split(names[0]) + AllSplit(names[1..])
  }

  /** The named groups within the outermost one, from the outside in. */
  function Folders(groups: seq<string>): seq<string> {
    if |groups| <= 1 then []
    else
      var n := |groups| - 1;
      Folders(groups[..n]) + (if groups[n] == "" then [] else [groups[n]])
  }

  lemma {:induction false} SplitAtSlash(a: string, b: string)
    ensures Split(a + "/" + b) == Split(a) + Split(b)
  {
    hide Split;
    var whole := a + "/" + b;
    SplitFirst(whole);
    if a == "" {
      assert whole[1..] == b;
      SplitNothing();
    } else {
      SplitAtSlash(a[1..], b);
      SplitFirst(a);
      assert whole[1..] == a[1..] + "/" + b;
      var rest := Split(a[1..]);
      assert (rest + Split(b))[1..] == rest[1..] + Split(b);
    }
  }

  lemma SplitFirst(path: string)
    requires path != ""
    ensures var rest := Split(path[1..]);
            Split(path) == if path[0] == '/' then [""] + rest else [[path[0]] + rest[0]] + rest[1..]
  {
  }

  lemma SplitNothing()
    ensures Split("") == [""]
  {
  }

  lemma {:induction false} JoinedSplits(names: seq<string>)
    requires names != []
    ensures Split(JoinPath(names)) == AllSplit(names)
  {
    hide Split;
    if |names| == 1 {
      assert AllSplit(names[1..]) == [];
    } else {
      JoinedSplits(names[1..]);
      SplitAtSlash(names[0], JoinPath(names[1..]));
    }
  }

  lemma {:induction false} PlainNamesStay(names: seq<string>)
    requires forall n | n in names :: '/' !in n
    ensures AllSplit(names) == names
  {
    if names != [] {
      PlainNamesStay(names[1..]);
      OnePiece(names[0]);
    }
  }

  lemma {:induction false} OnePiece(name: string)
    requires '/' !in name
    ensures Split(name) == [name]
  {
    hide Split;
    if name == "" {
      SplitNothing();
    } else {
      SplitFirst(name);
      assert name[0] in name && forall c | c in name[1..] :: c in name;
      OnePiece(name[1..]);
      assert [name[0]] + name[1..] == name;
    }
  }

  lemma {:induction false} FoldersAreNonEmpty(groups: seq<string>)
    ensures Folders(groups) == NonEmpty(if groups == [] then [] else groups[1..])
  {
    if |groups| > 1 {
      var n := |groups| - 1;
      FoldersAreNonEmpty(groups[..n]);
      assert groups[1..] == groups[..n][1..] + [groups[n]];
      NonEmptyConcat(groups[..n][1..], [groups[n]]);
      assert NonEmpty([groups[n]]) == if groups[n] == "" then [] else [groups[n]] by {
        assert [groups[n]][1..] == [];
      }
    }
  }

  lemma {:induction false} NonEmptyConcat(a: seq<string>, b: seq<string>)
    ensures NonEmpty(a + b) == NonEmpty(a) + NonEmpty(b)
  {
    if a == [] {
      assert a + b == b;
    } else {
      assert (a + b)[1..] == a[1..] + b;
      NonEmptyConcat(a[1..], b);
    }
  }

  lemma {:induction false} NonEmptyJoins(names: seq<string>)
    ensures forall n | n in NonEmpty(names) :: n != ""
    ensures JoinPath(NonEmpty(names)) == "" <==> NonEmpty(names) == []
  {
    if names != [] {
      NonEmptyJoins(names[1..]);
    }
  }

  // ----- entries -----

  /** An entry to keep: its own fields, and the names of the groups around it as far as they were read. */
  datatype Shelf = Shelf(fields: seq<Field>, groups: seq<string>)

  function Shelves(c: Clear, groups: seq<string>): seq<Shelf> {
    match c
    case ClearGroup(kids) => AllShelves(kids, groups + [""])
    case ClearRecord(kids) => if "Recycle Bin" in groups then [] else [Shelf(AllOwn(kids), groups)]
    case ClearBox(kids) => AllShelves(kids, groups)
    case _ => []
  }

  function AllShelves(cs: seq<Clear>, groups: seq<string>): seq<Shelf> {
    if cs == [] then [] else Shelves(cs[0], groups) + AllShelves(cs[1..], Named(groups, NameIn(cs[0])))
  }

  /** The entry has the shelf's fields and, if it lay in folders, one more, in clear, whose pieces are those of
      the folders' names in order. */
  predicate Filed(e: Entry, s: Shelf) {
    var folders := Folders(s.groups);
    if folders == [] then e == s.fields
    else
      && |e| == |s.fields| + 1 && e[..|s.fields|] == s.fields
      && e[|s.fields|].key == "Group" && !e[|s.fields|].guarded
      && Split(e[|s.fields|].value) == AllSplit(folders)
      && ((forall n | n in folders :: '/' !in n) ==> Split(e[|s.fields|].value) == folders)
  }

  predicate AllFiled(es: seq<Entry>, ss: seq<Shelf>) {
    |es| == |ss| && forall i | 0 <= i < |es| :: Filed(es[i], ss[i])
  }

  lemma PathIsFiled(fields: seq<Field>, groups: seq<string>)
    ensures Filed(WithGroupPath(fields, groups), Shelf(fields, groups))
  {
    hide Split, AllSplit, Folders, NonEmpty, JoinPath;
    var inner := if groups == [] then [] else groups[1..];
    FoldersAreNonEmpty(groups);
    NonEmptyJoins(inner);
    if Folders(groups) != [] {
      JoinedSplits(Folders(groups));
      if forall n | n in Folders(groups) :: '/' !in n {
        PlainNamesStay(Folders(groups));
      }
    }
  }

  lemma {:induction false} SelectedIsFiled(c: Clear, groups: seq<string>)
    ensures AllFiled(Select(c, groups), Shelves(c, groups))
    decreases c
  {
    hide Filed, WithGroupPath, AllOwn;
    match c
    case ClearGroup(kids) => AllSelectedAreFiled(kids, groups + [""]);
    case ClearRecord(kids) => PathIsFiled(AllOwn(kids), groups);
    case ClearBox(kids) => AllSelectedAreFiled(kids, groups);
    case _ =>
  }

  lemma {:induction false} AllSelectedAreFiled(cs: seq<Clear>, groups: seq<string>)
    ensures AllFiled(SelectAll(cs, groups), AllShelves(cs, groups))
    decreases cs
  {
    hide Filed, Named, Select, Shelves;
    if cs != [] {
      SelectedIsFiled(cs[0], groups);
      AllSelectedAreFiled(cs[1..], Named(groups, NameIn(cs[0])));
    }
  }

  /** The document with its values in clear, if it can be read. */
  function Cleared(ks: KeyStream, doc: seq<Node>): Res<seq<Clear>> {
    var (fields, _) :- Discharge(ks, AllDuties(doc), OUTSET);
    DischargeCounts(ks, AllDuties(doc), OUTSET);
    DocumentValues(doc);
    Success(FillAll(doc, fields))
  }

  /** Every entry an import returns, from whatever document, has its own fields and, exactly if it lay in named
      groups within the outermost, a last field that tells their names in order. */
  lemma EntriesAreFiled(ks: KeyStream, doc: seq<Node>)
    requires AllWellFormed(doc) && Walk(ks, FlattenAll(doc)).Success?
    ensures Cleared(ks, doc).Success?
    ensures AllFiled(Walk(ks, FlattenAll(doc)).value, AllShelves(Cleared(ks, doc).value, []))
  {
    hide AllFiled, Discharge;
    OnePassIsTwoPhase(ks, doc);
    AllSelectedAreFiled(Cleared(ks, doc).value, []);
  }
}
