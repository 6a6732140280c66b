/** What is saved can be opened: the composition of every layer of a KDBX4 file. */
module KdbxRoundTrip {
  import opened Wrappers
  import opened Bytes
  import opened KdbxTypes
  import opened KdbxFrame
  import opened KdbxFile
  import opened KdbxWalker
  import opened KdbxWriter
  import KdbxTree
  import KdbxReadBack
  import KdbxPrintable
  import Xml
  import Utf8

  lemma UintAtStart(b: seq<byte>, p: nat, n: nat, width: nat, rest: seq<byte>)
    requires At(b, p, Le(n, width) + rest) && n < Pow256(width)
    ensures UintAt(b, p, width) == Success(n) && At(b, p + width, rest)
  {
    AtConcat(b, p, Le(n, width), rest);
    UintWhatIsThere(b, p, n, width);
  }

  /** One field of the outer header. */
  lemma HeaderStep(b: seq<byte>, p: nat, id: byte, data: seq<byte>, rest: seq<byte>, h: Header, h': Header)
    requires At(b, p, FieldBytes(id, data) + rest) && |data| < U32_SIZE && id != 0
    requires SetHeader(h, RawField(id, data, p + 5 + |data|)) == Success(h')
    ensures ReadHeader(b, p, h) == ReadHeader(b, p + |FieldBytes(id, data)|, h')
    ensures At(b, p + |FieldBytes(id, data)|, rest)
  {
    hide SetHeader;
    AtConcat(b, p, FieldBytes(id, data), rest);
    FieldRoundTrip(b, p, id, data);
  }

  lemma HeaderEnd(b: seq<byte>, p: nat, data: seq<byte>, h: Header)
    requires At(b, p, FieldBytes(0, data)) && |data| < U32_SIZE
    ensures ReadHeader(b, p, h) == Success((h, p + |FieldBytes(0, data)|))
  {
    FieldRoundTrip(b, p, 0, data);
  }

  /** The widths of the header's fields and length prefixes. */
  predicate HeaderFits(h: Header) {
    && |h.cipher| < U32_SIZE && h.compression < U32_SIZE && |h.masterSeed| < U32_SIZE && |h.encIv| < U32_SIZE
    && KdfFits(h.kdf) && |DictOf(h.kdf)| < U32_SIZE
  }

  lemma ExportFits(rnd: Random)
    requires |rnd.masterSeed| == 32 && |rnd.encIv| == 16 && |rnd.kdfSalt| == 32
    ensures HeaderFits(OutHeader(rnd))
  {
  }

  lemma HeaderSettings(h: Header, h1: Header, h2: Header, h3: Header, h4: Header, h5: Header, n1: nat, n2: nat,
                       n3: nat, n4: nat, n5: nat)
    requires HeaderFits(h)
    ensures SetHeader(h1, RawField(2, h.cipher, n1)) == Success(h1.(cipher := h.cipher))
    ensures SetHeader(h2, RawField(3, Le(h.compression, 4), n2)) == Success(h2.(compression := h.compression))
    ensures SetHeader(h3, RawField(4, h.masterSeed, n3)) == Success(h3.(masterSeed := h.masterSeed))
    ensures SetHeader(h4, RawField(7, h.encIv, n4)) == Success(h4.(encIv := h.encIv))
    ensures SetHeader(h5, RawField(11, DictOf(h.kdf), n5)) == Success(h5.(kdf := h.kdf))
  {
    hide ReadDict, DictOf, Le, FromLe;
    Widths();
    LeRoundTrip(h.compression, 4);
    DictRoundTrip(h.kdf);
  }

  lemma HeaderFields(b: seq<byte>, p: nat, h: Header)
    requires HeaderFits(h)
    requires At(b, p, FieldBytes(2, h.cipher)
                      + (FieldBytes(3, Le(h.compression, 4))
                      + (FieldBytes(4, h.masterSeed)
                      + (FieldBytes(7, h.encIv)
                      + (FieldBytes(11, DictOf(h.kdf))
                      + FieldBytes(0, [0x0d, 0x0a, 0x0d, 0x0a]))))))
    ensures ReadHeader(b, p, NO_HEADER)
         == Success((h, p + |FieldBytes(2, h.cipher)| + |FieldBytes(3, Le(h.compression, 4))|
                     + |FieldBytes(4, h.masterSeed)|
                     + |FieldBytes(7, h.encIv)| + |FieldBytes(11, DictOf(h.kdf))|
                     + |FieldBytes(0, [0x0d, 0x0a, 0x0d, 0x0a])|))
  {
    hide ReadHeader, SetHeader, FieldBytes, DictOf, Le, At;
    var dict, end := DictOf(h.kdf), [0x0d, 0x0a, 0x0d, 0x0a];
    var f2, f3, f4, f7, f11, f0 := FieldBytes(2, h.cipher), FieldBytes(3, Le(h.compression, 4)),
                                   FieldBytes(4, h.masterSeed), FieldBytes(7, h.encIv), FieldBytes(11, dict),
                                   FieldBytes(0, end);
    var h1 := NO_HEADER.(cipher := h.cipher);
    var h2 := h1.(compression := h.compression);
    var h3 := h2.(masterSeed := h.masterSeed);
    var h4 := h3.(encIv := h.encIv);
    var p2 := p + |f2|;
    var p3 := p2 + |f3|;
    var p4 := p3 + |f4|;
    var p7 := p4 + |f7|;
    HeaderSettings(h, NO_HEADER, h1, h2, h3, h4, p + 5 + |h.cipher|, p2 + 9, p3 + 5 + |h.masterSeed|,
                   p4 + 5 + |h.encIv|, p7 + 5 + |dict|);
    HeaderStep(b, p, 2, h.cipher, f3 + (f4 + (f7 + (f11 + f0))), NO_HEADER, h1);
    HeaderStep(b, p2, 3, Le(h.compression, 4), f4 + (f7 + (f11 + f0)), h1, h2);
    HeaderStep(b, p3, 4, h.masterSeed, f7 + (f11 + f0), h2, h3);
    HeaderStep(b, p4, 7, h.encIv, f11 + f0, h3, h4);
    HeaderStep(b, p7, 11, dict, f0, h4, h);
    HeaderEnd(b, p7 + |f11|, end, h);
  }

  /** A file that begins with a header, an export's or any other's, is recognised, and its header is read as
      what it was written for and ends where it was written to end. */
  lemma HeaderRoundTrip(b: seq<byte>, h: Header)
    requires HeaderFits(h) && At(b, 0, HeaderOf(h))
    ensures Preamble(b) == Success(())
    ensures ReadHeader(b, 12, NO_HEADER) == Success((h, |HeaderOf(h)|))
  {
    hide ReadHeader, FieldBytes, DictOf, At, Le;
    Widths();
    var fields := FieldBytes(2, h.cipher)
                  + (FieldBytes(3, Le(h.compression, 4))
                  + (FieldBytes(4, h.masterSeed)
                  + (FieldBytes(7, h.encIv)
                  + (FieldBytes(11, DictOf(h.kdf))
                  + FieldBytes(0, [0x0d, 0x0a, 0x0d, 0x0a])))));
    UintAtStart(b, 0, SIGNATURE1, 4, Le(SIGNATURE2, 4) + (Le(0, 2) + (Le(4, 2) + fields)));
    UintAtStart(b, 4, SIGNATURE2, 4, Le(0, 2) + (Le(4, 2) + fields));
    UintAtStart(b, 8, 0, 2, Le(4, 2) + fields);
    UintAtStart(b, 10, 4, 2, fields);
    HeaderFields(b, 12, h);
  }

  lemma ExportHeaderReads(b: seq<byte>, rnd: Random)
    requires |rnd.masterSeed| == 32 && |rnd.encIv| == 16 && |rnd.kdfSalt| == 32
    requires At(b, 0, HeaderBytes(rnd))
    ensures Preamble(b) == Success(())
    ensures ReadHeader(b, 12, NO_HEADER) == Success((OutHeader(rnd), |HeaderBytes(rnd)|))
  {
    hide HeaderOf, Preamble, ReadHeader, At;
    ExportFits(rnd);
    HeaderRoundTrip(b, OutHeader(rnd));
  }

  lemma InnerStep(b: seq<byte>, p: nat, id: byte, data: seq<byte>, rest: seq<byte>, h: Inner, h': Inner)
    requires At(b, p, FieldBytes(id, data) + rest) && |data| < U32_SIZE && id != 0
    requires SetInner(h, RawField(id, data, p + 5 + |data|)) == Success(h')
    ensures ReadInner(b, p, h) == ReadInner(b, p + |FieldBytes(id, data)|, h')
    ensures At(b, p + |FieldBytes(id, data)|, rest)
  {
    hide SetInner;
    AtConcat(b, p, FieldBytes(id, data), rest);
    FieldRoundTrip(b, p, id, data);
  }

  lemma InnerEnd(b: seq<byte>, p: nat, data: seq<byte>, h: Inner)
    requires At(b, p, FieldBytes(0, data)) && |data| < U32_SIZE
    ensures ReadInner(b, p, h) == Success((h, p + |FieldBytes(0, data)|))
  {
    FieldRoundTrip(b, p, 0, data);
  }

  lemma InnerSettings(rnd: Random, h1: Inner, h2: Inner, n1: nat, n2: nat)
    ensures SetInner(h1, RawField(1, Le(3, 4), n1)) == Success(h1.(streamId := 3))
    ensures SetInner(h2, RawField(2, rnd.innerKey, n2)) == Success(h2.(streamKey := rnd.innerKey))
  {
    hide Le, FromLe;
    Widths();
    LeRoundTrip(3, 4);
  }

  lemma InnerRoundTrip(rnd: Random, xml: seq<byte>)
    requires |rnd.innerKey| == 64
    ensures var b := InnerBytes(rnd, xml);
            var r := ReadInner(b, 0, Inner(0, []));
            r.Success? && r.value.0 == Inner(3, rnd.innerKey) && b[r.value.1..] == xml
  {
    hide ReadInner, SetInner, FieldBytes, At, Le;
    var b := InnerBytes(rnd, xml);
    AtStart(b);
    var f1, f2, f0 := FieldBytes(1, Le(3, 4)), FieldBytes(2, rnd.innerKey), FieldBytes(0, []);
    InnerSettings(rnd, Inner(0, []), Inner(3, []), 9, |f1| + 5 + |rnd.innerKey|);
    InnerStep(b, 0, 1, Le(3, 4), f2 + (f0 + xml), Inner(0, []), Inner(3, []));
    InnerStep(b, |f1|, 2, rnd.innerKey, f0 + xml, Inner(3, []), Inner(3, rnd.innerKey));
    AtConcat(b, |f1| + |f2|, f0, xml);
    InnerEnd(b, |f1| + |f2|, [], Inner(3, rnd.innerKey));
    assert b == (f1 + f2 + f0) + xml;
  }

  /** The inner payload reads back to the entries in normal form. */
  lemma PayloadRoundTrip(lib: Library, rnd: Random, entries: seq<Entry>)
    requires Lawful(lib) && Drawn(rnd, entries)
    ensures OpenPayload(lib, InnerBytes(rnd, DocumentBytes(lib, rnd, entries))) == Success(NormalForms(entries))
  {
    hide ReadInner, InnerBytes, Walk, Document, KdbxTree.FlattenAll, Xml.Render, Utf8.Encode, InnerStream;
    var ks := InnerStream(lib, rnd.innerKey);
    var es := KdbxTree.FlattenAll(Document(ks, rnd.rootId, rnd.entryIds, entries));
    InnerRoundTrip(rnd, DocumentBytes(lib, rnd, entries));
    KdbxPrintable.DocumentIsReadable(ks, rnd.rootId, rnd.entryIds, entries);
    KdbxReadBack.ExportReadsBack(ks, rnd.rootId, rnd.entryIds, entries);
  }

  /** The cost an export declares always passes the reader's own budget. */
  lemma ExportPassesBudget(lib: Library, salt: seq<byte>, composite: seq<byte>)
    requires KdfLaws(lib) && |salt| == 32
    ensures WithinBudget(OutKdf(salt))
    ensures Argon2Transform(lib, OutKdf(salt), composite).Success?
  {
    hide KDF_ARGON2ID, KDF_ARGON2D;
  }

  lemma MacFits(lib: Library, keys: Keys)
    requires DigestLaws(lib)
    ensures TagsFit(BlockMac(lib, keys))
  {
    var mac := BlockMac(lib, keys);
    forall i: nat, d: seq<byte>
      ensures |mac(i, d)| == 32
    {
      assert mac(i, d) == lib.hmac(BlockKey(lib, i, keys.hmacBase), Framed(i, d));
    }
  }

  /** Everything behind the header, whatever follows the last block: with the keys the file was sealed under
      the entries come out; with keys that give the header another tag, the answer is a wrong credential
      and nothing else. */
  lemma BodyRoundTrip(lib: Library, rnd: Random, sealed: Keys, used: Keys, entries: seq<Entry>, file: seq<byte>)
    requires Lawful(lib) && Drawn(rnd, entries)
    requires |sealed.cipherKey| == 32
    requires SealBody(lib, rnd, sealed, InnerBytes(rnd, DocumentBytes(lib, rnd, entries))) <= file
    ensures && |HeaderBytes(rnd)| <= |file|
            && (used == sealed ==>
                  OpenBody(lib, file, OutHeader(rnd), |HeaderBytes(rnd)|, used) == Success(NormalForms(entries)))
            && (HeaderTag(lib, used, HeaderBytes(rnd)) != HeaderTag(lib, sealed, HeaderBytes(rnd)) ==>
                  OpenBody(lib, file, OutHeader(rnd), |HeaderBytes(rnd)|, used) == Failure(WrongCredential))
  {
    hide HeaderBytes, InnerBytes, DocumentBytes, OpenPayload, ReadBlocks, BlockStream, At, Decipher, Decompress,
         Lawful, CIPHER_AES256, CIPHER_CHACHA20;
    LawfulDigests(lib);
    var inner := InnerBytes(rnd, DocumentBytes(lib, rnd, entries));
    var header := HeaderBytes(rnd);
    var tag := HeaderTag(lib, sealed, header);
    var text := SealedText(lib, rnd, sealed, inner);
    var blocks := BlockStream(BlockMac(lib, sealed), 0, text, BLOCK_SIZE);
    PrefixStands(file, header + (lib.sha256(header) + (tag + blocks)));
    AtConcat(file, 0, header, lib.sha256(header) + (tag + blocks));
    AtConcat(file, |header|, lib.sha256(header), tag + blocks);
    AtConcat(file, |header| + 32, tag, blocks);
    assert file[..|header|] == header by { AtStartIsPrefix(file, header); }
    TakeWhatIsThere(file, |header|, lib.sha256(header));
    TakeWhatIsThere(file, |header| + 32, tag);
    if used == sealed {
      MacFits(lib, sealed);
      BlocksRoundTrip(BlockMac(lib, sealed), file, |header| + 64, 0, text, BLOCK_SIZE, []);
      assert [] + text == text;
      Unpacks(lib, rnd, sealed, inner);
      PayloadRoundTrip(lib, rnd, entries);
    }
  }

  lemma PrefixStands(file: seq<byte>, x: seq<byte>)
    requires x <= file
    ensures At(file, 0, x)
  {
  }

  lemma AtStartIsPrefix(file: seq<byte>, x: seq<byte>)
    requires At(file, 0, x)
    ensures |x| <= |file| && file[..|x|] == x
  {
  }

  lemma LawfulDigests(lib: Library)
    requires Lawful(lib)
    ensures DigestLaws(lib)
  {
  }

  lemma Unpacks(lib: Library, rnd: Random, keys: Keys, inner: seq<byte>)
    requires Lawful(lib) && |keys.cipherKey| == 32 && |rnd.encIv| == 16
    ensures var text := SealedText(lib, rnd, keys, inner);
            && Decipher(lib, OutHeader(rnd), keys.cipherKey, text) == Success(lib.gzip(inner))
            && Decompress(lib, OutHeader(rnd).compression, lib.gzip(inner)) == Success(inner)
  {
  }

  /** The law of the format: whatever is exported under a password is imported under it, every entry in
      normal form, for all entries, passwords and random bytes. */
  lemma SavedFileOpens(lib: Library, rnd: Random, entries: seq<Entry>, password: string)
    requires Lawful(lib) && Drawn(rnd, entries)
    ensures SaveFile(lib, rnd, entries, password).Success? <==> password != ""
    ensures password != "" ==>
              OpenFile(lib, SaveFile(lib, rnd, entries, password).value, password, None)
                == Success(NormalForms(entries))
  {
    if password != "" {
      SavedFileUnder(lib, rnd, entries, password, password, None);
    }
  }

  /** Exporting what was imported from an export loses nothing more: the second import returns the very
      entries the first one did. */
  lemma SecondExportIsFaithful(lib: Library, rnd: Random, again: Random, entries: seq<Entry>, password: string,
                               second: string)
    requires Lawful(lib) && Drawn(rnd, entries) && Drawn(again, entries) && password != "" && second != ""
    ensures var first := OpenFile(lib, SaveFile(lib, rnd, entries, password).value, password, None);
            && first.Success? && Drawn(again, first.value)
            && OpenFile(lib, SaveFile(lib, again, first.value, second).value, second, None) == first
  {
    hide OpenFile, SaveFile, Lawful;
    SavedFileOpens(lib, rnd, entries, password);
    NormalFormsAreStable(entries);
    SavedFileOpens(lib, again, NormalForms(entries), second);
  }

  /** The keys an export derives, and those the importer derives from what it was given. */
  function KeysFor(lib: Library, rnd: Random, password: string, keyfile: Option<seq<byte>>): Res<Keys> {
    var t :- Argon2Transform(lib, OutKdf(rnd.kdfSalt), CompositeKey(lib, password, keyfile));
    Success(DeriveKeys(lib, rnd.masterSeed, t))
  }

  lemma KeysExist(lib: Library, rnd: Random, password: string, keyfile: Option<seq<byte>>)
    requires Lawful(lib) && |rnd.kdfSalt| == 32
    ensures KeysFor(lib, rnd, password, keyfile).Success?
            && |KeysFor(lib, rnd, password, keyfile).value.cipherKey| == 32
  {
    hide Argon2Transform, CompositeKey, OutKdf;
    ExportPassesBudget(lib, rnd.kdfSalt, CompositeKey(lib, password, keyfile));
  }

  /** Opening an export with any password and key file: the entries when the derived keys are the
      file's, a wrong credential whenever they tag the header differently. */
  lemma SavedFileUnder(lib: Library, rnd: Random, entries: seq<Entry>, password: string, other: string,
                       keyfile: Option<seq<byte>>)
    requires Lawful(lib) && Drawn(rnd, entries) && password != ""
    ensures SaveFile(lib, rnd, entries, password).Success?
    ensures KeysFor(lib, rnd, password, None).Success? && KeysFor(lib, rnd, other, keyfile).Success?
    ensures var r := OpenFile(lib, SaveFile(lib, rnd, entries, password).value, other, keyfile);
            var sealed, used := KeysFor(lib, rnd, password, None).value, KeysFor(lib, rnd, other, keyfile).value;
            && (used == sealed ==> r == Success(NormalForms(entries)))
            && (HeaderTag(lib, used, HeaderBytes(rnd)) != HeaderTag(lib, sealed, HeaderBytes(rnd)) ==>
                  r == Failure(WrongCredential))
  {
    hide Argon2Transform, CompositeKey, DeriveKeys, ReadHeader, Preamble, OpenBody, HeaderBytes, HeaderOf, InnerBytes,
         DocumentBytes,
         BlockStream, KDF_ARGON2ID, CIPHER_AES256, CIPHER_CHACHA20, KDF_ARGON2D;
    KeysExist(lib, rnd, password, None);
    KeysExist(lib, rnd, other, keyfile);
    var sealed, used := KeysFor(lib, rnd, password, None).value, KeysFor(lib, rnd, other, keyfile).value;
    var file := SealBody(lib, rnd, sealed, InnerBytes(rnd, DocumentBytes(lib, rnd, entries)));
    assert At(file, 0, HeaderBytes(rnd));
    ExportHeaderReads(file, rnd);
    BodyRoundTrip(lib, rnd, sealed, used, entries, file);
  }
}
