/** What can be made of a saved file without making tags: nothing that opens to anything else. */
module KdbxTampering {
  import opened Wrappers
  import opened Bytes
  import opened KdbxTypes
  import opened KdbxFrame
  import opened KdbxBlocks
  import opened KdbxFile
  import opened KdbxWriter
  import opened KdbxRoundTrip

  function Saved(lib: Library, rnd: Random, keys: Keys, entries: seq<Entry>): seq<byte>
    requires DigestLaws(lib) && Drawn(rnd, entries)
  {
    SealBody(lib, rnd, keys, InnerBytes(rnd, DocumentBytes(lib, rnd, entries)))
  }

  /** The blocks of a saved file, without the empty one. */
  function SavedBlocks(lib: Library, rnd: Random, keys: Keys, entries: seq<Entry>): seq<seq<byte>>
    requires DigestLaws(lib) && Drawn(rnd, entries)
  {
    Cut(SealedText(lib, rnd, keys, InnerBytes(rnd, DocumentBytes(lib, rnd, entries))), BLOCK_SIZE)
  }

  /** Where tags stand in `file`, they are the saved file's: that of its header, and those of its blocks. */
  predicate OnlySavedTags(lib: Library, rnd: Random, keys: Keys, chunks: seq<seq<byte>>, file: seq<byte>) {
    match ReadHeader(file, 12, NO_HEADER)
    case Failure(_) => true
    case Success((_, end)) =>
      var tag := TakeAt(file, end + 32, 32);
      && (tag.Success? ==> tag.value == HeaderTag(lib, keys, HeaderBytes(rnd)))
      && NoneForged(BlockMac(lib, keys), chunks, TagsIn(file, end + 64))
  }

  // ----- what the tags are asked for: no collisions with messages in this file -----

  /** The tag of another header, under the keys derived with it, is not that of the saved header. */
  predicate HeaderApart(lib: Library, rnd: Random, keys: Keys, password: string, file: seq<byte>) {
    match ReadHeader(file, 12, NO_HEADER)
    case Failure(_) => true
    case Success((h, end)) =>
      match Argon2Transform(lib, h.kdf, CompositeKey(lib, password, None))
      case Failure(_) => true
      case Success(t) =>
        file[..end] == HeaderBytes(rnd) ||
        HeaderTag(lib, DeriveKeys(lib, h.masterSeed, t), file[..end]) != HeaderTag(lib, keys, HeaderBytes(rnd))
  }

  /** Different messages, one of a saved block and one of bytes in `file`, have different tags. */
  ghost predicate BlocksApart(lib: Library, keys: Keys, chunks: seq<seq<byte>>, file: seq<byte>) {
    forall i: nat, k: nat, q: nat, d: seq<byte> |
      && i <= |chunks| && k <= |chunks| && At(file, q, d) && Framed(k, d) != Framed(i, Held(chunks, i)) ::
      BlockMac(lib, keys)(k, d) != BlockMac(lib, keys)(i, Held(chunks, i))
  }

  /** A framed message tells its 64-bit index and its data. */
  lemma FramesDiffer(i: nat, d: seq<byte>, k: nat, e: seq<byte>)
    requires i < U64_SIZE && k < U64_SIZE && Framed(i, d) == Framed(k, e)
    ensures i == k && d == e
  {
    hide Le;
    Widths();
    LeRoundTrip(i, 8);
    LeRoundTrip(k, 8);
    var f, g := Framed(i, d), Framed(k, e);
    assert f[..8] == Le(i, 8) && g[..8] == Le(k, 8);
    assert f[12..] == d && g[12..] == e;
  }

  lemma ApartIsDistinguished(lib: Library, keys: Keys, chunks: seq<seq<byte>>, file: seq<byte>)
    requires BlocksApart(lib, keys, chunks, file) && |chunks| < U64_SIZE
    ensures Distinguished(BlockMac(lib, keys), chunks, file)
  {
    hide Framed, BlockMac, At, Held;
    var mac := BlockMac(lib, keys);
    forall i: nat, k: nat, q: nat, d: seq<byte> |
      i <= |chunks| && k <= |chunks| && At(file, q, d) && mac(k, d) == mac(i, Held(chunks, i))
      ensures k == i && d == Held(chunks, i)
    {
      FramesDiffer(k, d, i, Held(chunks, i));
    }
  }

  // ----- the saved file and no other -----

  lemma OpenedWasAuthentic(lib: Library, file: seq<byte>, password: string)
    returns (h: Header, end: nat, transformed: seq<byte>)
    requires DigestLaws(lib) && OpenFile(lib, file, password, None).Success?
    ensures ReadHeader(file, 12, NO_HEADER) == Success((h, end)) && end <= |file|
    ensures Argon2Transform(lib, h.kdf, CompositeKey(lib, password, None)) == Success(transformed)
    ensures Authentic(lib, file, end, DeriveKeys(lib, h.masterSeed, transformed))
  {
    hide ReadHeader, Argon2Transform, CompositeKey, DeriveKeys, ReadBlocks, Decipher, Decompress, OpenPayload,
         HeaderTag, CIPHER_AES256, CIPHER_CHACHA20, KDF_ARGON2D, KDF_ARGON2ID, Preamble;
    var r := ReadHeader(file, 12, NO_HEADER).value;
    h, end := r.0, r.1;
    transformed := Argon2Transform(lib, h.kdf, CompositeKey(lib, password, None)).value;
  }

  lemma AuthenticIsSaved(lib: Library, rnd: Random, keys: Keys, entries: seq<Entry>, file: seq<byte>)
    requires DigestLaws(lib) && Drawn(rnd, entries)
    requires At(file, 0, HeaderBytes(rnd)) && |HeaderBytes(rnd)| <= |file|
    requires Authentic(lib, file, |HeaderBytes(rnd)|, keys)
    requires var chunks := SavedBlocks(lib, rnd, keys, entries);
             && NoneForged(BlockMac(lib, keys), chunks, TagsIn(file, |HeaderBytes(rnd)| + 64))
             && Distinguished(BlockMac(lib, keys), chunks, file)
    ensures Saved(lib, rnd, keys, entries) <= file
  {
    hide HeaderBytes, ReadBlocks, BlockStream, TagsIn, At, TakeAt, NoneForged, Distinguished, SealedText, InnerBytes,
         DocumentBytes, Cut, BlockMac, HeaderTag;
    var header := HeaderBytes(rnd);
    var sha, tag := lib.sha256(header), HeaderTag(lib, keys, header);
    var text := SealedText(lib, rnd, keys, InnerBytes(rnd, DocumentBytes(lib, rnd, entries)));
    AtStartIsPrefix(file, header);
    TakenStands(file, |header|, sha);
    assert |tag| == 32 by { TagLength(lib, keys, header); }
    TakenStands(file, |header| + 32, tag);
    OnlyTheSealedStream(BlockMac(lib, keys), file, |header| + 64, text, BLOCK_SIZE);
    var blocks := BlockStream(BlockMac(lib, keys), 0, text, BLOCK_SIZE);
    JoinBlocks(file, |header| + 32, tag, blocks);
    JoinBlocks(file, |header|, sha, tag + blocks);
    JoinBlocks(file, 0, header, sha + (tag + blocks));
    AtStartIsPrefix(file, header + (sha + (tag + blocks)));
  }

  lemma TagLength(lib: Library, keys: Keys, header: seq<byte>)
    requires DigestLaws(lib)
    ensures |HeaderTag(lib, keys, header)| == 32
  {
  }

  lemma SavedPrefixOpens(lib: Library, rnd: Random, keys: Keys, entries: seq<Entry>, password: string, file: seq<byte>)
    requires Lawful(lib) && Drawn(rnd, entries)
    requires KeysFor(lib, rnd, password, None) == Success(keys) && Saved(lib, rnd, keys, entries) <= file
    ensures OpenFile(lib, file, password, None) == Success(NormalForms(entries))
  {
    hide Argon2Transform, CompositeKey, DeriveKeys, ReadHeader, Preamble, OpenBody, HeaderBytes, HeaderOf, InnerBytes,
         DocumentBytes, BlockStream, KDF_ARGON2ID, CIPHER_AES256, CIPHER_CHACHA20, KDF_ARGON2D, Lawful;
    LawfulDigests(lib);
    KeysExist(lib, rnd, password, None);
    PrefixStands(file, HeaderBytes(rnd));
    ExportHeaderReads(file, rnd);
    BodyRoundTrip(lib, rnd, keys, keys, entries, file);
  }

  lemma SavedIsWhatIsSaved(lib: Library, rnd: Random, keys: Keys, entries: seq<Entry>, password: string)
    requires DigestLaws(lib) && Drawn(rnd, entries) && KeysFor(lib, rnd, password, None) == Success(keys)
    requires password != ""
    ensures SaveFile(lib, rnd, entries, password) == Success(Saved(lib, rnd, keys, entries))
  {
    hide Argon2Transform, CompositeKey, DeriveKeys, SealBody, InnerBytes, DocumentBytes;
  }

  /** Of all files that carry none but a saved file's tags, whatever else is changed in them, those open
      that begin with the saved file, and no others; and they open to its entries. */
  lemma OnlyTheSavedFileOpens(lib: Library, rnd: Random, keys: Keys, entries: seq<Entry>, password: string,
                              file: seq<byte>)
    requires Lawful(lib) && Drawn(rnd, entries) && KeysFor(lib, rnd, password, None) == Success(keys)
    requires password != ""
    requires var chunks := SavedBlocks(lib, rnd, keys, entries);
             && |chunks| < U64_SIZE && OnlySavedTags(lib, rnd, keys, chunks, file)
             && BlocksApart(lib, keys, chunks, file) && HeaderApart(lib, rnd, keys, password, file)
    ensures SaveFile(lib, rnd, entries, password) == Success(Saved(lib, rnd, keys, entries))
    ensures OpenFile(lib, file, password, None).Success? <==> Saved(lib, rnd, keys, entries) <= file
    ensures OpenFile(lib, file, password, None).Success? ==>
              OpenFile(lib, file, password, None) == Success(NormalForms(entries))
  {
    hide OpenFile, SaveFile, Saved, SavedBlocks, Lawful, Argon2Transform, CompositeKey, DeriveKeys, ReadHeader,
         HeaderBytes, NoneForged, TagsIn, ReadBlocks, BlocksApart, HeaderTag, BlockMac;
    LawfulDigests(lib);
    SavedIsWhatIsSaved(lib, rnd, keys, entries, password);
    if OpenFile(lib, file, password, None).Success? {
      var h, end, t := OpenedWasAuthentic(lib, file, password);
      assert file[..end] == HeaderBytes(rnd);
      PrefixStands(file, HeaderBytes(rnd));
      ExportHeaderReads(file, rnd);
      ApartIsDistinguished(lib, keys, SavedBlocks(lib, rnd, keys, entries), file);
      AuthenticIsSaved(lib, rnd, keys, entries, file);
    }
    if Saved(lib, rnd, keys, entries) <= file {
      SavedPrefixOpens(lib, rnd, keys, entries, password, file);
    }
  }

  // ----- the conditions can be met -----

  /** A tag for every message: its own for the header and for each block, one for all others. */
  ghost function MadeTag(header: seq<byte>, chunks: seq<seq<byte>>, message: seq<byte>): (tag: seq<byte>)
    ensures |tag| == 32
  {
    if message == header then [2] + Le(0, 31)
    else if exists i: nat :: i <= |chunks| && message == Framed(i, Held(chunks, i)) then
      var i: nat :| i <= |chunks| && message == Framed(i, Held(chunks, i));
      [1] + Le(i, 31)
    else [0] + Le(0, 31)
  }

  lemma Wide()
    ensures U64_SIZE <= Pow256(31)
  {
    Widths();
    PowGrows(8, 31);
  }

  lemma {:induction false} PowGrows(a: nat, b: nat)
    requires a <= b
    ensures Pow256(a) <= Pow256(b)
  {
    if a < b {
      PowGrows(a, b - 1);
    }
  }

  lemma MadeTagOf(header: seq<byte>, chunks: seq<seq<byte>>, message: seq<byte>) returns (i: nat)
    requires |chunks| < U64_SIZE
    ensures var tag := MadeTag(header, chunks, message);
            && (tag[0] == 2 <==> message == header)
            && (message != header && (exists k: nat :: k <= |chunks| && message == Framed(k, Held(chunks, k)))
                ==> tag[0] == 1)
            && (tag[0] == 1 ==> i < U64_SIZE && message == Framed(i, Held(chunks, i)) && tag[1..] == Le(i, 31))
  {
    hide Framed, Held, Le;
    i := 0;
    var tag := MadeTag(header, chunks, message);
    if tag[0] == 1 {
      i :| i <= |chunks| && message == Framed(i, Held(chunks, i)) && tag == [1] + Le(i, 31);
    }
  }

  /** Only the message itself has the tag of the header or of a block. */
  lemma MadeTagsDiffer(header: seq<byte>, chunks: seq<seq<byte>>, message: seq<byte>, other: seq<byte>)
    requires |chunks| < U64_SIZE && message != other
    requires message == header || exists i: nat :: i <= |chunks| && message == Framed(i, Held(chunks, i))
    ensures MadeTag(header, chunks, message) != MadeTag(header, chunks, other)
  {
    hide MadeTag, Framed, Held, Le;
    var i := MadeTagOf(header, chunks, message);
    var k := MadeTagOf(header, chunks, other);
    Wide();
    LeRoundTrip(i, 31);
    LeRoundTrip(k, 31);
  }

  ghost function WithTags(lib: Library, header: seq<byte>, chunks: seq<seq<byte>>): Library {
    lib.(hmac := (key, message) => MadeTag(header, chunks, message))
  }

  lemma WithTagsIsLawful(lib: Library, header: seq<byte>, chunks: seq<seq<byte>>)
    requires Lawful(lib)
    ensures Lawful(WithTags(lib, header, chunks))
  {
  }

  lemma WithTagsSavesTheSame(lib: Library, rnd: Random, keys: Keys, entries: seq<Entry>, password: string,
                             header: seq<byte>, chunks: seq<seq<byte>>)
    requires Lawful(lib) && Drawn(rnd, entries)
    ensures var good := WithTags(lib, header, chunks);
            && DigestLaws(good) && KeysFor(good, rnd, password, None) == KeysFor(lib, rnd, password, None)
            && SavedBlocks(good, rnd, keys, entries) == SavedBlocks(lib, rnd, keys, entries)
  {
    hide MadeTag, Cut, Document, HexDigits;
    WithTagsIsLawful(lib, header, chunks);
  }

  /** Whatever the rest of the library is, there are tags under which no file can break the conditions. */
  lemma CanBeKeptApart(lib: Library, rnd: Random, keys: Keys, entries: seq<Entry>, password: string)
    returns (good: Library)
    requires Lawful(lib) && Drawn(rnd, entries) && KeysFor(lib, rnd, password, None) == Success(keys)
    requires |SavedBlocks(lib, rnd, keys, entries)| < U64_SIZE
    ensures good == lib.(hmac := good.hmac) && Lawful(good)
    ensures KeysFor(good, rnd, password, None) == Success(keys)
    ensures SavedBlocks(good, rnd, keys, entries) == SavedBlocks(lib, rnd, keys, entries)
    ensures forall file: seq<byte> ::
              && BlocksApart(good, keys, SavedBlocks(good, rnd, keys, entries), file)
              && HeaderApart(good, rnd, keys, password, file)
  {
    hide Lawful, SavedBlocks, KeysFor, BlocksApart, HeaderApart, HeaderBytes;
    LawfulDigests(lib);
    var chunks := SavedBlocks(lib, rnd, keys, entries);
    good := WithTags(lib, HeaderBytes(rnd), chunks);
    WithTagsIsLawful(lib, HeaderBytes(rnd), chunks);
    WithTagsSavesTheSame(lib, rnd, keys, entries, password, HeaderBytes(rnd), chunks);
    forall file: seq<byte>
      ensures BlocksApart(good, keys, chunks, file) && HeaderApart(good, rnd, keys, password, file)
    {
      BlocksKeptApart(lib, HeaderBytes(rnd), keys, chunks, file);
      HeaderKeptApart(lib, rnd, keys, chunks, password, file);
    }
  }

  lemma BlocksKeptApart(lib: Library, header: seq<byte>, keys: Keys, chunks: seq<seq<byte>>, file: seq<byte>)
    requires |chunks| < U64_SIZE
    ensures BlocksApart(WithTags(lib, header, chunks), keys, chunks, file)
  {
    hide MadeTag, Framed, At, Held;
    forall i: nat, k: nat, q: nat, d: seq<byte> |
      i <= |chunks| && k <= |chunks| && At(file, q, d) && Framed(k, d) != Framed(i, Held(chunks, i))
      ensures BlockMac(WithTags(lib, header, chunks), keys)(k, d)
              != BlockMac(WithTags(lib, header, chunks), keys)(i, Held(chunks, i))
    {
      MadeTagsDiffer(header, chunks, Framed(i, Held(chunks, i)), Framed(k, d));
    }
  }

  lemma HeaderKeptApart(lib: Library, rnd: Random, keys: Keys, chunks: seq<seq<byte>>, password: string,
                        file: seq<byte>)
    requires |chunks| < U64_SIZE
    ensures HeaderApart(WithTags(lib, HeaderBytes(rnd), chunks), rnd, keys, password, file)
  {
    hide MadeTag, Framed, HeaderBytes, Argon2Transform, CompositeKey, DeriveKeys, ReadHeader;
    var r := ReadHeader(file, 12, NO_HEADER);
    if r.Success? && file[..r.value.1] != HeaderBytes(rnd) {
      MadeTagsDiffer(HeaderBytes(rnd), chunks, HeaderBytes(rnd), file[..r.value.1]);
    }
  }

  lemma SavedParts(lib: Library, rnd: Random, keys: Keys, entries: seq<Entry>, file: seq<byte>)
    requires DigestLaws(lib) && Drawn(rnd, entries) && Saved(lib, rnd, keys, entries) <= file
    ensures var n := |HeaderBytes(rnd)|;
            && ReadHeader(file, 12, NO_HEADER) == Success((OutHeader(rnd), n))
            && TakeAt(file, n + 32, 32) == Success(HeaderTag(lib, keys, HeaderBytes(rnd)))
            && At(file, n + 64, Blocks(BlockMac(lib, keys), 0, SavedBlocks(lib, rnd, keys, entries)))
  {
    hide HeaderBytes, SealedText, InnerBytes, DocumentBytes, BlockStream, ReadHeader, At, TakeAt, Cut, BlockMac,
         HeaderTag, Preamble, Blocks;
    var header := HeaderBytes(rnd);
    var text := SealedText(lib, rnd, keys, InnerBytes(rnd, DocumentBytes(lib, rnd, entries)));
    var mac := BlockMac(lib, keys);
    var sha, tag, blocks := lib.sha256(header), HeaderTag(lib, keys, header), BlockStream(mac, 0, text, BLOCK_SIZE);
    TagLength(lib, keys, header);
    PrefixStands(file, header + (sha + (tag + blocks)));
    AtConcat(file, 0, header, sha + (tag + blocks));
    ExportHeaderReads(file, rnd);
    AtConcat(file, |header|, sha, tag + blocks);
    AtConcat(file, |header| + 32, tag, blocks);
    TakeWhatIsThere(file, |header| + 32, tag);
    CutJoins(mac, 0, text, BLOCK_SIZE);
  }

  /** And every file that begins with the saved one carries only its tags. */
  lemma SavedCarriesItsTags(lib: Library, rnd: Random, keys: Keys, entries: seq<Entry>, file: seq<byte>)
    requires DigestLaws(lib) && Drawn(rnd, entries) && Saved(lib, rnd, keys, entries) <= file
    ensures OnlySavedTags(lib, rnd, keys, SavedBlocks(lib, rnd, keys, entries), file)
  {
    hide HeaderBytes, SealedText, InnerBytes, DocumentBytes, ReadHeader, TagsIn, NoneForged, At, TakeAt, Cut, BlockMac,
         HeaderTag, Saved, OutHeader, Blocks, NoneEmpty;
    SavedParts(lib, rnd, keys, entries, file);
    var text := SealedText(lib, rnd, keys, InnerBytes(rnd, DocumentBytes(lib, rnd, entries)));
    CutJoins(BlockMac(lib, keys), 0, text, BLOCK_SIZE);
    CutIsSmall(text, BLOCK_SIZE);
    MacFits(lib, keys);
    var chunks := SavedBlocks(lib, rnd, keys, entries);
    assert chunks[0..] == chunks;
    OwnTags(BlockMac(lib, keys), file, |HeaderBytes(rnd)| + 64, 0, chunks);
  }

  lemma {:induction false} CutIsSmall(text: seq<byte>, size: nat)
    requires size >= 1
    ensures forall c | c in Cut(text, size) :: |c| <= size
    decreases |text|
  {
    if |text| > size {
      CutIsSmall(text[size..], size);
    }
  }

  lemma {:induction false} OwnTags(mac: Mac, b: seq<byte>, p: nat, index: nat, chunks: seq<seq<byte>>)
    requires TagsFit(mac) && index <= |chunks| && NoneEmpty(chunks)
    requires forall c | c in chunks :: |c| < U32_SIZE
    requires At(b, p, Blocks(mac, index, chunks[index..]))
    ensures NoneForged(mac, chunks, TagsIn(b, p))
    decreases |chunks| - index
  {
    hide At, TakeAt, UintAt, BlockBytes;
    var data, rest := Held(chunks, index), chunks[index..];
    if index == |chunks| {
      TagFirst(mac, b, p, index, data);
      assert TagsIn(b, p) == [mac(index, data)];
    } else {
      assert rest[0] == data && rest[1..] == chunks[index + 1..] && data in chunks;
      AtConcat(b, p, BlockBytes(mac, index, data), Blocks(mac, index + 1, rest[1..]));
      BlockLength(mac, index, data);
      TagFirst(mac, b, p, index, data);
      OwnTags(mac, b, p + 36 + |data|, index + 1, chunks);
    }
  }

  lemma TagFirst(mac: Mac, b: seq<byte>, p: nat, index: nat, data: seq<byte>)
    requires TagsFit(mac) && |data| < U32_SIZE && At(b, p, BlockBytes(mac, index, data))
    ensures TagsIn(b, p) == [mac(index, data)] + (if data == [] then [] else TagsIn(b, p + 36 + |data|))
  {
    hide At, TakeAt, UintAt, BlockBytes;
    BlockParts(mac, b, p, index, data);
  }
}
