/** Opening and saving a whole KDBX4 file over abstract cryptography, compression and XML reading. */
module KdbxFile {
  import opened Wrappers
  import opened Bytes
  import opened KdbxTypes
  import opened KdbxFrame
  import opened KdbxWalker
  import opened KdbxWriter
  import KdbxTree
  import KdbxXmlText
  import Xml
  import Utf8

  /** The foreign code a file passes through. */
  datatype Library = Library(
    sha256: seq<byte> -> seq<byte>,
    sha512: seq<byte> -> seq<byte>,
    hmac: (seq<byte>, seq<byte>) -> seq<byte>,
    argonParams: (nat, nat, nat) -> bool,
    argon: (bool, bool, nat, nat, nat, seq<byte>, seq<byte>) -> Option<seq<byte>>,
    cbcEncrypt: (seq<byte>, seq<byte>, seq<byte>) -> seq<byte>,
    cbcDecrypt: (seq<byte>, seq<byte>, seq<byte>) -> Option<seq<byte>>,
    chacha: (seq<byte>, seq<byte>, nat) -> byte,
    gzip: seq<byte> -> seq<byte>,
    gunzip: seq<byte> -> Option<seq<byte>>,
    xmlKeyfile: seq<byte> -> Option<seq<byte>>,
    events: seq<byte> -> seq<Xml.Event>)

  ghost predicate DigestLaws(lib: Library) {
    && (forall x :: |lib.sha256(x)| == 32)
    && (forall x :: |lib.sha512(x)| == 64)
    && (forall k, x :: |lib.hmac(k, x)| == 32)
  }

  /** Argon2id at 64 MiB, 3 passes and 1 lane accepts every 32-byte salt and yields 32 bytes. */
  ghost predicate KdfLaws(lib: Library) {
    && lib.argonParams(OUT_KDF_MEM_BYTES / 1024, OUT_KDF_ITERATIONS, OUT_KDF_PARALLELISM)
    && forall salt, pw | |salt| == 32 ::
         lib.argon(true, false, OUT_KDF_MEM_BYTES / 1024, OUT_KDF_ITERATIONS, OUT_KDF_PARALLELISM, salt, pw).Some?
  }

  ghost predicate CipherLaws(lib: Library) {
    forall k, iv, x | |k| == 32 && |iv| == 16 :: lib.cbcDecrypt(k, iv, lib.cbcEncrypt(k, iv, x)) == Some(x)
  }

  /** The reader is only asked to give back documents: a declaration, then properly nested elements. */
  ghost predicate CodecLaws(lib: Library) {
    && (forall x :: lib.gunzip(lib.gzip(x)) == Some(x))
    && (forall es | Xml.Readable(es) :: lib.events(Utf8.Encode(Xml.Render(es))) == es)
  }

  ghost predicate Lawful(lib: Library) {
    DigestLaws(lib) && KdfLaws(lib) && CipherLaws(lib) && CodecLaws(lib)
  }

  // ----- keys -----

  const CIPHER_AES256: seq<byte> := [0x31, 0xc1, 0xf2, 0xe6, 0xbf, 0x71, 0x43, 0x50, 0xbe, 0x58, 0x05, 0x21, 0x6a,
                                     0xfc, 0x5a, 0xff]
  const CIPHER_CHACHA20: seq<byte> := [0xd6, 0x03, 0x8a, 0x2b, 0x8b, 0x6f, 0x4c, 0xb5, 0xa5, 0x24, 0x33, 0x9a, 0x31,
                                       0xdb, 0xb5, 0x9a]

  const MAX_KDF_MEM_BYTES: nat := 0x4000_0000
  const MAX_KDF_PARALLELISM: nat := 64
  const MAX_KDF_WORK_KIB_PASSES: nat := 0x400_0000

  function Max(a: nat, b: nat): nat {
    if a < b then b else a
  }

  function SaturatingMul(a: nat, b: nat): nat {
    if a * b < U64_SIZE then a * b else U64_SIZE - 1
  }

  predicate WithinBudget(kdf: Kdf) {
    && kdf.memBytes <= MAX_KDF_MEM_BYTES
    && kdf.parallelism <= MAX_KDF_PARALLELISM
    && SaturatingMul(Max(kdf.memBytes / 1024, 1), kdf.iterations) <= MAX_KDF_WORK_KIB_PASSES
  }

  function Argon2Transform(lib: Library, kdf: Kdf, composite: seq<byte>): Res<seq<byte>> {
    if kdf.uuid != KDF_ARGON2D && kdf.uuid != KDF_ARGON2ID then Failure(UnsupportedKdf)
    else if !WithinBudget(kdf) then Failure(KdfTooExpensive(kdf.memBytes / 1024, kdf.iterations))
    else if kdf.memBytes / 1024 >= U32_SIZE then Failure(Corrupt("KDF mem"))
    else if kdf.iterations >= U32_SIZE then Failure(Corrupt("KDF iters"))
    else if !lib.argonParams(kdf.memBytes / 1024, kdf.iterations, kdf.parallelism) then Failure(Corrupt("KDF params"))
    else
      match lib.argon(kdf.uuid == KDF_ARGON2ID, kdf.version == 0x10, kdf.memBytes / 1024, kdf.iterations,
                      kdf.parallelism, kdf.salt, composite)
      case None => Failure(Corrupt("argon2"))
      case Some(out) => Success(out)
  }

  /** The budget bounds the work itself: memory times passes, even for a file that declares next to no
      memory, so that neither the `u32` conversions nor a saturated product can let more through. */
  lemma BudgetBoundsWork(kdf: Kdf)
    requires WithinBudget(kdf)
    ensures kdf.memBytes / 1024 * kdf.iterations <= MAX_KDF_WORK_KIB_PASSES
    ensures kdf.iterations <= MAX_KDF_WORK_KIB_PASSES
    ensures kdf.memBytes / 1024 < U32_SIZE && kdf.iterations < U32_SIZE
  {
    var m := Max(kdf.memBytes / 1024, 1);
    assert m * kdf.iterations <= MAX_KDF_WORK_KIB_PASSES;
    assert m >= 1;
    assert kdf.iterations <= m * kdf.iterations;
    assert kdf.memBytes / 1024 * kdf.iterations <= m * kdf.iterations;
  }

  function HexDigits(hex: seq<byte>): Option<seq<byte>> {
    if hex == [] then Some([])
    else if |hex| == 1 then None
    else match (Xml.DigitValue(hex[0] as char, 16), Xml.DigitValue(hex[1] as char, 16))
      case (Some(hi), Some(lo)) =>
        (match HexDigits(hex[2..])
         case None => None
         case Some(rest) => Some([hi * 16 + lo] + rest))
      case _ => None
  }

  function KeyfileKey(lib: Library, file: seq<byte>): seq<byte> {
    match lib.xmlKeyfile(file)
    case Some(k) => k
    case None =>
      if |file| == 32 then file
      else if |file| == 64 && HexDigits(file).Some? then HexDigits(file).value
      else lib.sha256(file)
  }

  function CompositeKey(lib: Library, password: string, keyfile: Option<seq<byte>>): seq<byte> {
    lib.sha256((if password == "" then [] else lib.sha256(Utf8.Encode(password)))
               + (match keyfile case None => [] case Some(f) => KeyfileKey(lib, f)))
  }

  datatype Keys = Keys(cipherKey: seq<byte>, hmacBase: seq<byte>)

  function DeriveKeys(lib: Library, masterSeed: seq<byte>, transformed: seq<byte>): Keys {
    Keys(lib.sha256(masterSeed + transformed), lib.sha512(masterSeed + transformed + [1]))
  }

  function BlockKey(lib: Library, index: nat, hmacBase: seq<byte>): seq<byte> {
    lib.sha512(Le(index, 8) + hmacBase)
  }

  function HeaderTag(lib: Library, keys: Keys, header: seq<byte>): seq<byte> {
    lib.hmac(BlockKey(lib, U64_SIZE - 1, keys.hmacBase), header)
  }

  /** What the tag of a block covers. */
  function Framed(index: nat, data: seq<byte>): seq<byte> {
    Le(index, 8) + Le(|data|, 4) + data
  }

  function BlockMac(lib: Library, keys: Keys): Mac {
    (index, data) => lib.hmac(BlockKey(lib, index, keys.hmacBase), Framed(index, data))
  }

  function InnerStream(lib: Library, innerKey: seq<byte>): KeyStream
    requires |lib.sha512(innerKey)| == 64
  {
    ChaChaStream(lib.chacha, lib.sha512(innerKey))
  }

  function ChaChaStream(chacha: (seq<byte>, seq<byte>, nat) -> byte, digest: seq<byte>): KeyStream
    requires |digest| == 64
  {
    (i: nat) => chacha(digest[..32], digest[32..44], i)
  }

  // ----- the two headers -----

  datatype Header = Header(cipher: seq<byte>, compression: nat, masterSeed: seq<byte>, encIv: seq<byte>, kdf: Kdf)

  const NO_HEADER := Header([], 0, [], [], NO_KDF)

  function SetHeader(h: Header, f: RawField): Res<Header> {
    if f.id == 2 then Success(h.(cipher := f.data))
    else if f.id == 3 then
      (if |f.data| == 4 then Success(h.(compression := FromLe(f.data))) else Failure(Corrupt("compression")))
    else if f.id == 4 then Success(h.(masterSeed := f.data))
    else if f.id == 7 then Success(h.(encIv := f.data))
    else if f.id == 11 then (var kdf :- ReadDict(f.data); Success(h.(kdf := kdf)))
    else Success(h)
  }

  function ReadHeader(b: seq<byte>, p: nat, h: Header): (r: Res<(Header, nat)>)
    ensures r.Success? ==> p < r.value.1 <= |b|
    decreases |b| - p
  {
    var f :- FieldAt(b, p);
    if f.id == 0 then Success((h, f.next))
    else
      var next :- SetHeader(h, f);
      ReadHeader(b, f.next, next)
  }

  method ParseHeader(c: Cursor) returns (r: Res<Header>)
    requires c.Valid()
    modifies c`p
    ensures c.Valid()
    ensures var s := ReadHeader(c.b, old(c.p), NO_HEADER);
            r == (match s case Success((h, _)) => Success(h) case Failure(e) => Failure(e))
    ensures r.Success? ==> c.p == ReadHeader(c.b, old(c.p), NO_HEADER).value.1
  {
    hide SetHeader;
    var h := NO_HEADER;
    while true
      invariant c.Valid()
      invariant ReadHeader(c.b, old(c.p), NO_HEADER) == ReadHeader(c.b, c.p, h)
      decreases |c.b| - c.p
    {
      var f :- ReadField(c);
      if f.id == 0 {
        break;
      }
      h :- SetHeader(h, f);
    }
    r := Success(h);
  }

  datatype Inner = Inner(streamId: nat, streamKey: seq<byte>)

  function SetInner(h: Inner, f: RawField): Res<Inner> {
    if f.id == 1 then
      (if |f.data| == 4 then Success(h.(streamId := FromLe(f.data))) else Failure(Corrupt("stream id")))
    else if f.id == 2 then Success(h.(streamKey := f.data))
    else Success(h)
  }

  function ReadInner(b: seq<byte>, p: nat, h: Inner): (r: Res<(Inner, nat)>)
    ensures r.Success? ==> p < r.value.1 <= |b|
    decreases |b| - p
  {
    var f :- FieldAt(b, p);
    if f.id == 0 then Success((h, f.next))
    else
      var next :- SetInner(h, f);
      ReadInner(b, f.next, next)
  }

  method ParseInner(c: Cursor) returns (r: Res<Inner>)
    requires c.Valid()
    modifies c`p
    ensures c.Valid()
    ensures var s := ReadInner(c.b, old(c.p), Inner(0, []));
            r == (match s case Success((h, _)) => Success(h) case Failure(e) => Failure(e))
    ensures r.Success? ==> c.p == ReadInner(c.b, old(c.p), Inner(0, [])).value.1
  {
    hide SetInner;
    var h := Inner(0, []);
    while true
      invariant c.Valid()
      invariant ReadInner(c.b, old(c.p), Inner(0, [])) == ReadInner(c.b, c.p, h)
      decreases |c.b| - c.p
    {
      var f :- ReadField(c);
      if f.id == 0 {
        break;
      }
      h :- SetInner(h, f);
    }
    r := Success(h);
  }

  // ----- opening -----

  const SIGNATURE1: nat := 0x9AA2_D903
  const SIGNATURE2: nat := 0xB54B_FB67

  /** The signature and version; the position after them is 12. */
  function Preamble(b: seq<byte>): Res<()> {
    var s1 :- UintAt(b, 0, 4);
    if s1 != SIGNATURE1 then Failure(NotKeepass)
    else
      var s2 :- UintAt(b, 4, 4);
      if s2 != SIGNATURE2 then Failure(NotKeepass)
      else
        var _ :- UintAt(b, 8, 2);
        var major :- UintAt(b, 10, 2);
        if major != 4 then Failure(UnsupportedVersion(major)) else Success(())
  }

  function Decipher(lib: Library, h: Header, key: seq<byte>, text: seq<byte>): Res<seq<byte>> {
    if h.cipher == CIPHER_AES256 then
      if |key| != 32 || |h.encIv| != 16 then Failure(Corrupt("AES key/iv"))
      else match lib.cbcDecrypt(key, h.encIv, text)
        case None => Failure(Corrupt("AES unpad"))
        case Some(x) => Success(x)
    else if h.cipher == CIPHER_CHACHA20 then
      if |key| != 32 || |h.encIv| != 12 then Failure(Corrupt("ChaCha20 key/iv"))
      else Success(Apply((i: nat) => lib.chacha(key, h.encIv, i), 0, text))
    else Failure(UnsupportedCipher)
  }

  function Decompress(lib: Library, flag: nat, x: seq<byte>): Res<seq<byte>> {
    if flag == 0 then Success(x)
    else if flag == 1 then
      match lib.gunzip(x)
      case None => Failure(Corrupt("gzip"))
      case Some(y) => Success(y)
    else Failure(Corrupt("compression flag"))
  }

  function OpenPayload(lib: Library, payload: seq<byte>): Res<seq<Entry>>
    requires DigestLaws(lib)
  {
    var (inner, p) :- ReadInner(payload, 0, Inner(0, []));
    if inner.streamId != 3 then Failure(UnsupportedStream)
    else Walk(InnerStream(lib, inner.streamKey), lib.events(payload[p..]))
  }

  /** From the end of the header on: authenticate, decrypt, decompress, read. */
  function OpenBody(lib: Library, file: seq<byte>, h: Header, end: nat, keys: Keys): Res<seq<Entry>>
    requires DigestLaws(lib) && end <= |file|
  {
    var storedSha :- TakeAt(file, end, 32);
    if lib.sha256(file[..end]) != storedSha then Failure(Corrupt("header integrity"))
    else
      var storedTag :- TakeAt(file, end + 32, 32);
      if HeaderTag(lib, keys, file[..end]) != storedTag then Failure(WrongCredential)
      else
        var (text, _) :- ReadBlocks(BlockMac(lib, keys), file, end + 64, 0, []);
        var packed :- Decipher(lib, h, keys.cipherKey, text);
        var payload :- Decompress(lib, h.compression, packed);
        OpenPayload(lib, payload)
  }

  /** Header and blocks carry the tags they must have under these keys. */
  predicate Authentic(lib: Library, file: seq<byte>, end: nat, keys: Keys)
    requires end <= |file|
  {
    && TakeAt(file, end, 32) == Success(lib.sha256(file[..end]))
    && TakeAt(file, end + 32, 32) == Success(HeaderTag(lib, keys, file[..end]))
    && ReadBlocks(BlockMac(lib, keys), file, end + 64, 0, []).Success?
  }

  /** Of a file that is not authentic nothing is decrypted, decompressed or parsed: whatever those
      functions are, the answer is the same failure. */
  lemma NothingIsReadUnauthenticated(lib: Library, other: Library, file: seq<byte>, h: Header, end: nat, keys: Keys)
    requires DigestLaws(lib) && end <= |file| && !Authentic(lib, file, end, keys)
    requires other == lib.(cbcDecrypt := other.cbcDecrypt, chacha := other.chacha, gunzip := other.gunzip,
                           events := other.events)
    ensures OpenBody(lib, file, h, end, keys).Failure?
    ensures OpenBody(other, file, h, end, keys) == OpenBody(lib, file, h, end, keys)
  {
    hide ReadBlocks, Decipher, Decompress, OpenPayload, TakeAt;
    var mac, same := BlockMac(lib, keys), BlockMac(other, keys);
    forall i: nat, d: seq<byte>
      ensures mac(i, d) == same(i, d)
    {
      assert mac(i, d) == lib.hmac(BlockKey(lib, i, keys.hmacBase), Framed(i, d));
      assert same(i, d) == other.hmac(BlockKey(other, i, keys.hmacBase), Framed(i, d));
    }
    BlocksDependOnTags(BlockMac(lib, keys), BlockMac(other, keys), file, end + 64, 0, []);
  }

  function OpenFile(lib: Library, file: seq<byte>, password: string, keyfile: Option<seq<byte>>): Res<seq<Entry>>
    requires DigestLaws(lib)
  {
    var _ :- Preamble(file);
    var (h, end) :- ReadHeader(file, 12, NO_HEADER);
    if h.cipher != CIPHER_AES256 && h.cipher != CIPHER_CHACHA20 then Failure(UnsupportedCipher)
    else if h.kdf.uuid != KDF_ARGON2D && h.kdf.uuid != KDF_ARGON2ID then Failure(UnsupportedKdf)
    else
      var transformed :- Argon2Transform(lib, h.kdf, CompositeKey(lib, password, keyfile));
      OpenBody(lib, file, h, end, DeriveKeys(lib, h.masterSeed, transformed))
  }

  method OpenInner(lib: Library, file: seq<byte>, password: string, keyfile: Option<seq<byte>>)
    returns (r: Res<seq<Entry>>)
    requires DigestLaws(lib)
    ensures r == OpenFile(lib, file, password, keyfile)
  {
    hide ReadHeader, ReadInner, ReadBlocks, FromLe, Argon2Transform, CompositeKey, DeriveKeys, OpenBody;
    var c := new Cursor(file);
    var s1 :- c.Uint(4);
    if s1 != SIGNATURE1 {
      return Failure(NotKeepass);
    }
    var s2 :- c.Uint(4);
    if s2 != SIGNATURE2 {
      return Failure(NotKeepass);
    }
    var minor :- c.Uint(2);
    var major :- c.Uint(2);
    if major != 4 {
      return Failure(UnsupportedVersion(major));
    }
    var h :- ParseHeader(c);
    if h.cipher != CIPHER_AES256 && h.cipher != CIPHER_CHACHA20 {
      return Failure(UnsupportedCipher);
    }
    if h.kdf.uuid != KDF_ARGON2D && h.kdf.uuid != KDF_ARGON2ID {
      return Failure(UnsupportedKdf);
    }
    var transformed :- Argon2Transform(lib, h.kdf, CompositeKey(lib, password, keyfile));
    r := OpenAuthenticated(lib, c, h, DeriveKeys(lib, h.masterSeed, transformed));
  }

  /** The part of opening that follows the header. */
  method OpenAuthenticated(lib: Library, c: Cursor, h: Header, keys: Keys) returns (r: Res<seq<Entry>>)
    requires DigestLaws(lib) && c.Valid()
    modifies c`p
    ensures r == OpenBody(lib, c.b, h, old(c.p), keys)
  {
    hide ReadInner, ReadBlocks, HeaderTag, Decipher, Decompress, Walk;
    var header := c.b[..c.p];
    var storedSha :- c.Take(32);
    if lib.sha256(header) != storedSha {
      return Failure(Corrupt("header integrity"));
    }
    var storedTag :- c.Take(32);
    if HeaderTag(lib, keys, header) != storedTag {
      return Failure(WrongCredential);
    }
    var text :- ReadBlockStream(c, BlockMac(lib, keys));
    var packed :- Decipher(lib, h, keys.cipherKey, text);
    var payload :- Decompress(lib, h.compression, packed);
    var ic := new Cursor(payload);
    var inner :- ParseInner(ic);
    if inner.streamId != 3 {
      return Failure(UnsupportedStream);
    }
    r := ParseInnerXml(lib.events(payload[ic.p..]), InnerStream(lib, inner.streamKey));
  }

  // ----- saving -----

  /** The random bytes one export draws. */
  datatype Random = Random(masterSeed: seq<byte>, encIv: seq<byte>, kdfSalt: seq<byte>, innerKey: seq<byte>,
                           rootId: seq<byte>, entryIds: seq<seq<byte>>)

  predicate Drawn(rnd: Random, entries: seq<Entry>) {
    && |rnd.masterSeed| == 32 && |rnd.encIv| == 16 && |rnd.kdfSalt| == 32 && |rnd.innerKey| == 64
    && |rnd.entryIds| == |entries|
  }

  /** A header with these fields, in the order an export writes them. */
  function HeaderOf(h: Header): seq<byte> {
    Le(SIGNATURE1, 4) + (Le(SIGNATURE2, 4) + (Le(0, 2) + (Le(4, 2)
    + (FieldBytes(2, h.cipher)
    + (FieldBytes(3, Le(h.compression, 4))
    + (FieldBytes(4, h.masterSeed)
    + (FieldBytes(7, h.encIv)
    + (FieldBytes(11, DictOf(h.kdf))
    + FieldBytes(0, [0x0d, 0x0a, 0x0d, 0x0a])))))))))
  }

  function OutHeader(rnd: Random): Header {
    Header(CIPHER_AES256, 1, rnd.masterSeed, rnd.encIv, OutKdf(rnd.kdfSalt))
  }

  function HeaderBytes(rnd: Random): seq<byte> {
    HeaderOf(OutHeader(rnd))
  }

  function InnerBytes(rnd: Random, xml: seq<byte>): seq<byte> {
    FieldBytes(1, Le(3, 4)) + (FieldBytes(2, rnd.innerKey) + (FieldBytes(0, []) + xml))
  }

  const BLOCK_SIZE: nat := 1024 * 1024

  function DocumentBytes(lib: Library, rnd: Random, entries: seq<Entry>): seq<byte>
    requires DigestLaws(lib) && Drawn(rnd, entries)
  {
    Utf8.Encode(Xml.Render(KdbxTree.FlattenAll(
      Document(InnerStream(lib, rnd.innerKey), rnd.rootId, rnd.entryIds, entries))))
  }

  function SealedText(lib: Library, rnd: Random, keys: Keys, inner: seq<byte>): seq<byte> {
    lib.cbcEncrypt(keys.cipherKey, rnd.encIv, lib.gzip(inner))
  }

  function SealBody(lib: Library, rnd: Random, keys: Keys, inner: seq<byte>): seq<byte> {
    var header := HeaderBytes(rnd);
    header + (lib.sha256(header) + (HeaderTag(lib, keys, header)
    + BlockStream(BlockMac(lib, keys), 0, SealedText(lib, rnd, keys, inner), BLOCK_SIZE)))
  }

  function SaveFile(lib: Library, rnd: Random, entries: seq<Entry>, password: string): Res<seq<byte>>
    requires DigestLaws(lib) && Drawn(rnd, entries)
  {
    if password == "" then Failure(Corrupt("export password must not be empty"))
    else
      var transformed :- Argon2Transform(lib, OutKdf(rnd.kdfSalt), CompositeKey(lib, password, None));
      Success(SealBody(lib, rnd, DeriveKeys(lib, rnd.masterSeed, transformed),
                       InnerBytes(rnd, DocumentBytes(lib, rnd, entries))))
  }

  method PushField(out: seq<byte>, id: byte, data: seq<byte>) returns (r: seq<byte>)
    ensures r == out + FieldBytes(id, data)
  {
    r := out + [id];
    r := r + Le(|data|, 4);
    r := r + data;
  }

  method PushVariant(out: seq<byte>, ty: byte, key: seq<byte>, val: seq<byte>) returns (r: seq<byte>)
    ensures r == out + VariantBytes(ty, key, val)
  {
    r := out + [ty];
    r := r + Le(|key|, 4);
    r := r + key;
    r := r + Le(|val|, 4);
    r := r + val;
  }

  method BuildKdfDict(salt: seq<byte>) returns (d: seq<byte>)
    ensures d == DictBytes(salt)
  {
    hide VariantBytes, Le;
    d := Le(0x0100, 2);
    d := PushVariant(d, 0x42, KEY_UUID, KDF_ARGON2ID);
    d := PushVariant(d, 0x05, KEY_ITERATIONS, Le(OUT_KDF_ITERATIONS, 8));
    d := PushVariant(d, 0x05, KEY_MEMORY, Le(OUT_KDF_MEM_BYTES, 8));
    d := PushVariant(d, 0x04, KEY_PARALLELISM, Le(OUT_KDF_PARALLELISM, 4));
    d := PushVariant(d, 0x42, KEY_SALT, salt);
    d := PushVariant(d, 0x04, KEY_VERSION, Le(ARGON2_V13, 4));
    d := d + [0];
  }

  method BuildHeader(rnd: Random) returns (header: seq<byte>)
    ensures header == HeaderBytes(rnd)
  {
    hide FieldBytes, Le, DictOf;
    header := Le(SIGNATURE1, 4);
    header := header + Le(SIGNATURE2, 4);
    header := header + Le(0, 2);
    header := header + Le(4, 2);
    header := PushField(header, 2, CIPHER_AES256);
    header := PushField(header, 3, Le(1, 4));
    header := PushField(header, 4, rnd.masterSeed);
    header := PushField(header, 7, rnd.encIv);
    var dict := BuildKdfDict(rnd.kdfSalt);
    header := PushField(header, 11, dict);
    header := PushField(header, 0, [0x0d, 0x0a, 0x0d, 0x0a]);
  }

  /** The inner header and the document. */
  method BuildInner(lib: Library, rnd: Random, entries: seq<Entry>) returns (inner: seq<byte>)
    requires DigestLaws(lib) && Drawn(rnd, entries)
    ensures inner == InnerBytes(rnd, DocumentBytes(lib, rnd, entries))
  {
    hide FieldBytes, Le, Utf8.Encode, Xml.Render, KdbxTree.FlattenAll, Document;
    var xml := KdbxXmlText.BuildXml(entries, InnerStream(lib, rnd.innerKey), rnd.rootId, rnd.entryIds);
    inner := PushField([], 1, Le(3, 4));
    inner := PushField(inner, 2, rnd.innerKey);
    inner := PushField(inner, 0, []);
    inner := inner + Utf8.Encode(xml);
    ConcatAssociates(FieldBytes(1, Le(3, 4)), FieldBytes(2, rnd.innerKey), FieldBytes(0, []), Utf8.Encode(xml));
  }

  lemma ConcatAssociates(a: seq<byte>, b: seq<byte>, c: seq<byte>, d: seq<byte>)
    ensures [] + a + b + c + d == a + (b + (c + d))
  {
  }

  method SaveInner(lib: Library, rnd: Random, entries: seq<Entry>, password: string) returns (r: Res<seq<byte>>)
    requires DigestLaws(lib) && Drawn(rnd, entries)
    ensures r == SaveFile(lib, rnd, entries, password)
  {
    hide HeaderBytes, BlockStream, Argon2Transform, CompositeKey, DeriveKeys, HeaderTag, OutKdf, InnerBytes,
         DocumentBytes;
    if password == "" {
      return Failure(Corrupt("export password must not be empty"));
    }
    var inner := BuildInner(lib, rnd, entries);
    var compressed := lib.gzip(inner);
    var header := BuildHeader(rnd);
    var transformed :- Argon2Transform(lib, OutKdf(rnd.kdfSalt), CompositeKey(lib, password, None));
    var keys := DeriveKeys(lib, rnd.masterSeed, transformed);
    var ciphertext := lib.cbcEncrypt(keys.cipherKey, rnd.encIv, compressed);
    var out := header + lib.sha256(header);
    out := out + HeaderTag(lib, keys, header);
    out := WriteBlockStream(out, BlockMac(lib, keys), ciphertext, BLOCK_SIZE);
    assert out == SealBody(lib, rnd, keys, inner);
    r := Success(out);
  }
}
