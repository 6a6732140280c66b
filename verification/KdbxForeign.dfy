/** Databases that other programs wrote, with the format's derivations written out: any supported cipher, either
    Argon2, compressed or not, with a key file or without. */
module KdbxForeign {
  import opened Wrappers
  import opened Bytes
  import opened KdbxTypes
  import opened KdbxFrame
  import opened KdbxBlocks
  import opened KdbxFile
  import opened KdbxWalker
  import opened KdbxWriter
  import opened KdbxRoundTrip
  import KdbxTampering
  import Utf8
  import Xml

  const AES: seq<byte> := [0x31, 0xc1, 0xf2, 0xe6, 0xbf, 0x71, 0x43, 0x50, 0xbe, 0x58, 0x05, 0x21, 0x6a, 0xfc, 0x5a,
                           0xff]
  const CHACHA: seq<byte> := [0xd6, 0x03, 0x8a, 0x2b, 0x8b, 0x6f, 0x4c, 0xb5, 0xa5, 0x24, 0x33, 0x9a, 0x31, 0xdb, 0xb5,
                              0x9a]
  const ARGON2D: seq<byte> := [0xef, 0x63, 0x6d, 0xdf, 0x8c, 0x29, 0x44, 0x4b, 0x91, 0xf7, 0xa9, 0xa4, 0x03, 0xe3, 0x0a,
                               0x0c]
  const ARGON2ID: seq<byte> := [0x9e, 0x29, 0x8b, 0x19, 0x56, 0xdb, 0x47, 0x73, 0xb2, 0x3d, 0xfc, 0x3e, 0xc6, 0xf0,
                                0xa1, 0xe6]

  // ----- the key derivation -----

  /** At most 1 GiB, 64 lanes, and 1 GiB times 64 passes of work, where less than 1 KiB counts as one. */
  predicate CostAllowed(k: Kdf) {
    && k.memBytes <= 1024 * 1024 * 1024 && k.parallelism <= 64
    && (if k.memBytes < 1024 then 1 else k.memBytes / 1024) * k.iterations <= 64 * 1024 * 1024
  }

  /** What the Argon2 that the dictionary names makes of a composite key, in the version it names. */
  function NamedArgon(lib: Library, k: Kdf, composite: seq<byte>): Option<seq<byte>> {
    if k.uuid == ARGON2D then
      lib.argon(false, k.version == 16, k.memBytes / 1024, k.iterations, k.parallelism, k.salt, composite)
    else if k.uuid == ARGON2ID then
      lib.argon(true, k.version == 16, k.memBytes / 1024, k.iterations, k.parallelism, k.salt, composite)
    else None
  }

  lemma TransformMeans(lib: Library, k: Kdf, composite: seq<byte>, out: seq<byte>)
    ensures Argon2Transform(lib, k, composite) == Success(out) <==>
            (CostAllowed(k) && lib.argonParams(k.memBytes / 1024, k.iterations, k.parallelism)
             && NamedArgon(lib, k, composite) == Some(out))
    ensures k.uuid != ARGON2D && k.uuid != ARGON2ID ==>
              Argon2Transform(lib, k, composite) == Failure(UnsupportedKdf)
    ensures (k.uuid == ARGON2D || k.uuid == ARGON2ID) && !CostAllowed(k) ==>
              Argon2Transform(lib, k, composite) == Failure(KdfTooExpensive(k.memBytes / 1024, k.iterations))
  {
    Uuids();
    var kib := if k.memBytes < 1024 then 1 else k.memBytes / 1024;
    assert Max(k.memBytes / 1024, 1) == kib;
    WorkBounds(kib, k.iterations);
  }

  lemma WorkBounds(kib: nat, iterations: nat)
    requires kib >= 1
    ensures SaturatingMul(kib, iterations) <= 64 * 1024 * 1024 <==> kib * iterations <= 64 * 1024 * 1024
    ensures kib * iterations >= iterations
  {
  }

  lemma Uuids()
    ensures ARGON2D != ARGON2ID && AES != CHACHA
    ensures KDF_ARGON2D == ARGON2D && KDF_ARGON2ID == ARGON2ID
    ensures CIPHER_AES256 == AES && CIPHER_CHACHA20 == CHACHA
  {
    assert ARGON2D[0] != ARGON2ID[0] && AES[0] != CHACHA[0];
  }

  // ----- the composite key -----

  /** A byte that is a hexadecimal digit of this value, in either case. */
  predicate IsHex(c: byte, d: nat) {
    d < 16 && (c == "0123456789abcdef"[d] as int || c == "0123456789ABCDEF"[d] as int)
  }

  predicate SpellsKey(file: seq<byte>, key: seq<byte>) {
    && |file| == 2 * |key|
    && forall i | 0 <= i < |key| :: IsHex(file[2 * i], key[i] / 16) && IsHex(file[2 * i + 1], key[i] % 16)
  }

  /** A key file's component: an XML key file's, else the file itself if it has 32 bytes, else what it spells if
      it is 64 hexadecimal digits, else its digest. */
  ghost predicate IsKeyOf(lib: Library, file: seq<byte>, key: seq<byte>) {
    if lib.xmlKeyfile(file).Some? then Some(key) == lib.xmlKeyfile(file)
    else if |file| == 32 then key == file
    else if |file| == 64 && exists k: seq<byte> :: SpellsKey(file, k) then SpellsKey(file, key)
    else key == lib.sha256(file)
  }

  lemma HexDigitMeans(c: byte, d: nat)
    ensures Xml.DigitValue(c as char, 16) == Some(d) <==> IsHex(c, d)
  {
  }

  lemma {:induction false} HexDigitsSpell(file: seq<byte>, key: seq<byte>)
    ensures HexDigits(file) == Some(key) <==> SpellsKey(file, key)
    decreases |file|
  {
    hide IsHex, Xml.DigitValue;
    if |file| >= 2 && key != [] {
      HexDigitsSpell(file[2..], key[1..]);
      HexDigitMeans(file[0], key[0] / 16);
      HexDigitMeans(file[1], key[0] % 16);
      SpellsFirst(file, key);
      assert key == [key[0]] + key[1..];
      DigitsOf(key[0], Xml.DigitValue(file[0] as char, 16), Xml.DigitValue(file[1] as char, 16));
    }
  }

  lemma DigitsOf(b: byte, hi: Option<nat>, lo: Option<nat>)
    requires (hi.Some? ==> hi.value < 16) && (lo.Some? ==> lo.value < 16)
    ensures hi.Some? && lo.Some? ==> (hi.value * 16 + lo.value == b <==> (hi.value == b / 16 && lo.value == b % 16))
  {
  }

  lemma SpellsFirst(file: seq<byte>, key: seq<byte>)
    requires |file| >= 2 && key != []
    ensures SpellsKey(file, key)
            <==> (IsHex(file[0], key[0] / 16) && IsHex(file[1], key[0] % 16) && SpellsKey(file[2..], key[1..]))
  {
    hide IsHex;
    if SpellsKey(file, key) {
      forall i | 0 <= i < |key[1..]|
        ensures IsHex(file[2..][2 * i], key[1..][i] / 16) && IsHex(file[2..][2 * i + 1], key[1..][i] % 16)
      {
        assert file[2..][2 * i] == file[2 * (i + 1)] && file[2..][2 * i + 1] == file[2 * (i + 1) + 1];
      }
      assert IsHex(file[2 * 0], key[0] / 16) && IsHex(file[2 * 0 + 1], key[0] % 16);
    }
    if IsHex(file[0], key[0] / 16) && IsHex(file[1], key[0] % 16) && SpellsKey(file[2..], key[1..]) {
      forall i | 0 <= i < |key|
        ensures IsHex(file[2 * i], key[i] / 16) && IsHex(file[2 * i + 1], key[i] % 16)
      {
        if i > 0 {
          assert file[2..][2 * (i - 1)] == file[2 * i] && file[2..][2 * (i - 1) + 1] == file[2 * i + 1];
        }
      }
    }
  }

  lemma KeyfileMeans(lib: Library, file: seq<byte>)
    ensures IsKeyOf(lib, file, KeyfileKey(lib, file))
  {
    hide SpellsKey, HexDigits;
    if exists k :: SpellsKey(file, k) {
      var k :| SpellsKey(file, k);
      HexDigitsSpell(file, k);
    } else if HexDigits(file).Some? {
      HexDigitsSpell(file, HexDigits(file).value);
    }
  }

  /** The digest of what there is: the digest of the password, unless it is empty, and the key file's part. */
  ghost predicate IsComposite(lib: Library, password: string, keyfile: Option<seq<byte>>, composite: seq<byte>) {
    var first := if password == "" then [] else lib.sha256(Utf8.Encode(password));
    if keyfile.None? then composite == lib.sha256(first)
    else exists key: seq<byte> :: IsKeyOf(lib, keyfile.value, key) && composite == lib.sha256(first + key)
  }

  lemma CompositeMeans(lib: Library, password: string, keyfile: Option<seq<byte>>)
    ensures IsComposite(lib, password, keyfile, CompositeKey(lib, password, keyfile))
  {
    hide IsKeyOf, KeyfileKey;
    var first := if password == "" then [] else lib.sha256(Utf8.Encode(password));
    assert first + [] == first;
    if keyfile.Some? {
      KeyfileMeans(lib, keyfile.value);
    }
  }

  // ----- the seals -----

  const ONES: seq<byte> := [255, 255, 255, 255, 255, 255, 255, 255]

  /** The tag of a block under a base key, over index, length and data. */
  function BlockTag(lib: Library, base: seq<byte>): Mac {
    (index, data) => lib.hmac(lib.sha512(Le(index, 8) + base), Le(index, 8) + Le(|data|, 4) + data)
  }

  lemma OnesAreLast()
    ensures Le(U64_SIZE - 1, 8) == ONES
  {
    hide Le;
    Widths();
    AllOnes(8);
  }

  lemma {:induction false} AllOnes(width: nat)
    ensures Le(Pow256(width) - 1, width) == seq(width, _ => 255)
  {
    if width > 0 {
      hide Pow256;
      var p := Pow256(width - 1);
      NextPower(width);
      LastByte(p);
      AllOnes(width - 1);
      LeStep(256 * p - 1, width);
    }
  }

  lemma NextPower(width: nat)
    requires width > 0
    ensures Pow256(width) == 256 * Pow256(width - 1)
  {
  }

  lemma LastByte(p: nat)
    requires p >= 1
    ensures (256 * p - 1) % 256 == 255 && (256 * p - 1) / 256 == p - 1
  {
  }

  lemma LeStep(n: nat, width: nat)
    ensures Le(n, width) == if width == 0 then [] else [n % 256] + Le(n / 256, width - 1)
  {
  }

  /** The keys a header's seed and the transformed key give. */
  lemma KeysMean(lib: Library, seed: seq<byte>, out: seq<byte>)
    ensures DeriveKeys(lib, seed, out) == Keys(lib.sha256(seed + out), lib.sha512(seed + out + [1]))
  {
  }

  lemma HeaderTagMeans(lib: Library, keys: Keys, head: seq<byte>)
    ensures HeaderTag(lib, keys, head) == lib.hmac(lib.sha512(ONES + keys.hmacBase), head)
  {
    OnesAreLast();
  }

  /** What stands behind a header: its digest, its tag, and the tagged blocks. */
  function Sealed(lib: Library, head: seq<byte>, base: seq<byte>, chunks: seq<seq<byte>>): seq<byte> {
    head + (lib.sha256(head) + (lib.hmac(lib.sha512(ONES + base), head) + Blocks(BlockTag(lib, base), 0, chunks)))
  }

  predicate SmallChunks(chunks: seq<seq<byte>>) {
    forall c | c in chunks :: 0 < |c| < U32_SIZE
  }

  lemma BlockTagFits(lib: Library, base: seq<byte>)
    requires DigestLaws(lib)
    ensures TagsFit(BlockTag(lib, base))
  {
    var mac := BlockTag(lib, base);
    forall i: nat, d: seq<byte>
      ensures |mac(i, d)| == 32
    {
      assert mac(i, d) == lib.hmac(lib.sha512(Le(i, 8) + base), Le(i, 8) + Le(|d|, 4) + d);
    }
  }

  lemma BlockTagIsMac(lib: Library, keys: Keys)
    ensures forall i: nat, d: seq<byte> :: BlockTag(lib, keys.hmacBase)(i, d) == BlockMac(lib, keys)(i, d)
  {
    var mac, tag := BlockMac(lib, keys), BlockTag(lib, keys.hmacBase);
    forall i: nat, d: seq<byte>
      ensures tag(i, d) == mac(i, d)
    {
      assert mac(i, d) == lib.hmac(BlockKey(lib, i, keys.hmacBase), Framed(i, d));
      assert tag(i, d) == lib.hmac(lib.sha512(Le(i, 8) + keys.hmacBase), Le(i, 8) + Le(|d|, 4) + d);
    }
  }

  /** Blocks cut in any way are read back as what they hold. */
  lemma {:induction false} AnyBlocksRead(mac: Mac, b: seq<byte>, p: nat, index: nat, chunks: seq<seq<byte>>,
                                         got: seq<byte>)
    requires TagsFit(mac) && SmallChunks(chunks) && At(b, p, Blocks(mac, index, chunks))
    ensures ReadBlocks(mac, b, p, index, got) == Success((got + Joined(chunks), p + |Blocks(mac, index, chunks)|))
    decreases |chunks|
  {
    hide ReadBlocks, BlockBytes, At;
    if chunks == [] {
      BlockRoundTrip(mac, b, p, index, [], got);
      BlockLength(mac, index, []);
      assert got + [] == got;
    } else {
      var rest := Blocks(mac, index + 1, chunks[1..]);
      AtConcat(b, p, BlockBytes(mac, index, chunks[0]), rest);
      BlockLength(mac, index, chunks[0]);
      assert chunks[0] in chunks && forall c | c in chunks[1..] :: c in chunks;
      BlockRoundTrip(mac, b, p, index, chunks[0], got);
      AnyBlocksRead(mac, b, p + 36 + |chunks[0]|, index + 1, chunks[1..], got + chunks[0]);
      assert got + chunks[0] + Joined(chunks[1..]) == got + (chunks[0] + Joined(chunks[1..]));
    }
  }

  // ----- the payload -----

  /** The ciphertext of `packed` under either cipher. */
  predicate Enciphers(lib: Library, h: Header, key: seq<byte>, packed: seq<byte>, text: seq<byte>) {
    || (h.cipher == AES && |key| == 32 && |h.encIv| == 16 && lib.cbcDecrypt(key, h.encIv, text) == Some(packed))
    || (h.cipher == CHACHA && |key| == 32 && |h.encIv| == 12 && |text| == |packed|
        && forall i | 0 <= i < |text| :: text[i] == Xor(packed[i], lib.chacha(key, h.encIv, i)))
  }

  predicate Packs(lib: Library, flag: nat, payload: seq<byte>, packed: seq<byte>) {
    (flag == 0 && packed == payload) || (flag == 1 && lib.gunzip(packed) == Some(payload))
  }

  lemma DecipherMeans(lib: Library, h: Header, key: seq<byte>, packed: seq<byte>, text: seq<byte>)
    ensures Decipher(lib, h, key, text) == Success(packed) <==> Enciphers(lib, h, key, packed, text)
    ensures h.cipher == AES && Decipher(lib, h, key, text).Failure? ==>
              Decipher(lib, h, key, text).error ==
              Corrupt(if |key| == 32 && |h.encIv| == 16 then "AES unpad" else "AES key/iv")
    ensures h.cipher == CHACHA && Decipher(lib, h, key, text).Failure? ==>
              Decipher(lib, h, key, text).error == Corrupt("ChaCha20 key/iv")
  {
    Uuids();
    if h.cipher == CHACHA {
      StreamDeciphers(lib, h, key, packed, text);
    }
  }

  lemma StreamDeciphers(lib: Library, h: Header, key: seq<byte>, packed: seq<byte>, text: seq<byte>)
    requires h.cipher == CHACHA
    ensures Decipher(lib, h, key, text) == Success(packed) <==> Enciphers(lib, h, key, packed, text)
  {
    Uuids();
    if Decipher(lib, h, key, text) == Success(packed) {
      var ks: nat -> byte := (i: nat) => lib.chacha(key, h.encIv, i);
      forall i | 0 <= i < |text|
        ensures text[i] == Xor(packed[i], lib.chacha(key, h.encIv, i))
      {
        assert packed[i] == Xor(text[i], lib.chacha(key, h.encIv, i));
        XorTwice(text[i], ks(i));
      }
    }
    if Enciphers(lib, h, key, packed, text) {
      var ks: nat -> byte := (i: nat) => lib.chacha(key, h.encIv, i);
      assert text == Apply(ks, 0, packed);
      ApplyTwice(ks, 0, packed);
      assert Apply(ks, 0, text) == packed;
      forall i | 0 <= i < |text|
        ensures Decipher(lib, h, key, text).value[i] == packed[i]
      {
        assert Apply(ks, 0, text)[i] == Xor(text[i], lib.chacha(key, h.encIv, i));
      }
    }
  }

  lemma DecompressMeans(lib: Library, flag: nat, payload: seq<byte>, packed: seq<byte>)
    ensures Decompress(lib, flag, packed) == Success(payload) <==> Packs(lib, flag, payload, packed)
    ensures Decompress(lib, flag, packed).Failure? ==>
              Decompress(lib, flag, packed).error == Corrupt(if flag == 1 then "gzip" else "compression flag")
  {
  }

  lemma StreamMeans(lib: Library, key: seq<byte>, i: nat)
    requires DigestLaws(lib)
    ensures InnerStream(lib, key)(i) == lib.chacha(lib.sha512(key)[..32], lib.sha512(key)[32..44], i)
  {
  }

  // ----- opening -----

  lemma BodyOpens(lib: Library, file: seq<byte>, head: seq<byte>, h: Header, keys: Keys, chunks: seq<seq<byte>>,
                  packed: seq<byte>, payload: seq<byte>)
    requires DigestLaws(lib) && SmallChunks(chunks) && Sealed(lib, head, keys.hmacBase, chunks) <= file
    requires Enciphers(lib, h, keys.cipherKey, packed, Joined(chunks)) && Packs(lib, h.compression, payload, packed)
    ensures |head| <= |file| && OpenBody(lib, file, h, |head|, keys) == OpenPayload(lib, payload)
  {
    hide At, TakeAt, ReadBlocks, Blocks, Decipher, Decompress, OpenPayload, Enciphers, Packs, HeaderTag, BlockTag,
         BlockMac, Joined;
    var sha, tag := lib.sha256(head), lib.hmac(lib.sha512(ONES + keys.hmacBase), head);
    var mac := BlockTag(lib, keys.hmacBase);
    var blocks := Blocks(mac, 0, chunks);
    PrefixStands(file, head + (sha + (tag + blocks)));
    AtConcat(file, 0, head, sha + (tag + blocks));
    AtConcat(file, |head|, sha, tag + blocks);
    AtConcat(file, |head| + 32, tag, blocks);
    AtStartIsPrefix(file, head);
    TakeWhatIsThere(file, |head|, sha);
    TakeWhatIsThere(file, |head| + 32, tag);
    HeaderTagMeans(lib, keys, head);
    BlockTagFits(lib, keys.hmacBase);
    AnyBlocksRead(mac, file, |head| + 64, 0, chunks, []);
    BlockTagIsMac(lib, keys);
    BlocksDependOnTags(mac, BlockMac(lib, keys), file, |head| + 64, 0, []);
    assert [] + Joined(chunks) == Joined(chunks);
    DecipherMeans(lib, h, keys.cipherKey, packed, Joined(chunks));
    DecompressMeans(lib, h.compression, payload, packed);
  }

  /** Any database opens to what its document says: whatever its header, as long as it names a supported cipher
      and either Argon2 at an allowed cost, sealed under what that Argon2 makes of the composite key,
      enciphered, compressed or not, cut into blocks in any way, and whatever follows them. */
  lemma ForeignFileOpens(lib: Library, file: seq<byte>, head: seq<byte>, h: Header, composite: seq<byte>,
                         out: seq<byte>, chunks: seq<seq<byte>>, packed: seq<byte>, payload: seq<byte>,
                         inner: Inner, at: nat, password: string, keyfile: Option<seq<byte>>)
    requires DigestLaws(lib) && SmallChunks(chunks)
    requires Preamble(file).Success? && ReadHeader(file, 12, NO_HEADER) == Success((h, |head|))
    requires composite == CompositeKey(lib, password, keyfile)
    requires CostAllowed(h.kdf) && lib.argonParams(h.kdf.memBytes / 1024, h.kdf.iterations, h.kdf.parallelism)
    requires NamedArgon(lib, h.kdf, composite) == Some(out)
    requires Sealed(lib, head, lib.sha512(h.masterSeed + out + [1]), chunks) <= file
    requires Enciphers(lib, h, lib.sha256(h.masterSeed + out), packed, Joined(chunks))
    requires Packs(lib, h.compression, payload, packed)
    requires ReadInner(payload, 0, Inner(0, [])) == Success((inner, at)) && inner.streamId == 3
    ensures IsComposite(lib, password, keyfile, composite)
    ensures OpenFile(lib, file, password, keyfile) ==
            Walk(InnerStream(lib, inner.streamKey), lib.events(payload[at..]))
    ensures forall i: nat ::
              InnerStream(lib, inner.streamKey)(i)
              == lib.chacha(lib.sha512(inner.streamKey)[..32], lib.sha512(inner.streamKey)[32..44], i)
  {
    hide ReadHeader, ReadInner, Preamble, Argon2Transform, CompositeKey, DeriveKeys, Sealed, Enciphers, Packs,
         OpenBody, Walk, InnerStream, NamedArgon, CostAllowed, IsComposite;
    CompositeMeans(lib, password, keyfile);
    TransformMeans(lib, h.kdf, composite, out);
    KeysMean(lib, h.masterSeed, out);
    NamedIsKnown(lib, h, composite, lib.sha256(h.masterSeed + out), packed, Joined(chunks));
    BodyOpens(lib, file, head, h, DeriveKeys(lib, h.masterSeed, out), chunks, packed, payload);
    forall i: nat
      ensures InnerStream(lib, inner.streamKey)(i)
              == lib.chacha(lib.sha512(inner.streamKey)[..32], lib.sha512(inner.streamKey)[32..44], i)
    {
      StreamMeans(lib, inner.streamKey, i);
    }
  }

  lemma NamedIsKnown(lib: Library, h: Header, composite: seq<byte>, key: seq<byte>, packed: seq<byte>, text: seq<byte>)
    requires NamedArgon(lib, h.kdf, composite).Some? && Enciphers(lib, h, key, packed, text)
    ensures h.kdf.uuid == KDF_ARGON2D || h.kdf.uuid == KDF_ARGON2ID
    ensures h.cipher == CIPHER_AES256 || h.cipher == CIPHER_CHACHA20
  {
    Uuids();
  }

  // ----- refusing -----

  /** What a file is refused for, in this order, once its header was read: its cipher, its KDF, the cost, and
      Argon2 itself. */
  lemma Refuses(lib: Library, file: seq<byte>, h: Header, end: nat, password: string, keyfile: Option<seq<byte>>)
    requires DigestLaws(lib) && Preamble(file).Success? && ReadHeader(file, 12, NO_HEADER) == Success((h, end))
    ensures var r := OpenFile(lib, file, password, keyfile);
            if h.cipher != AES && h.cipher != CHACHA then r == Failure(UnsupportedCipher)
            else if h.kdf.uuid != ARGON2D && h.kdf.uuid != ARGON2ID then r == Failure(UnsupportedKdf)
            else if !CostAllowed(h.kdf) then r == Failure(KdfTooExpensive(h.kdf.memBytes / 1024, h.kdf.iterations))
            else if !lib.argonParams(h.kdf.memBytes / 1024, h.kdf.iterations, h.kdf.parallelism)
            then r == Failure(Corrupt("KDF params"))
            else NamedArgon(lib, h.kdf, CompositeKey(lib, password, keyfile)) == None ==>
                   r == Failure(Corrupt("argon2"))
  {
    hide ReadHeader, Preamble, CompositeKey, OpenBody, CIPHER_AES256, CIPHER_CHACHA20, AES, CHACHA, DeriveKeys,
         NamedArgon, CostAllowed, Argon2Transform, KDF_ARGON2D, KDF_ARGON2ID, ARGON2D, ARGON2ID;
    Uuids();
    if h.kdf.uuid == ARGON2D || h.kdf.uuid == ARGON2ID {
      WhyNoKey(lib, h.kdf, CompositeKey(lib, password, keyfile));
    }
  }

  lemma WhyNoKey(lib: Library, k: Kdf, composite: seq<byte>)
    requires k.uuid == ARGON2D || k.uuid == ARGON2ID
    ensures var r := Argon2Transform(lib, k, composite);
            if !CostAllowed(k) then r == Failure(KdfTooExpensive(k.memBytes / 1024, k.iterations))
            else if !lib.argonParams(k.memBytes / 1024, k.iterations, k.parallelism)
            then r == Failure(Corrupt("KDF params"))
            else NamedArgon(lib, k, composite) == None ==> r == Failure(Corrupt("argon2"))
  {
    hide SaturatingMul, ARGON2D, ARGON2ID, KDF_ARGON2D, KDF_ARGON2ID;
    Uuids();
    var kib := if k.memBytes < 1024 then 1 else k.memBytes / 1024;
    assert Max(k.memBytes / 1024, 1) == kib;
    WorkBounds(kib, k.iterations);
  }

  /** And then for a header that is not the one digested, or was not tagged under the keys derived. */
  lemma RefusesTheSeal(lib: Library, file: seq<byte>, h: Header, end: nat, password: string,
                       keyfile: Option<seq<byte>>, out: seq<byte>)
    requires DigestLaws(lib) && Preamble(file).Success? && ReadHeader(file, 12, NO_HEADER) == Success((h, end))
    requires h.cipher == AES || h.cipher == CHACHA
    requires CostAllowed(h.kdf) && lib.argonParams(h.kdf.memBytes / 1024, h.kdf.iterations, h.kdf.parallelism)
    requires NamedArgon(lib, h.kdf, CompositeKey(lib, password, keyfile)) == Some(out)
    ensures var r := OpenFile(lib, file, password, keyfile);
            if |file| < end + 32 then r == Failure(Corrupt(NoMore(end + 32)))
            else if file[end..end + 32] != lib.sha256(file[..end]) then r == Failure(Corrupt("header integrity"))
            else if |file| < end + 64 then r == Failure(Corrupt(NoMore(end + 64)))
            else file[end + 32..end + 64]
                 != lib.hmac(lib.sha512(ONES + lib.sha512(h.masterSeed + out + [1])), file[..end])
                 ==> r == Failure(WrongCredential)
  {
    hide ReadHeader, Preamble, CompositeKey, ReadBlocks, HeaderTag, CIPHER_AES256, CIPHER_CHACHA20, AES, CHACHA,
         Argon2Transform, CostAllowed, KDF_ARGON2D, KDF_ARGON2ID, ARGON2D, ARGON2ID;
    Uuids();
    var composite := CompositeKey(lib, password, keyfile);
    TransformMeans(lib, h.kdf, composite, out);
    HeaderTagMeans(lib, DeriveKeys(lib, h.masterSeed, out), file[..end]);
  }

  /** How a read fails that would end here. */
  function NoMore(end: nat): string {
    if end < 4294967296 then "unexpected end of data" else "length overflow"
  }

  // ----- such files exist -----

  /** The stream of an enciphered text. */
  function Enciphered(lib: Library, h: Header, key: seq<byte>, packed: seq<byte>): seq<byte> {
    if h.cipher == AES then lib.cbcEncrypt(key, h.encIv, packed)
    else Streamed(lib, h, key, packed)
  }

  function Streamed(lib: Library, h: Header, key: seq<byte>, packed: seq<byte>): seq<byte> {
    seq<byte>(|packed|, i requires 0 <= i < |packed| => Xor(packed[i], lib.chacha(key, h.encIv, i)))
  }

  /** A header such a file may have. */
  predicate Supported(h: Header) {
    && HeaderFits(h) && h.compression <= 1 && CostAllowed(h.kdf)
    && ((h.cipher == AES && |h.encIv| == 16) || (h.cipher == CHACHA && |h.encIv| == 12))
  }

  function ForeignFile(lib: Library, h: Header, rnd: Random, entries: seq<Entry>, out: seq<byte>, size: nat): seq<byte>
    requires DigestLaws(lib) && Drawn(rnd, entries) && size >= 1
  {
    var payload := InnerBytes(rnd, DocumentBytes(lib, rnd, entries));
    var packed := if h.compression == 1 then lib.gzip(payload) else payload;
    var text := Enciphered(lib, h, lib.sha256(h.masterSeed + out), packed);
    Sealed(lib, HeaderOf(h), lib.sha512(h.masterSeed + out + [1]), Cut(text, size))
  }

  lemma EncipheredIs(lib: Library, h: Header, key: seq<byte>, packed: seq<byte>)
    requires CipherLaws(lib) && |key| == 32
    requires (h.cipher == AES && |h.encIv| == 16) || (h.cipher == CHACHA && |h.encIv| == 12)
    ensures Enciphers(lib, h, key, packed, Enciphered(lib, h, key, packed))
  {
    Uuids();
  }

  lemma CutIsSmallChunks(text: seq<byte>, size: nat)
    requires 1 <= size < U32_SIZE
    ensures SmallChunks(Cut(text, size)) && Joined(Cut(text, size)) == text
  {
    hide Cut, Joined;
    CutJoins((i, d) => [], 0, text, size);
    KdbxTampering.CutIsSmall(text, size);
  }

  /** Entries under any supported header, password and key file come back, with either Argon2 in either version,
      either cipher, compressed or not. */
  lemma ForeignRoundTrip(lib: Library, h: Header, rnd: Random, entries: seq<Entry>, out: seq<byte>, size: nat,
                         password: string, keyfile: Option<seq<byte>>)
    requires Lawful(lib) && Drawn(rnd, entries) && Supported(h) && 1 <= size < U32_SIZE
    requires lib.argonParams(h.kdf.memBytes / 1024, h.kdf.iterations, h.kdf.parallelism)
    requires NamedArgon(lib, h.kdf, CompositeKey(lib, password, keyfile)) == Some(out)
    ensures OpenFile(lib, ForeignFile(lib, h, rnd, entries, out, size), password, keyfile)
         == Success(NormalForms(entries))
  {
    hide InnerBytes, DocumentBytes, HeaderOf, Preamble, ReadHeader, ReadInner, OpenFile, CompositeKey, NamedArgon,
         CostAllowed, Enciphered, Enciphers, Cut, Joined, Blocks, HeaderFits, SmallChunks, Walk;
    LawfulDigests(lib);
    var payload := InnerBytes(rnd, DocumentBytes(lib, rnd, entries));
    var packed := if h.compression == 1 then lib.gzip(payload) else payload;
    var key := lib.sha256(h.masterSeed + out);
    var text := Enciphered(lib, h, key, packed);
    var file := ForeignFile(lib, h, rnd, entries, out, size);
    PrefixStands(file, HeaderOf(h));
    HeaderRoundTrip(file, h);
    CutIsSmallChunks(text, size);
    EncipheredIs(lib, h, key, packed);
    InnerRoundTrip(rnd, DocumentBytes(lib, rnd, entries));
    var (inner, at) := ReadInner(payload, 0, Inner(0, [])).value;
    PayloadRoundTrip(lib, rnd, entries);
    ForeignFileOpens(lib, file, HeaderOf(h), h, CompositeKey(lib, password, keyfile), out, Cut(text, size), packed,
                     payload, inner, at, password, keyfile);
  }

  // ----- no other Argon2 -----

  ghost predicate AgreeOnNamed(lib: Library, other: Library, uuid: seq<byte>) {
    forall v10: bool, m: nat, t: nat, p: nat, salt: seq<byte>, x: seq<byte> ::
      && (uuid == ARGON2D ==> other.argon(false, v10, m, t, p, salt, x) == lib.argon(false, v10, m, t, p, salt, x))
      && (uuid == ARGON2ID ==> other.argon(true, v10, m, t, p, salt, x) == lib.argon(true, v10, m, t, p, salt, x))
  }

  lemma SameBlocks(lib: Library, other: Library, keys: Keys, file: seq<byte>, p: nat)
    requires other == lib.(argon := other.argon)
    ensures ReadBlocks(BlockMac(other, keys), file, p, 0, []) == ReadBlocks(BlockMac(lib, keys), file, p, 0, [])
  {
    hide ReadBlocks;
    var mac, same := BlockMac(lib, keys), BlockMac(other, keys);
    forall i: nat, d: seq<byte>
      ensures mac(i, d) == same(i, d)
    {
      assert mac(i, d) == lib.hmac(BlockKey(lib, i, keys.hmacBase), Framed(i, d));
      assert same(i, d) == other.hmac(BlockKey(other, i, keys.hmacBase), Framed(i, d));
    }
    BlocksDependOnTags(same, mac, file, p, 0, []);
  }

  lemma SamePayload(lib: Library, other: Library, payload: seq<byte>)
    requires DigestLaws(lib) && other == lib.(argon := other.argon)
    ensures OpenPayload(other, payload) == OpenPayload(lib, payload)
  {
    hide ReadInner, Walk;
  }

  lemma SameBody(lib: Library, other: Library, file: seq<byte>, h: Header, end: nat, keys: Keys)
    requires DigestLaws(lib) && other == lib.(argon := other.argon) && end <= |file|
    ensures OpenBody(other, file, h, end, keys) == OpenBody(lib, file, h, end, keys)
  {
    hide ReadBlocks, OpenPayload, TakeAt, Apply;
    SameBlocks(lib, other, keys, file, end + 64);
    SameDecipher(lib, other, h, keys.cipherKey);
    forall payload
      ensures OpenPayload(other, payload) == OpenPayload(lib, payload)
    {
      SamePayload(lib, other, payload);
    }
  }

  lemma SameDecipher(lib: Library, other: Library, h: Header, key: seq<byte>)
    requires other == lib.(argon := other.argon)
    ensures forall text :: Decipher(other, h, key, text) == Decipher(lib, h, key, text)
  {
    forall text
      ensures Decipher(other, h, key, text) == Decipher(lib, h, key, text)
    {
      SameStream(lib, other, h, key, text);
    }
  }

  lemma SameStream(lib: Library, other: Library, h: Header, key: seq<byte>, text: seq<byte>)
    requires other == lib.(argon := other.argon)
    ensures Apply((i: nat) => other.chacha(key, h.encIv, i), 0, text)
         == Apply((i: nat) => lib.chacha(key, h.encIv, i), 0, text)
  {
    var a := Apply((i: nat) => other.chacha(key, h.encIv, i), 0, text);
    var b := Apply((i: nat) => lib.chacha(key, h.encIv, i), 0, text);
    assert forall i | 0 <= i < |text| :: a[i] == b[i];
  }

  /** Of the two Argon2s only the one that the header names is ever asked: another library that agrees on that
      one opens the file alike. */
  lemma OnlyTheNamedArgonCounts(lib: Library, other: Library, file: seq<byte>, password: string,
                                keyfile: Option<seq<byte>>)
    requires DigestLaws(lib) && other == lib.(argon := other.argon)
    requires ReadHeader(file, 12, NO_HEADER).Success? ==>
               AgreeOnNamed(lib, other, ReadHeader(file, 12, NO_HEADER).value.0.kdf.uuid)
    ensures OpenFile(other, file, password, keyfile) == OpenFile(lib, file, password, keyfile)
  {
    hide ReadHeader, Preamble, OpenBody, WithinBudget, CIPHER_AES256, CIPHER_CHACHA20;
    Uuids();
    if ReadHeader(file, 12, NO_HEADER).Success? {
      var (h, end) := ReadHeader(file, 12, NO_HEADER).value;
      var composite := CompositeKey(lib, password, keyfile);
      SameTransform(lib, other, h.kdf, composite);
      if Argon2Transform(lib, h.kdf, composite).Success? {
        SameBody(lib, other, file, h, end, DeriveKeys(lib, h.masterSeed, Argon2Transform(lib, h.kdf, composite).value));
      }
    }
  }

  lemma SameTransform(lib: Library, other: Library, k: Kdf, composite: seq<byte>)
    requires other == lib.(argon := other.argon)
    requires AgreeOnNamed(lib, other, k.uuid)
    ensures Argon2Transform(other, k, composite) == Argon2Transform(lib, k, composite)
  {
    hide WithinBudget;
    Uuids();
  }
}
