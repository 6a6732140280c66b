/** What an export is, byte by byte. */
module KdbxExport {
  import opened Wrappers
  import opened Bytes
  import opened KdbxTypes
  import opened KdbxFrame
  import opened KdbxBlocks
  import opened KdbxFile
  import opened KdbxForeign
  import Utf8

  // ----- the bytes of a header -----

  lemma FourBytes(n: nat)
    ensures Le(n, 4) == [n % 256, n / 256 % 256, n / 65536 % 256, n / 16777216 % 256]
  {
    hide Le;
    LeStep(n, 4);
    LeStep(n / 256, 3);
    LeStep(n / 256 / 256, 2);
    LeStep(n / 256 / 256 / 256, 1);
    LeStep(n / 256 / 256 / 256 / 256, 0);
    Quarters(n);
  }

  lemma Quarters(n: nat)
    ensures n / 256 / 256 == n / 65536 && n / 256 / 256 / 256 == n / 16777216
    ensures n < U32_SIZE ==> n / 256 / 256 / 256 / 256 == 0
  {
  }

  lemma TwoBytes(n: nat)
    ensures Le(n, 2) == [n % 256, n / 256 % 256]
  {
    LeStep(n, 2);
    LeStep(n / 256, 1);
    LeStep(n / 256 / 256, 0);
  }

  lemma EightBytes(n: nat)
    requires n < U32_SIZE
    ensures Le(n, 8) == [n % 256, n / 256 % 256, n / 65536 % 256, n / 16777216 % 256, 0, 0, 0, 0]
  {
    hide Le;
    LeStep(n, 8);
    LeStep(n / 256, 7);
    LeStep(n / 256 / 256, 6);
    LeStep(n / 256 / 256 / 256, 5);
    Quarters(n);
    ZeroBytes(n / 256 / 256 / 256 / 256);
  }

  lemma ZeroBytes(n: nat)
    requires n == 0
    ensures Le(n, 4) == [0, 0, 0, 0]
  {
    FourBytes(n);
  }

  const SIGNATURE: seq<byte> := [0x03, 0xd9, 0xa2, 0x9a, 0x67, 0xfb, 0x4b, 0xb5]

  /** A database is one of version 4 if and only if it begins with the signature and that version. */
  lemma PreambleMeans(b: seq<byte>)
    ensures Preamble(b).Success? <==> (|b| >= 12 && b[..8] == SIGNATURE && b[10..12] == [4, 0])
    ensures |b| >= 8 && b[..8] != SIGNATURE ==> Preamble(b) == Failure(NotKeepass)
    ensures |b| >= 12 && b[..8] == SIGNATURE && b[10..12] != [4, 0] ==>
              Preamble(b) == Failure(UnsupportedVersion(FromLe(b[10..12])))
  {
    hide FromLe, Le, SIGNATURE;
    Widths();
    SignatureBytes();
    if |b| >= 8 {
      NumberIs(b[0..4], SIGNATURE1, 4);
      NumberIs(b[4..8], SIGNATURE2, 4);
      EightIs(b, Le(SIGNATURE1, 4), Le(SIGNATURE2, 4));
    }
    if |b| >= 12 {
      NumberIs(b[10..12], 4, 2);
      TwoBytes(4);
    }
  }

  lemma SignatureBytes()
    ensures SIGNATURE == Le(SIGNATURE1, 4) + Le(SIGNATURE2, 4)
  {
    hide Le;
    FourBytes(SIGNATURE1);
    FourBytes(SIGNATURE2);
  }

  lemma EightIs(b: seq<byte>, x: seq<byte>, y: seq<byte>)
    requires |b| >= 8 && |x| == 4 && |y| == 4
    ensures b[..8] == x + y <==> (b[0..4] == x && b[4..8] == y)
  {
    assert b[..8] == b[0..4] + b[4..8];
    if b[..8] == x + y {
      assert b[..8][..4] == b[0..4] && b[..8][4..] == b[4..8];
      assert (x + y)[..4] == x && (x + y)[4..] == y;
    }
  }

  lemma NumberIs(b: seq<byte>, n: nat, width: nat)
    requires |b| == width && n < Pow256(width)
    ensures FromLe(b) == n <==> b == Le(n, width)
  {
    FromLeRoundTrip(b);
    LeRoundTrip(n, width);
  }

  // ----- the bytes of an export -----

  /** `[id][length, 4 bytes][data]` and `[type][length, 4 bytes][name][length, 4 bytes][value]`. */
  lemma ItemBytes(id: byte, name: seq<byte>, data: seq<byte>)
    requires |name| < 256 && |data| < 256
    ensures FieldBytes(id, data) == [id, |data|, 0, 0, 0] + data
    ensures VariantBytes(id, name, data) == [id, |name|, 0, 0, 0] + name + [|data|, 0, 0, 0] + data
  {
    FourBytes(|data|);
    FourBytes(|name|);
  }

  lemma UuidItem()
    ensures VariantBytes(0x42, KEY_UUID, KDF_ARGON2ID) ==
            [0x42, 5, 0, 0, 0, '$' as int, 'U' as int, 'U' as int, 'I' as int, 'D' as int, 16, 0, 0, 0] + ARGON2ID
  {
    hide VariantBytes, Le;
    Uuids();
    ItemBytes(0x42, KEY_UUID, ARGON2ID);
  }

  lemma NumberItems()
    ensures VariantBytes(0x05, KEY_ITERATIONS, Le(3, 8)) ==
            [5, 1, 0, 0, 0, 'I' as int, 8, 0, 0, 0, 3, 0, 0, 0, 0, 0, 0, 0]
    ensures VariantBytes(0x05, KEY_MEMORY, Le(64 * 1024 * 1024, 8)) ==
            [5, 1, 0, 0, 0, 'M' as int, 8, 0, 0, 0, 0, 0, 0, 4, 0, 0, 0, 0]
  {
    hide VariantBytes, Le;
    EightBytes(3);
    EightBytes(64 * 1024 * 1024);
    ItemBytes(5, KEY_ITERATIONS, Le(3, 8));
    ItemBytes(5, KEY_MEMORY, Le(64 * 1024 * 1024, 8));
  }

  lemma ShortItems()
    ensures VariantBytes(0x04, KEY_PARALLELISM, Le(1, 4)) == [4, 1, 0, 0, 0, 'P' as int, 4, 0, 0, 0, 1, 0, 0, 0]
    ensures VariantBytes(0x04, KEY_VERSION, Le(0x13, 4)) == [4, 1, 0, 0, 0, 'V' as int, 4, 0, 0, 0, 0x13, 0, 0, 0]
  {
    hide VariantBytes, Le;
    FourBytes(1);
    FourBytes(0x13);
    ItemBytes(4, KEY_PARALLELISM, Le(1, 4));
    ItemBytes(4, KEY_VERSION, Le(0x13, 4));
  }

  lemma SaltItem(salt: seq<byte>)
    requires |salt| == 32
    ensures VariantBytes(0x42, KEY_SALT, salt) == [0x42, 1, 0, 0, 0, 'S' as int, 32, 0, 0, 0] + salt
  {
    hide VariantBytes, Le;
    ItemBytes(0x42, KEY_SALT, salt);
  }

  /** The dictionary of an export: Argon2id with 64 MiB, 3 passes and 1 lane, in version 0x13. */
  lemma ExportDictionary(salt: seq<byte>)
    requires |salt| == 32
    ensures |DictBytes(salt)| == 139
    ensures DictBytes(salt) ==
            [0, 1]
            + (([0x42, 5, 0, 0, 0, '$' as int, 'U' as int, 'U' as int, 'I' as int, 'D' as int, 16, 0, 0, 0] + ARGON2ID)
            + ([5, 1, 0, 0, 0, 'I' as int, 8, 0, 0, 0, 3, 0, 0, 0, 0, 0, 0, 0]
            + ([5, 1, 0, 0, 0, 'M' as int, 8, 0, 0, 0, 0, 0, 0, 4, 0, 0, 0, 0]
            + ([4, 1, 0, 0, 0, 'P' as int, 4, 0, 0, 0, 1, 0, 0, 0]
            + (([0x42, 1, 0, 0, 0, 'S' as int, 32, 0, 0, 0] + salt)
            + ([4, 1, 0, 0, 0, 'V' as int, 4, 0, 0, 0, 0x13, 0, 0, 0]
            + [0]))))))
  {
    hide VariantBytes, Le;
    TwoBytes(0x0100);
    UuidItem();
    NumberItems();
    ShortItems();
    SaltItem(salt);
  }

  lemma HeaderItems(rnd: Random)
    requires |rnd.masterSeed| == 32 && |rnd.encIv| == 16 && |rnd.kdfSalt| == 32
    ensures FieldBytes(2, CIPHER_AES256) == [2, 16, 0, 0, 0] + AES
    ensures FieldBytes(3, Le(1, 4)) == [3, 4, 0, 0, 0, 1, 0, 0, 0]
    ensures FieldBytes(4, rnd.masterSeed) == [4, 32, 0, 0, 0] + rnd.masterSeed
    ensures FieldBytes(7, rnd.encIv) == [7, 16, 0, 0, 0] + rnd.encIv
    ensures FieldBytes(11, DictBytes(rnd.kdfSalt)) == [11, 139, 0, 0, 0] + DictBytes(rnd.kdfSalt)
    ensures FieldBytes(0, [0x0d, 0x0a, 0x0d, 0x0a]) == [0, 4, 0, 0, 0, 0x0d, 0x0a, 0x0d, 0x0a]
  {
    hide FieldBytes, VariantBytes, Le, DictBytes;
    Uuids();
    ExportDictionary(rnd.kdfSalt);
    FourBytes(1);
    ItemBytes(2, [], AES);
    ItemBytes(3, [], Le(1, 4));
    ItemBytes(4, [], rnd.masterSeed);
    ItemBytes(7, [], rnd.encIv);
    ItemBytes(11, [], DictBytes(rnd.kdfSalt));
    ItemBytes(0, [], [0x0d, 0x0a, 0x0d, 0x0a]);
  }

  /** The header of an export: signature, version 4.0, AES, gzip, its seed and nonce, and that dictionary. */
  lemma ExportHeader(rnd: Random)
    requires |rnd.masterSeed| == 32 && |rnd.encIv| == 16 && |rnd.kdfSalt| == 32
    ensures HeaderBytes(rnd) ==
            [0x03, 0xd9, 0xa2, 0x9a] + ([0x67, 0xfb, 0x4b, 0xb5] + ([0, 0] + ([4, 0]
            + (([2, 16, 0, 0, 0] + AES)
            + ([3, 4, 0, 0, 0, 1, 0, 0, 0]
            + (([4, 32, 0, 0, 0] + rnd.masterSeed)
            + (([7, 16, 0, 0, 0] + rnd.encIv)
            + (([11, 139, 0, 0, 0] + DictBytes(rnd.kdfSalt))
            + [0, 4, 0, 0, 0, 0x0d, 0x0a, 0x0d, 0x0a]))))))))
  {
    hide FieldBytes, Le, DictOf;
    FourBytes(SIGNATURE1);
    FourBytes(SIGNATURE2);
    TwoBytes(0);
    TwoBytes(4);
    HeaderItems(rnd);
  }

  // ----- a whole export -----

  /** Pieces of exactly this size, except that the last may be shorter; none is empty. */
  predicate CutInto(chunks: seq<seq<byte>>, size: nat) {
    && (forall i | 0 <= i < |chunks| :: 0 < |chunks[i]| <= size)
    && (forall i | 0 <= i < |chunks| - 1 :: |chunks[i]| == size)
  }

  lemma {:induction false} CutIsInto(text: seq<byte>, size: nat)
    requires size >= 1
    ensures CutInto(Cut(text, size), size)
    decreases |text|
  {
    if |text| > size {
      CutIsInto(text[size..], size);
    }
  }

  /** The inner header: stream 3, its key of 64 bytes, the end; then the document. */
  lemma ExportInner(rnd: Random, xml: seq<byte>)
    requires |rnd.innerKey| == 64
    ensures InnerBytes(rnd, xml) ==
            [1, 4, 0, 0, 0, 3, 0, 0, 0] + (([2, 64, 0, 0, 0] + rnd.innerKey) + ([0, 0, 0, 0, 0] + xml))
  {
    hide FieldBytes, Le;
    FourBytes(3);
    ItemBytes(1, [], Le(3, 4));
    ItemBytes(2, [], rnd.innerKey);
    ItemBytes(0, [], []);
  }

  /** Nothing but an empty password and Argon2 refuse an export. It is its header, sealed under what Argon2id makes
      of the password, and in blocks of exactly 1 MiB but for the last the gzipped inner header and document,
      enciphered under the key and nonce of this file. */
  lemma ExportFile(lib: Library, rnd: Random, entries: seq<Entry>, password: string, out: seq<byte>)
    returns (chunks: seq<seq<byte>>)
    requires DigestLaws(lib) && Drawn(rnd, entries)
    requires password != "" && lib.argonParams(65536, 3, 1)
    requires lib.argon(true, false, 65536, 3, 1, rnd.kdfSalt, lib.sha256(lib.sha256(Utf8.Encode(password))))
             == Some(out)
    ensures var key, base := lib.sha256(rnd.masterSeed + out), lib.sha512(rnd.masterSeed + out + [1]);
            && SaveFile(lib, rnd, entries, password) == Success(Sealed(lib, HeaderBytes(rnd), base, chunks))
            && CutInto(chunks, 1048576)
            && Joined(chunks) ==
               lib.cbcEncrypt(key, rnd.encIv, lib.gzip(InnerBytes(rnd, DocumentBytes(lib, rnd, entries))))
  {
    hide InnerBytes, DocumentBytes, HeaderOf, Cut, Joined, Blocks, BlockStream, Argon2Transform, CompositeKey;
    var composite := CompositeKey(lib, password, None);
    CompositeMeans(lib, password, None);
    TransformMeans(lib, OutKdf(rnd.kdfSalt), composite, out);
    Uuids();
    var keys := DeriveKeys(lib, rnd.masterSeed, out);
    KeysMean(lib, rnd.masterSeed, out);
    var text := SealedText(lib, rnd, keys, InnerBytes(rnd, DocumentBytes(lib, rnd, entries)));
    chunks := Cut(text, BLOCK_SIZE);
    CutIsInto(text, BLOCK_SIZE);
    CutJoins(BlockMac(lib, keys), 0, text, BLOCK_SIZE);
    HeaderTagMeans(lib, keys, HeaderBytes(rnd));
    BlockTagIsMac(lib, keys);
    BlocksAgree(BlockTag(lib, keys.hmacBase), BlockMac(lib, keys), 0, chunks);
  }

  lemma {:induction false} BlocksAgree(mac: Mac, other: Mac, index: nat, chunks: seq<seq<byte>>)
    requires forall i: nat, d: seq<byte> :: mac(i, d) == other(i, d)
    ensures Blocks(mac, index, chunks) == Blocks(other, index, chunks)
    decreases |chunks|
  {
    if chunks != [] {
      BlocksAgree(mac, other, index + 1, chunks[1..]);
    }
  }
}
