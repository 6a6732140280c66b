/** The framing of a KDBX4 file: a bounds-checked cursor, length-prefixed fields, the KDF dictionary
    and the authenticated block stream; each reader beside the writer it must undo. */
module KdbxFrame {
  import opened Wrappers
  import opened Bytes
  import opened KdbxTypes

  // ----- reading at a position -----

  /** The largest `usize` of the 32-bit web build. */
  const USIZE_MAX: nat := U32_SIZE - 1

  function TakeAt(b: seq<byte>, p: nat, n: nat): (r: Res<seq<byte>>)
    ensures r.Success? <==> p + n <= |b|
  {
    if p + n <= |b| then Success(b[p..p + n])
    else Failure(Corrupt(if p + n > USIZE_MAX then "length overflow" else "unexpected end of data"))
  }

  function U8At(b: seq<byte>, p: nat): Res<byte> {
    var s :- TakeAt(b, p, 1);
    Success(s[0])
  }

  function UintAt(b: seq<byte>, p: nat, width: nat): Res<nat> {
    var s :- TakeAt(b, p, width);
    Success(FromLe(s))
  }

  /** A forward byte cursor. Every read either advances `p` by exactly what it returns or fails and
      leaves it in place; `p` never passes the end. */
  class Cursor {
    const b: seq<byte>
    var p: nat

    ghost predicate Valid()
      reads this
    {
      p <= |b|
    }

    constructor (bytes: seq<byte>)
      ensures Valid() && b == bytes && p == 0
    {
      b := bytes;
      p := 0;
    }

    method Take(n: nat) returns (r: Res<seq<byte>>)
      requires Valid()
      modifies this`p
      ensures Valid() && r == TakeAt(b, old(p), n)
      ensures p == if r.Success? then old(p) + n else old(p)
    {
      var end := p + n;
      if end > |b| {
        return Failure(Corrupt(if end > USIZE_MAX then "length overflow" else "unexpected end of data"));
      }
      r := Success(b[p..end]);
      p := end;
    }

    method U8() returns (r: Res<byte>)
      requires Valid()
      modifies this`p
      ensures Valid() && r == U8At(b, old(p))
      ensures p == if r.Success? then old(p) + 1 else old(p)
    {
      var s :- Take(1);
      r := Success(s[0]);
    }

    method Uint(width: nat) returns (r: Res<nat>)
      requires Valid()
      modifies this`p
      ensures Valid() && r == UintAt(b, old(p), width)
      ensures p == if r.Success? then old(p) + width else old(p)
    {
      var s :- Take(width);
      r := Success(FromLe(s));
    }
  }

  /** `chunk` stands at position `p` of `b`. */
  predicate At(b: seq<byte>, p: nat, chunk: seq<byte>) {
    p + |chunk| <= |b| && b[p..p + |chunk|] == chunk
  }

  lemma AtConcat(b: seq<byte>, p: nat, x: seq<byte>, y: seq<byte>)
    requires At(b, p, x + y)
    ensures At(b, p, x) && At(b, p + |x|, y)
  {
    var s := b[p..p + |x + y|];
    assert s[..|x|] == x && s[|x|..] == y;
    assert b[p..p + |x|] == s[..|x|];
    assert b[p + |x|..p + |x| + |y|] == s[|x|..];
  }

  lemma TakeWhatIsThere(b: seq<byte>, p: nat, x: seq<byte>)
    requires At(b, p, x)
    ensures TakeAt(b, p, |x|) == Success(x)
  {
  }

  /** What is not there fails, and how it fails tells whether its end had an address at all. */
  lemma TakeWhatIsNotThere(b: seq<byte>, p: nat, n: nat)
    requires p + n > |b|
    ensures TakeAt(b, p, n) ==
            Failure(Corrupt(if p + n <= 4294967295 then "unexpected end of data" else "length overflow"))
  {
  }

  lemma UintWhatIsThere(b: seq<byte>, p: nat, n: nat, width: nat)
    requires At(b, p, Le(n, width)) && n < Pow256(width)
    ensures UintAt(b, p, width) == Success(n)
  {
    LeRoundTrip(n, width);
  }

  // ----- length-prefixed fields -----

  /** `[id:u8][len:u32][data]`; the length is cut to 32 bits, as the cast does. */
  function FieldBytes(id: byte, data: seq<byte>): seq<byte> {
    [id] + Le(|data|, 4) + data
  }

  datatype RawField = RawField(id: byte, data: seq<byte>, next: nat)

  function FieldAt(b: seq<byte>, p: nat): (r: Res<RawField>)
    ensures r.Success? ==> p + 5 <= r.value.next <= |b|
  {
    var id :- U8At(b, p);
    var len :- UintAt(b, p + 1, 4);
    var data :- TakeAt(b, p + 5, len);
    Success(RawField(id, data, p + 5 + len))
  }

  method ReadField(c: Cursor) returns (r: Res<RawField>)
    requires c.Valid()
    modifies c`p
    ensures c.Valid() && r == FieldAt(c.b, old(c.p))
    ensures r.Success? ==> c.p == r.value.next
  {
    var id :- c.U8();
    var len :- c.Uint(4);
    var data :- c.Take(len);
    r := Success(RawField(id, data, c.p));
  }

  /** A field is read back, wherever it stands, exactly when its length fits the 32-bit prefix. */
  lemma FieldRoundTrip(b: seq<byte>, p: nat, id: byte, data: seq<byte>)
    requires At(b, p, FieldBytes(id, data))
    ensures FieldAt(b, p) == Success(RawField(id, data, p + 5 + |data|)) <==> |data| < U32_SIZE
  {
    Widths();
    AtConcat(b, p, [id] + Le(|data|, 4), data);
    AtConcat(b, p, [id], Le(|data|, 4));
    TakeWhatIsThere(b, p, [id]);
    LeRoundTrip(|data|, 4);
    if |data| < U32_SIZE {
      UintWhatIsThere(b, p + 1, |data|, 4);
      TakeWhatIsThere(b, p + 5, data);
    }
  }

  // ----- the KDF dictionary -----

  const KDF_ARGON2D: seq<byte> := [0xef, 0x63, 0x6d, 0xdf, 0x8c, 0x29, 0x44, 0x4b, 0x91, 0xf7, 0xa9, 0xa4, 0x03, 0xe3,
                                   0x0a, 0x0c]
  const KDF_ARGON2ID: seq<byte> := [0x9e, 0x29, 0x8b, 0x19, 0x56, 0xdb, 0x47, 0x73, 0xb2, 0x3d, 0xfc, 0x3e, 0xc6,
                                    0xf0, 0xa1, 0xe6]

  // "$UUID", "I", "M", "P", "S", "V"
  const KEY_UUID: seq<byte> := [0x24, 0x55, 0x55, 0x49, 0x44]
  const KEY_ITERATIONS: seq<byte> := [0x49]
  const KEY_MEMORY: seq<byte> := [0x4d]
  const KEY_PARALLELISM: seq<byte> := [0x50]
  const KEY_SALT: seq<byte> := [0x53]
  const KEY_VERSION: seq<byte> := [0x56]

  datatype Kdf = Kdf(uuid: seq<byte>, iterations: nat, memBytes: nat, parallelism: nat, salt: seq<byte>, version: nat)

  const NO_KDF := Kdf([], 0, 0, 0, [], 0)

  function Sized(val: seq<byte>, width: nat): Res<nat> {
    if |val| == width then Success(FromLe(val)) else Failure(Corrupt("bad KDF param size"))
  }

  function SetParam(kdf: Kdf, key: seq<byte>, val: seq<byte>): Res<Kdf> {
    if key == KEY_UUID then Success(kdf.(uuid := val))
    else if key == KEY_ITERATIONS then (var n :- Sized(val, 8); Success(kdf.(iterations := n)))
    else if key == KEY_MEMORY then (var n :- Sized(val, 8); Success(kdf.(memBytes := n)))
    else if key == KEY_PARALLELISM then (var n :- Sized(val, 4); Success(kdf.(parallelism := n)))
    else if key == KEY_SALT then Success(kdf.(salt := val))
    else if key == KEY_VERSION then (var n :- Sized(val, 4); Success(kdf.(version := n)))
    else Success(kdf)
  }

  /** One item from its key on, and where the next one starts. */
  function ReadItem(d: seq<byte>, p: nat, kdf: Kdf): (r: Res<(Kdf, nat)>)
    ensures r.Success? ==> p < r.value.1
  {
    var klen :- UintAt(d, p, 4);
    var key :- TakeAt(d, p + 4, klen);
    var vlen :- UintAt(d, p + 4 + klen, 4);
    var val :- TakeAt(d, p + 8 + klen, vlen);
    var next :- SetParam(kdf, key, val);
    Success((next, p + 8 + klen + vlen))
  }

  function ReadItems(d: seq<byte>, p: nat, kdf: Kdf): Res<Kdf>
    decreases |d| - p
  {
    var t :- U8At(d, p);
    if t == 0 then Success(kdf)
    else
      var (next, q) :- ReadItem(d, p + 1, kdf);
      ReadItems(d, q, next)
  }

  function ReadDict(d: seq<byte>): Res<Kdf> {
    var _ :- UintAt(d, 0, 2);
    ReadItems(d, 2, NO_KDF)
  }

  method ParseVariantDict(d: seq<byte>) returns (r: Res<Kdf>)
    ensures r == ReadDict(d)
  {
    hide ReadItem;
    var c := new Cursor(d);
    var _ :- c.Uint(2);
    var kdf := NO_KDF;
    while true
      invariant c.Valid() && c.b == d
      invariant ReadDict(d) == ReadItems(d, c.p, kdf)
      decreases |d| - c.p
    {
      var t :- c.U8();
      if t == 0 {
        break;
      }
      kdf :- ParseItem(c, kdf);
    }
    r := Success(kdf);
  }

  method ParseItem(c: Cursor, kdf: Kdf) returns (r: Res<Kdf>)
    requires c.Valid()
    modifies c`p
    ensures c.Valid()
    ensures match ReadItem(c.b, old(c.p), kdf)
            case Success((next, q)) => r == Success(next) && c.p == q
            case Failure(error) => r == Failure(error)
  {
    hide SetParam, FromLe;
    var klen :- c.Uint(4);
    var key :- c.Take(klen);
    var vlen :- c.Uint(4);
    var val :- c.Take(vlen);
    r := SetParam(kdf, key, val);
  }

  /** `[type:u8][klen:u32][key][vlen:u32][val]`. */
  function VariantBytes(ty: byte, key: seq<byte>, val: seq<byte>): seq<byte> {
    [ty] + Le(|key|, 4) + key + Le(|val|, 4) + val
  }

  lemma ItemRoundTrip(d: seq<byte>, p: nat, ty: byte, key: seq<byte>, val: seq<byte>, kdf: Kdf)
    requires ty != 0 && |key| < U32_SIZE && |val| < U32_SIZE
    requires At(d, p, VariantBytes(ty, key, val))
    ensures ReadItems(d, p, kdf)
         == match SetParam(kdf, key, val)
            case Failure(e) => Failure(e)
            case Success(next) => ReadItems(d, p + |VariantBytes(ty, key, val)|, next)
  {
    hide SetParam, At, TakeAt, UintAt, Le, FromLe;
    Widths();
    AtConcat(d, p, [ty] + Le(|key|, 4) + key + Le(|val|, 4), val);
    AtConcat(d, p, [ty] + Le(|key|, 4) + key, Le(|val|, 4));
    AtConcat(d, p, [ty] + Le(|key|, 4), key);
    AtConcat(d, p, [ty], Le(|key|, 4));
    TakeWhatIsThere(d, p, [ty]);
    UintWhatIsThere(d, p + 1, |key|, 4);
    TakeWhatIsThere(d, p + 5, key);
    UintWhatIsThere(d, p + 5 + |key|, |val|, 4);
    TakeWhatIsThere(d, p + 9 + |key|, val);
  }

  const OUT_KDF_MEM_BYTES: nat := 64 * 1024 * 1024
  const OUT_KDF_ITERATIONS: nat := 3
  const OUT_KDF_PARALLELISM: nat := 1
  const ARGON2_V13: nat := 0x13

  function OutKdf(salt: seq<byte>): Kdf {
    Kdf(KDF_ARGON2ID, OUT_KDF_ITERATIONS, OUT_KDF_MEM_BYTES, OUT_KDF_PARALLELISM, salt, ARGON2_V13)
  }

  /** A dictionary naming these parameters, in the order an export writes them. */
  function DictOf(k: Kdf): seq<byte> {
    Le(0x0100, 2)
    + (VariantBytes(0x42, KEY_UUID, k.uuid)
    + (VariantBytes(0x05, KEY_ITERATIONS, Le(k.iterations, 8))
    + (VariantBytes(0x05, KEY_MEMORY, Le(k.memBytes, 8))
    + (VariantBytes(0x04, KEY_PARALLELISM, Le(k.parallelism, 4))
    + (VariantBytes(0x42, KEY_SALT, k.salt)
    + (VariantBytes(0x04, KEY_VERSION, Le(k.version, 4))
    + [0]))))))
  }

  function DictBytes(salt: seq<byte>): seq<byte> {
    DictOf(OutKdf(salt))
  }

  /** The widths of the dictionary's values and length prefixes. */
  predicate KdfFits(k: Kdf) {
    && |k.uuid| < U32_SIZE && k.iterations < U64_SIZE && k.memBytes < U64_SIZE && k.parallelism < U32_SIZE
    && |k.salt| < U32_SIZE && k.version < U32_SIZE
  }

  lemma ItemStep(d: seq<byte>, p: nat, ty: byte, key: seq<byte>, val: seq<byte>, rest: seq<byte>, kdf: Kdf, next: Kdf)
    requires ty != 0 && |key| < U32_SIZE && |val| < U32_SIZE && SetParam(kdf, key, val) == Success(next)
    requires At(d, p, VariantBytes(ty, key, val) + rest)
    ensures ReadItems(d, p, kdf) == ReadItems(d, p + |VariantBytes(ty, key, val)|, next)
    ensures At(d, p + |VariantBytes(ty, key, val)|, rest)
  {
    hide ReadItems, SetParam, VariantBytes, At;
    AtConcat(d, p, VariantBytes(ty, key, val), rest);
    ItemRoundTrip(d, p, ty, key, val, kdf);
  }

  lemma LastItems(d: seq<byte>, p: nat, k: Kdf, k3: Kdf)
    requires KdfFits(k) && k3 == Kdf(k.uuid, k.iterations, k.memBytes, 0, [], 0)
    requires At(d, p, VariantBytes(0x04, KEY_PARALLELISM, Le(k.parallelism, 4))
                      + (VariantBytes(0x42, KEY_SALT, k.salt)
                      + (VariantBytes(0x04, KEY_VERSION, Le(k.version, 4)) + [0])))
    ensures ReadItems(d, p, k3) == Success(k)
  {
    hide ReadItems, SetParam, VariantBytes, At, Le, Pow256;
    var v4 := VariantBytes(0x04, KEY_PARALLELISM, Le(k.parallelism, 4));
    var v5 := VariantBytes(0x42, KEY_SALT, k.salt);
    var v6 := VariantBytes(0x04, KEY_VERSION, Le(k.version, 4));
    var k4 := k3.(parallelism := k.parallelism);
    var k5 := k4.(salt := k.salt);
    ParamsAreSet(k, k3, k3, k3, k3, k4, k5);
    ItemStep(d, p, 0x04, KEY_PARALLELISM, Le(k.parallelism, 4), v5 + (v6 + [0]), k3, k4);
    var p5 := p + |v4|;
    ItemStep(d, p5, 0x42, KEY_SALT, k.salt, v6 + [0], k4, k5);
    var p6 := p5 + |v5|;
    ItemStep(d, p6, 0x04, KEY_VERSION, Le(k.version, 4), [0], k5, k);
    ItemsEnd(d, p6 + |v6|, k);
  }

  /** The dictionary is read back as the parameters it was written for. */
  lemma DictRoundTrip(k: Kdf)
    requires KdfFits(k)
    ensures ReadDict(DictOf(k)) == Success(k)
  {
    hide ReadItems, SetParam, VariantBytes, At, Le, Pow256;
    var d := DictOf(k);
    var v1 := VariantBytes(0x42, KEY_UUID, k.uuid);
    var v2 := VariantBytes(0x05, KEY_ITERATIONS, Le(k.iterations, 8));
    var v3 := VariantBytes(0x05, KEY_MEMORY, Le(k.memBytes, 8));
    var rest := VariantBytes(0x04, KEY_PARALLELISM, Le(k.parallelism, 4))
                + (VariantBytes(0x42, KEY_SALT, k.salt) + (VariantBytes(0x04, KEY_VERSION, Le(k.version, 4)) + [0]));
    AtStart(d);
    AtConcat(d, 0, Le(0x0100, 2), v1 + (v2 + (v3 + rest)));
    var k1 := NO_KDF.(uuid := k.uuid);
    var k2 := k1.(iterations := k.iterations);
    var k3 := k2.(memBytes := k.memBytes);
    ParamsAreSet(k, NO_KDF, k1, k2, k3, k3, k3);
    ItemStep(d, 2, 0x42, KEY_UUID, k.uuid, v2 + (v3 + rest), NO_KDF, k1);
    var p2 := 2 + |v1|;
    ItemStep(d, p2, 0x05, KEY_ITERATIONS, Le(k.iterations, 8), v3 + rest, k1, k2);
    var p3 := p2 + |v2|;
    ItemStep(d, p3, 0x05, KEY_MEMORY, Le(k.memBytes, 8), rest, k2, k3);
    LastItems(d, p3 + |v3|, k, k3);
    TakeWhatIsThere(d, 0, Le(0x0100, 2));
  }

  lemma AtStart(d: seq<byte>)
    ensures At(d, 0, d)
  {
  }

  lemma ItemsEnd(d: seq<byte>, p: nat, kdf: Kdf)
    requires At(d, p, [0])
    ensures ReadItems(d, p, kdf) == Success(kdf)
  {
    TakeWhatIsThere(d, p, [0]);
  }

  lemma ParamsAreSet(k: Kdf, k0: Kdf, k1: Kdf, k2: Kdf, k3: Kdf, k4: Kdf, k5: Kdf)
    requires KdfFits(k)
    ensures SetParam(k0, KEY_UUID, k.uuid) == Success(k0.(uuid := k.uuid))
    ensures SetParam(k1, KEY_ITERATIONS, Le(k.iterations, 8)) == Success(k1.(iterations := k.iterations))
    ensures SetParam(k2, KEY_MEMORY, Le(k.memBytes, 8)) == Success(k2.(memBytes := k.memBytes))
    ensures SetParam(k3, KEY_PARALLELISM, Le(k.parallelism, 4)) == Success(k3.(parallelism := k.parallelism))
    ensures SetParam(k4, KEY_SALT, k.salt) == Success(k4.(salt := k.salt))
    ensures SetParam(k5, KEY_VERSION, Le(k.version, 4)) == Success(k5.(version := k.version))
  {
    hide Le, FromLe;
    Widths();
    LeRoundTrip(k.iterations, 8);
    LeRoundTrip(k.memBytes, 8);
    LeRoundTrip(k.parallelism, 4);
    LeRoundTrip(k.version, 4);
  }

  // ----- the block stream -----

  type Mac = (nat, seq<byte>) -> seq<byte>

  /** One block: its tag, its length cut to 32 bits, its data. `mac` gives the tag of a block by index;
      it covers the index and the length as well as the data. */
  function BlockBytes(mac: Mac, index: nat, data: seq<byte>): seq<byte> {
    mac(index, data) + Le(|data|, 4) + data
  }

  function BlockStream(mac: Mac, index: nat, text: seq<byte>, size: nat): seq<byte>
    requires size >= 1
    decreases |text|
  {
    if text == [] then BlockBytes(mac, index, [])
    else if |text| <= size then BlockBytes(mac, index, text) + BlockStream(mac, index + 1, [], size)
    else BlockBytes(mac, index, text[..size]) + BlockStream(mac, index + 1, text[size..], size)
  }

  function ReadBlocks(mac: Mac, b: seq<byte>, p: nat, index: nat, got: seq<byte>): Res<(seq<byte>, nat)>
    decreases |b| - p
  {
    var tag :- TakeAt(b, p, 32);
    var len :- UintAt(b, p + 32, 4);
    var data :- TakeAt(b, p + 36, len);
    if mac(index, data) != tag then Failure(Corrupt("block HMAC mismatch"))
    else if len == 0 then Success((got, p + 36))
    else ReadBlocks(mac, b, p + 36 + len, index + 1, got + data)
  }

  method ReadBlockStream(c: Cursor, mac: Mac) returns (r: Res<seq<byte>>)
    requires c.Valid()
    modifies c`p
    ensures c.Valid()
    ensures var s := ReadBlocks(mac, c.b, old(c.p), 0, []);
            r == (match s case Success((text, _)) => Success(text) case Failure(e) => Failure(e))
    ensures r.Success? ==> c.p == ReadBlocks(mac, c.b, old(c.p), 0, []).value.1
  {
    hide FromLe;
    var text: seq<byte> := [];
    var index: nat := 0;
    while true
      invariant c.Valid()
      invariant ReadBlocks(mac, c.b, old(c.p), 0, []) == ReadBlocks(mac, c.b, c.p, index, text)
      decreases |c.b| - c.p
    {
      var tag :- c.Take(32);
      var len :- c.Uint(4);
      var data :- c.Take(len);
      if mac(index, data) != tag {
        return Failure(Corrupt("block HMAC mismatch"));
      }
      if len == 0 {
        break;
      }
      text := text + data;
      index := index + 1;
    }
    r := Success(text);
  }

  method WriteBlockStream(before: seq<byte>, mac: Mac, text: seq<byte>, size: nat) returns (out: seq<byte>)
    requires size >= 1
    ensures out == before + BlockStream(mac, 0, text, size)
  {
    hide BlockBytes, BlockStream;
    out := before;
    var index: nat := 0;
    var at: nat := 0;
    assert text[0..] == text;
    while at < |text|
      invariant at <= |text|
      invariant out + BlockStream(mac, index, text[at..], size) == before + BlockStream(mac, 0, text, size)
      decreases |text| - at
    {
      var end := if |text| - at <= size then |text| else at + size;
      var chunk := text[at..end];
      BlockStreamStep(mac, index, text[at..], size, end - at);
      assert text[at..][..end - at] == chunk && text[at..][end - at..] == text[end..];
      out := out + BlockBytes(mac, index, chunk);
      index := index + 1;
      at := end;
    }
    assert text[at..] == [];
    BlockStreamEnd(mac, index, size);
    out := out + BlockBytes(mac, index, []);
  }

  lemma BlockStreamEnd(mac: Mac, index: nat, size: nat)
    requires size >= 1
    ensures BlockStream(mac, index, [], size) == BlockBytes(mac, index, [])
  {
  }

  lemma BlockStreamStep(mac: Mac, index: nat, text: seq<byte>, size: nat, n: nat)
    requires size >= 1 && text != [] && n == if |text| <= size then |text| else size
    ensures BlockStream(mac, index, text, size)
         == BlockBytes(mac, index, text[..n]) + BlockStream(mac, index + 1, text[n..], size)
  {
    assert text[..|text|] == text && text[|text|..] == [];
  }

  /** Reading asks of the tag function nothing but its values. */
  lemma {:induction false} BlocksDependOnTags(mac: Mac, other: Mac, b: seq<byte>, p: nat, index: nat, got: seq<byte>)
    requires forall i, d :: mac(i, d) == other(i, d)
    ensures ReadBlocks(mac, b, p, index, got) == ReadBlocks(other, b, p, index, got)
    decreases |b| - p
  {
    hide FromLe;
    if TakeAt(b, p, 32).Success? && UintAt(b, p + 32, 4).Success?
       && TakeAt(b, p + 36, UintAt(b, p + 32, 4).value).Success? {
      var len := UintAt(b, p + 32, 4).value;
      if len != 0 {
        BlocksDependOnTags(mac, other, b, p + 36 + len, index + 1, got + TakeAt(b, p + 36, len).value);
      }
    }
  }

  ghost predicate TagsFit(mac: Mac) {
    forall i, d :: |mac(i, d)| == 32
  }

  /** Where the parts of a block are read. */
  lemma BlockParts(mac: Mac, b: seq<byte>, p: nat, index: nat, data: seq<byte>)
    requires TagsFit(mac) && |data| < U32_SIZE && At(b, p, BlockBytes(mac, index, data))
    ensures TakeAt(b, p, 32) == Success(mac(index, data))
    ensures UintAt(b, p + 32, 4) == Success(|data|) && TakeAt(b, p + 36, |data|) == Success(data)
  {
    hide At, TakeAt, UintAt, Le;
    Widths();
    AtConcat(b, p, mac(index, data) + Le(|data|, 4), data);
    AtConcat(b, p, mac(index, data), Le(|data|, 4));
    TakeWhatIsThere(b, p, mac(index, data));
    UintWhatIsThere(b, p + 32, |data|, 4);
    TakeWhatIsThere(b, p + 36, data);
  }

  lemma BlockRoundTrip(mac: Mac, b: seq<byte>, p: nat, index: nat, data: seq<byte>, got: seq<byte>)
    requires TagsFit(mac) && |data| < U32_SIZE
    requires At(b, p, BlockBytes(mac, index, data))
    ensures ReadBlocks(mac, b, p, index, got)
         == if data == [] then Success((got, p + 36)) else ReadBlocks(mac, b, p + 36 + |data|, index + 1, got + data)
  {
    hide At, TakeAt, UintAt, BlockBytes;
    BlockParts(mac, b, p, index, data);
  }

  /** Whatever was cut into blocks comes back whole, from any position and index: the reader stops at
      the one empty block and nowhere else. */
  lemma {:induction false} BlocksRoundTrip(mac: Mac, b: seq<byte>, p: nat, index: nat, text: seq<byte>, size: nat,
                                           got: seq<byte>)
    requires TagsFit(mac) && size >= 1 && (size < U32_SIZE || |text| < U32_SIZE)
    requires At(b, p, BlockStream(mac, index, text, size))
    ensures ReadBlocks(mac, b, p, index, got) == Success((got + text, p + |BlockStream(mac, index, text, size)|))
    decreases |text|
  {
    hide ReadBlocks, BlockBytes, At;
    if text == [] {
      BlockRoundTrip(mac, b, p, index, [], got);
      assert got + [] == got;
      BlockLength(mac, index, []);
    } else {
      var n := if |text| <= size then |text| else size;
      BlockStreamStep(mac, index, text, size, n);
      var block, rest := BlockBytes(mac, index, text[..n]), BlockStream(mac, index + 1, text[n..], size);
      BlockLength(mac, index, text[..n]);
      AtConcat(b, p, block, rest);
      BlockRoundTrip(mac, b, p, index, text[..n], got);
      BlocksRoundTrip(mac, b, p + |block|, index + 1, text[n..], size, got + text[..n]);
      assert got + text[..n] + text[n..] == got + text;
    }
  }

  lemma BlockLength(mac: Mac, index: nat, data: seq<byte>)
    requires TagsFit(mac)
    ensures |BlockBytes(mac, index, data)| == 36 + |data|
  {
  }
}
