/** What the two headers and the KDF dictionary of any file say, told by the fields that stand in them. */
module KdbxHeaders {
  import opened Wrappers
  import opened Bytes
  import opened KdbxTypes
  import opened KdbxFrame
  import opened KdbxFile

  // ----- the last of each -----

  /** The data of the last field of that id. */
  function LastOf<K(==)>(fs: seq<(K, seq<byte>)>, id: K): Option<seq<byte>> {
    if fs == [] then None
    else if fs[|fs| - 1].0 == id then Some(fs[|fs| - 1].1)
    else LastOf(fs[..|fs| - 1], id)
  }

  function Or(a: Option<seq<byte>>, b: seq<byte>): seq<byte> {
    match a case Some(x) => x case None => b
  }

  function NumberOr(a: Option<seq<byte>>, b: nat): nat {
    match a case Some(x) => FromLe(x) case None => b
  }

  lemma {:induction false} LastOfRest<K>(fs: seq<(K, seq<byte>)>, id: K)
    requires fs != []
    ensures LastOf(fs, id) == if LastOf(fs[1..], id).Some? then LastOf(fs[1..], id)
                              else if fs[0].0 == id then Some(fs[0].1) else None
  {
    if |fs| == 1 {
      assert fs[..0] == [];
    } else {
      assert fs[..|fs| - 1][1..] == fs[1..][..|fs| - 2];
      LastOfRest(fs[..|fs| - 1], id);
    }
  }

  // ----- fields -----

  type FieldList = seq<(byte, seq<byte>)>

  function FieldsBytes(fs: FieldList): seq<byte> {
    if fs == [] then [] else FieldBytes(fs[0].0, fs[0].1) + FieldsBytes(fs[1..])
  }

  predicate Fits(f: (byte, seq<byte>)) {
    f.0 != 0 && |f.1| < U32_SIZE
  }

  /** From `p` to `end` stand these fields and then one of id 0. */
  ghost predicate FieldsStand(b: seq<byte>, p: nat, fs: FieldList, end: nat) {
    && (forall f | f in fs :: Fits(f))
    && exists last: seq<byte> ::
         && |last| < U32_SIZE && At(b, p, FieldsBytes(fs) + FieldBytes(0, last))
         && end == p + |FieldsBytes(fs)| + |FieldBytes(0, last)|
  }

  lemma FieldIsThere(b: seq<byte>, p: nat)
    requires FieldAt(b, p).Success?
    ensures var f := FieldAt(b, p).value;
            && |f.data| < U32_SIZE && At(b, p, FieldBytes(f.id, f.data)) && f.next == p + |FieldBytes(f.id, f.data)|
  {
    hide FromLe, FieldBytes, At;
    FieldStands(b, p, FieldAt(b, p).value.next);
  }

  lemma FieldStands(b: seq<byte>, p: nat, end: nat)
    requires p + 5 <= end <= |b| && FromLe(b[p + 1..p + 5]) == end - p - 5
    ensures end - p - 5 < U32_SIZE && At(b, p, FieldBytes(b[p], b[p + 5..end]))
    ensures end == p + |FieldBytes(b[p], b[p + 5..end])|
  {
    hide FromLe, Le;
    Widths();
    FromLeRoundTrip(b[p + 1..p + 5]);
    assert b[p..end] == [b[p]] + b[p + 1..p + 5] + b[p + 5..end];
  }

  lemma AtBoth(b: seq<byte>, p: nat, x: seq<byte>, y: seq<byte>)
    ensures At(b, p, x + y) <==> At(b, p, x) && At(b, p + |x|, y)
  {
    if At(b, p, x + y) {
      AtConcat(b, p, x, y);
    }
    if At(b, p, x) && At(b, p + |x|, y) {
      assert b[p..p + |x| + |y|] == b[p..p + |x|] + b[p + |x|..p + |x| + |y|];
    }
  }

  lemma FieldsBytesFirst(f: (byte, seq<byte>), fs: FieldList)
    ensures FieldsBytes([f] + fs) == FieldBytes(f.0, f.1) + FieldsBytes(fs) && FieldsBytes([]) == []
  {
    assert ([f] + fs)[1..] == fs;
  }

  lemma FirstFieldStands(b: seq<byte>, p: nat, f: (byte, seq<byte>), fs: FieldList, end: nat)
    ensures FieldsStand(b, p, [f] + fs, end)
            <==> (Fits(f) && At(b, p, FieldBytes(f.0, f.1)) && FieldsStand(b, p + |FieldBytes(f.0, f.1)|, fs, end))
  {
    hide FieldBytes, FieldsBytes, At, Fits;
    FieldsBytesFirst(f, fs);
    var x := FieldBytes(f.0, f.1);
    assert f in [f] + fs && (forall g | g in fs :: g in [f] + fs);
    forall last: seq<byte>
      ensures At(b, p, FieldsBytes([f] + fs) + FieldBytes(0, last))
              <==> At(b, p, x) && At(b, p + |x|, FieldsBytes(fs) + FieldBytes(0, last))
    {
      assert FieldsBytes([f] + fs) + FieldBytes(0, last) == x + (FieldsBytes(fs) + FieldBytes(0, last));
      AtBoth(b, p, x, FieldsBytes(fs) + FieldBytes(0, last));
    }
  }

  lemma LastFieldStands(b: seq<byte>, p: nat, end: nat)
    requires FieldsStand(b, p, [], end)
    ensures FieldAt(b, p).Success? && FieldAt(b, p).value.id == 0 && FieldAt(b, p).value.next == end
  {
    var last: seq<byte> :| |last| < U32_SIZE && At(b, p, FieldsBytes([]) + FieldBytes(0, last))
                           && end == p + |FieldsBytes([])| + |FieldBytes(0, last)|;
    assert FieldsBytes([]) + FieldBytes(0, last) == FieldBytes(0, last);
    FieldRoundTrip(b, p, 0, last);
  }

  lemma NoFieldStands(b: seq<byte>, p: nat)
    requires FieldAt(b, p).Success? && FieldAt(b, p).value.id == 0
    ensures FieldsStand(b, p, [], FieldAt(b, p).value.next)
  {
    hide FieldBytes, FieldAt, At;
    FieldIsThere(b, p);
    var last := FieldAt(b, p).value.data;
    assert FieldsBytes([]) + FieldBytes(0, last) == FieldBytes(0, last);
  }

  // ----- the outer header -----

  /** Cipher, seed and nonce are the last fields of ids 2, 4 and 7, compression is the number in the last of id 3
      and the KDF what the last of id 11 says; fields of id 3 have four bytes and of id 11 can be read. */
  ghost predicate HeaderTold(before: Header, fs: FieldList, h: Header) {
    && h.cipher == Or(LastOf(fs, 2), before.cipher)
    && h.masterSeed == Or(LastOf(fs, 4), before.masterSeed)
    && h.encIv == Or(LastOf(fs, 7), before.encIv)
    && h.compression == NumberOr(LastOf(fs, 3), before.compression)
    && (match LastOf(fs, 11) case Some(d) => DictSays(d, h.kdf) case None => h.kdf == before.kdf)
    && AllTakeable(fs)
  }

  ghost predicate Takeable(f: (byte, seq<byte>)) {
    (f.0 == 3 ==> |f.1| == 4) && (f.0 == 11 ==> exists k :: DictSays(f.1, k))
  }

  ghost predicate AllTakeable(fs: FieldList) {
    forall f | f in fs :: Takeable(f)
  }

  lemma AllTakeableFirst(f: (byte, seq<byte>), fs: FieldList)
    ensures AllTakeable([f] + fs) <==> Takeable(f) && AllTakeable(fs)
  {
    hide Takeable;
    assert f in [f] + fs && forall g | g in fs :: g in [f] + fs;
  }

  lemma FieldIsSet(before: Header, f: RawField)
    ensures SetHeader(before, f).Success? <==> Takeable((f.id, f.data))
    ensures SetHeader(before, f).Success? ==>
              var h := SetHeader(before, f).value;
              && h.cipher == (if f.id == 2 then f.data else before.cipher)
              && h.masterSeed == (if f.id == 4 then f.data else before.masterSeed)
              && h.encIv == (if f.id == 7 then f.data else before.encIv)
              && h.compression == (if f.id == 3 then FromLe(f.data) else before.compression)
              && (if f.id == 11 then forall k :: DictSays(f.data, k) <==> k == h.kdf else h.kdf == before.kdf)
  {
    hide DictSays, FromLe, ReadDict;
    forall k
      ensures DictSays(f.data, k) <==> ReadDict(f.data) == Success(k)
    {
      DictMeans(f.data, k);
    }
    if ReadDict(f.data).Success? {
      assert DictSays(f.data, ReadDict(f.data).value);
    }
  }

  lemma HeaderToldFirst(before: Header, f: RawField, fs: FieldList, h: Header)
    ensures HeaderTold(before, [(f.id, f.data)] + fs, h)
            <==> (SetHeader(before, f).Success? && HeaderTold(SetHeader(before, f).value, fs, h))
  {
    hide DictSays, LastOf, FromLe, AllTakeable, Takeable, SetHeader;
    FieldIsSet(before, f);
    AllTakeableFirst((f.id, f.data), fs);
    var all := [(f.id, f.data)] + fs;
    assert all[1..] == fs;
    LastOfRest(all, 2);
    LastOfRest(all, 3);
    LastOfRest(all, 4);
    LastOfRest(all, 7);
    LastOfRest(all, 11);
  }

  /** The fields that cannot be taken, and what reading fails with then. */
  lemma FieldRefuses(before: Header, f: RawField, inner: Inner)
    ensures f.id == 3 && |f.data| != 4 ==> SetHeader(before, f) == Failure(Corrupt("compression"))
    ensures f.id == 11 && ReadDict(f.data).Failure? ==> SetHeader(before, f) == Failure(ReadDict(f.data).error)
    ensures f.id == 1 && |f.data| != 4 ==> SetInner(inner, f) == Failure(Corrupt("stream id"))
  {
    hide ReadDict;
  }

  lemma HeaderToldNothing(before: Header, h: Header)
    ensures HeaderTold(before, [], h) <==> h == before
  {
  }

  /** Reading the outer header gives `h` and ends at `end` if and only if such fields stand there and tell it. */
  lemma {:induction false} HeaderReads(b: seq<byte>, p: nat, before: Header, h: Header, end: nat)
    ensures ReadHeader(b, p, before) == Success((h, end))
            <==> exists fs :: FieldsStand(b, p, fs, end) && HeaderTold(before, fs, h)
    decreases |b| - p
  {
    hide HeaderTold, SetHeader, FieldAt, FieldsStand, At, FieldBytes;
    if ReadHeader(b, p, before) == Success((h, end)) {
      var f := FieldAt(b, p).value;
      if f.id == 0 {
        NoFieldStands(b, p);
        HeaderToldNothing(before, h);
        assert FieldsStand(b, p, [], end) && HeaderTold(before, [], h);
      } else {
        var next := SetHeader(before, f).value;
        HeaderReads(b, f.next, next, h, end);
        var fs :| FieldsStand(b, f.next, fs, end) && HeaderTold(next, fs, h);
        FieldIsThere(b, p);
        assert Fits((f.id, f.data));
        FirstFieldStands(b, p, (f.id, f.data), fs, end);
        HeaderToldFirst(before, f, fs, h);
      }
    }
    if fs :| FieldsStand(b, p, fs, end) && HeaderTold(before, fs, h) {
      if fs == [] {
        LastFieldStands(b, p, end);
        HeaderToldNothing(before, h);
      } else {
        var g, rest := fs[0], fs[1..];
        assert fs == [g] + rest;
        FirstFieldStands(b, p, g, rest, end);
        FieldRoundTrip(b, p, g.0, g.1);
        var f := RawField(g.0, g.1, p + 5 + |g.1|);
        FieldLength(g.0, g.1);
        HeaderToldFirst(before, f, rest, h);
        HeaderReads(b, f.next, SetHeader(before, f).value, h, end);
      }
    }
  }

  lemma FieldLength(id: byte, data: seq<byte>)
    ensures |FieldBytes(id, data)| == 5 + |data|
  {
  }

  const UNTOLD := Header([], 0, [], [], Kdf([], 0, 0, 0, [], 0))

  /** What is not told is empty or zero. */
  lemma HeaderMeans(b: seq<byte>, h: Header, end: nat)
    ensures ReadHeader(b, 12, NO_HEADER) == Success((h, end))
            <==> exists fs :: FieldsStand(b, 12, fs, end) && HeaderTold(UNTOLD, fs, h)
  {
    HeaderReads(b, 12, NO_HEADER, h, end);
  }

  // ----- the inner header -----

  /** The stream is the number in the last field of id 1, its key the last of id 2. */
  ghost predicate InnerTold(before: Inner, fs: FieldList, h: Inner) {
    && h.streamId == NumberOr(LastOf(fs, 1), before.streamId)
    && h.streamKey == Or(LastOf(fs, 2), before.streamKey)
    && forall f | f in fs && f.0 == 1 :: |f.1| == 4
  }

  lemma InnerToldFirst(before: Inner, f: RawField, fs: FieldList, h: Inner)
    ensures InnerTold(before, [(f.id, f.data)] + fs, h)
            <==> (SetInner(before, f).Success? && InnerTold(SetInner(before, f).value, fs, h))
  {
    hide LastOf, FromLe;
    var all := [(f.id, f.data)] + fs;
    assert all[1..] == fs;
    LastOfRest(all, 1);
    LastOfRest(all, 2);
    assert (f.id, f.data) in all && forall g | g in fs :: g in all;
  }

  lemma InnerToldNothing(before: Inner, h: Inner)
    ensures InnerTold(before, [], h) <==> h == before
  {
  }

  lemma {:induction false} InnerMeans(b: seq<byte>, p: nat, before: Inner, h: Inner, end: nat)
    ensures ReadInner(b, p, before) == Success((h, end))
            <==> exists fs :: FieldsStand(b, p, fs, end) && InnerTold(before, fs, h)
    decreases |b| - p
  {
    hide InnerTold, SetInner, FieldAt, FieldsStand, At, FieldBytes;
    if ReadInner(b, p, before) == Success((h, end)) {
      var f := FieldAt(b, p).value;
      if f.id == 0 {
        NoFieldStands(b, p);
        InnerToldNothing(before, h);
        assert FieldsStand(b, p, [], end) && InnerTold(before, [], h);
      } else {
        var next := SetInner(before, f).value;
        InnerMeans(b, f.next, next, h, end);
        var fs :| FieldsStand(b, f.next, fs, end) && InnerTold(next, fs, h);
        FieldIsThere(b, p);
        assert Fits((f.id, f.data));
        FirstFieldStands(b, p, (f.id, f.data), fs, end);
        InnerToldFirst(before, f, fs, h);
      }
    }
    if fs :| FieldsStand(b, p, fs, end) && InnerTold(before, fs, h) {
      if fs == [] {
        LastFieldStands(b, p, end);
        InnerToldNothing(before, h);
      } else {
        var g, rest := fs[0], fs[1..];
        assert fs == [g] + rest;
        FirstFieldStands(b, p, g, rest, end);
        FieldRoundTrip(b, p, g.0, g.1);
        var f := RawField(g.0, g.1, p + 5 + |g.1|);
        FieldLength(g.0, g.1);
        InnerToldFirst(before, f, rest, h);
        InnerMeans(b, f.next, SetInner(before, f).value, h, end);
      }
    }
  }

  // ----- the KDF dictionary -----

  /** An item: its key and value, behind any type but 0. */
  type ItemList = seq<(seq<byte>, seq<byte>)>

  const UUID: seq<byte> := ['$' as int, 'U' as int, 'U' as int, 'I' as int, 'D' as int]
  const ITERATIONS: seq<byte> := ['I' as int]
  const MEMORY: seq<byte> := ['M' as int]
  const PARALLELISM: seq<byte> := ['P' as int]
  const SALT: seq<byte> := ['S' as int]
  const VERSION: seq<byte> := ['V' as int]

  /** From `p` on stand these items and then a 0. */
  ghost predicate ItemsStand(d: seq<byte>, p: nat, items: ItemList)
    decreases |items|
  {
    if items == [] then At(d, p, [0])
    else
      var (key, val) := items[0];
      && |key| < U32_SIZE && |val| < U32_SIZE
      && (exists ty: byte :: ty != 0 && At(d, p, VariantBytes(ty, key, val)))
      && ItemsStand(d, p + 9 + |key| + |val|, items[1..])
  }

  predicate ItemSized(item: (seq<byte>, seq<byte>)) {
    && (item.0 == ITERATIONS || item.0 == MEMORY ==> |item.1| == 8)
    && (item.0 == PARALLELISM || item.0 == VERSION ==> |item.1| == 4)
  }

  /** Every parameter is what the last item of its key says; numbers have their width. */
  ghost predicate KdfTold(before: Kdf, items: ItemList, k: Kdf) {
    && k.uuid == Or(LastOf(items, UUID), before.uuid)
    && k.iterations == NumberOr(LastOf(items, ITERATIONS), before.iterations)
    && k.memBytes == NumberOr(LastOf(items, MEMORY), before.memBytes)
    && k.parallelism == NumberOr(LastOf(items, PARALLELISM), before.parallelism)
    && k.salt == Or(LastOf(items, SALT), before.salt)
    && k.version == NumberOr(LastOf(items, VERSION), before.version)
    && AllSized(items)
  }

  /** A dictionary says `k`: behind two bytes stand items that tell it. */
  ghost predicate DictSays(d: seq<byte>, k: Kdf) {
    exists items :: ItemsStand(d, 2, items) && KdfTold(Kdf([], 0, 0, 0, [], 0), items, k)
  }

  predicate AllSized(items: ItemList) {
    forall item | item in items :: ItemSized(item)
  }

  lemma ParamIsSet(before: Kdf, key: seq<byte>, val: seq<byte>)
    ensures SetParam(before, key, val).Success? <==> ItemSized((key, val))
    ensures SetParam(before, key, val).Failure? ==>
              SetParam(before, key, val).error == Corrupt("bad KDF param size")
    ensures SetParam(before, key, val).Success? ==>
              var k := SetParam(before, key, val).value;
              && k.uuid == (if key == UUID then val else before.uuid)
              && k.iterations == (if key == ITERATIONS then FromLe(val) else before.iterations)
              && k.memBytes == (if key == MEMORY then FromLe(val) else before.memBytes)
              && k.parallelism == (if key == PARALLELISM then FromLe(val) else before.parallelism)
              && k.salt == (if key == SALT then val else before.salt)
              && k.version == (if key == VERSION then FromLe(val) else before.version)
  {
    hide FromLe, UUID, ITERATIONS, MEMORY, PARALLELISM, SALT, VERSION;
    hide KEY_UUID, KEY_ITERATIONS, KEY_MEMORY, KEY_PARALLELISM, KEY_SALT, KEY_VERSION;
    KeysDiffer();
  }

  lemma AllSizedFirst(item: (seq<byte>, seq<byte>), items: ItemList)
    ensures AllSized([item] + items) <==> ItemSized(item) && AllSized(items)
  {
    hide ItemSized;
    assert item in [item] + items && forall g | g in items :: g in [item] + items;
  }

  lemma KdfToldFirst(before: Kdf, key: seq<byte>, val: seq<byte>, items: ItemList, k: Kdf)
    ensures KdfTold(before, [(key, val)] + items, k)
            <==> (SetParam(before, key, val).Success? && KdfTold(SetParam(before, key, val).value, items, k))
  {
    hide LastOf, FromLe, UUID, ITERATIONS, MEMORY, PARALLELISM, SALT, VERSION, SetParam, AllSized, ItemSized;
    ParamIsSet(before, key, val);
    AllSizedFirst((key, val), items);
    var all := [(key, val)] + items;
    assert all[1..] == items;
    LastOfRest(all, UUID);
    LastOfRest(all, ITERATIONS);
    LastOfRest(all, MEMORY);
    LastOfRest(all, PARALLELISM);
    LastOfRest(all, SALT);
    LastOfRest(all, VERSION);
  }

  lemma KeysDiffer()
    ensures KEY_UUID == UUID && KEY_ITERATIONS == ITERATIONS && KEY_MEMORY == MEMORY
    ensures KEY_PARALLELISM == PARALLELISM && KEY_SALT == SALT && KEY_VERSION == VERSION
    ensures UUID !in [ITERATIONS, MEMORY, PARALLELISM, SALT, VERSION]
    ensures ITERATIONS !in [MEMORY, PARALLELISM, SALT, VERSION] && MEMORY !in [PARALLELISM, SALT, VERSION]
    ensures PARALLELISM !in [SALT, VERSION] && SALT != VERSION
  {
    assert |UUID| != 1;
    assert ITERATIONS[0] == 73 && MEMORY[0] == 77 && PARALLELISM[0] == 80 && SALT[0] == 83 && VERSION[0] == 86;
  }

  lemma KdfToldNothing(before: Kdf, k: Kdf)
    ensures KdfTold(before, [], k) <==> k == before
  {
  }

  /** The key and value of an item that is read stand there. */
  lemma ItemIsThere(d: seq<byte>, p: nat, kdf: Kdf) returns (key: seq<byte>, val: seq<byte>)
    requires U8At(d, p).Success? && U8At(d, p).value != 0 && ReadItem(d, p + 1, kdf).Success?
    ensures |key| < U32_SIZE && |val| < U32_SIZE
    ensures exists ty: byte :: ty != 0 && At(d, p, VariantBytes(ty, key, val))
    ensures SetParam(kdf, key, val).Success?
    ensures ReadItem(d, p + 1, kdf) == Success((SetParam(kdf, key, val).value, p + 9 + |key| + |val|))
  {
    hide SetParam, FromLe, VariantBytes;
    var q := p + 5 + FromLe(d[p + 1..p + 5]);
    key := d[p + 5..q];
    val := d[q + 4..q + 4 + FromLe(d[q..q + 4])];
    ItemStands(d, p, q, q + 4 + |val|);
  }

  lemma ItemStands(d: seq<byte>, p: nat, q: nat, end: nat)
    requires p + 5 <= q && q + 4 <= end <= |d|
    requires FromLe(d[p + 1..p + 5]) == q - p - 5 && FromLe(d[q..q + 4]) == end - q - 4
    ensures q - p - 5 < U32_SIZE && end - q - 4 < U32_SIZE
    ensures At(d, p, VariantBytes(d[p], d[p + 5..q], d[q + 4..end]))
  {
    hide FromLe, Le;
    Widths();
    FromLeRoundTrip(d[p + 1..p + 5]);
    FromLeRoundTrip(d[q..q + 4]);
    assert d[p..end] == [d[p]] + d[p + 1..p + 5] + d[p + 5..q] + d[q..q + 4] + d[q + 4..end];
  }

  lemma {:induction false} ItemsRead(d: seq<byte>, p: nat, before: Kdf, k: Kdf)
    ensures ReadItems(d, p, before) == Success(k)
            ==> exists items :: ItemsStand(d, p, items) && KdfTold(before, items, k)
    decreases |d| - p
  {
    hide KdfTold, SetParam, ReadItem, VariantBytes;
    if ReadItems(d, p, before) == Success(k) {
      if U8At(d, p).value == 0 {
        KdfToldNothing(before, k);
        assert ItemsStand(d, p, []) && KdfTold(before, [], k);
      } else {
        var key, val := ItemIsThere(d, p, before);
        var next := SetParam(before, key, val).value;
        ItemsRead(d, p + 9 + |key| + |val|, next, k);
        var items :| ItemsStand(d, p + 9 + |key| + |val|, items) && KdfTold(next, items, k);
        assert ([(key, val)] + items)[1..] == items;
        assert ItemsStand(d, p, [(key, val)] + items);
        KdfToldFirst(before, key, val, items, k);
      }
    }
  }

  lemma {:induction false} ItemsTell(d: seq<byte>, p: nat, before: Kdf, items: ItemList, k: Kdf)
    requires ItemsStand(d, p, items) && KdfTold(before, items, k)
    ensures ReadItems(d, p, before) == Success(k)
    decreases |items|
  {
    hide KdfTold, SetParam, VariantBytes, At, ReadItems;
    if items == [] {
      KdfToldNothing(before, k);
      ItemsEnd(d, p, k);
    } else {
      var (key, val) := items[0];
      assert items == [(key, val)] + items[1..];
      KdfToldFirst(before, key, val, items[1..], k);
      var ty: byte :| ty != 0 && At(d, p, VariantBytes(ty, key, val));
      ItemRoundTrip(d, p, ty, key, val, before);
      VariantLength(ty, key, val);
      ItemsTell(d, p + 9 + |key| + |val|, SetParam(before, key, val).value, items[1..], k);
    }
  }

  lemma VariantLength(ty: byte, key: seq<byte>, val: seq<byte>)
    ensures |VariantBytes(ty, key, val)| == 9 + |key| + |val|
  {
  }

  /** A dictionary is read as `k` if and only if it says so. */
  lemma DictMeans(d: seq<byte>, k: Kdf)
    ensures DictSays(d, k) <==> ReadDict(d) == Success(k)
  {
    hide ReadItems, ItemsStand, KdfTold;
    ItemsRead(d, 2, NO_KDF, k);
    if items :| ItemsStand(d, 2, items) && KdfTold(Kdf([], 0, 0, 0, [], 0), items, k) {
      ItemsTell(d, 2, NO_KDF, items, k);
      StandsBehindTwo(d, items);
    }
  }

  lemma StandsBehindTwo(d: seq<byte>, items: ItemList)
    requires ItemsStand(d, 2, items)
    ensures |d| >= 2
  {
  }
}
