/** The VLT1 v2 vault container: a two-pass encoder (measure, then fill) and a bounds-checked decoder. */
module VaultFormat {
  import opened Wrappers
  import opened Bytes

  const MAGIC: seq<byte> := [0x56, 0x4c, 0x54, 0x31]
  const VERSION: byte := 0x02
  const MAX_SLOTS: nat := 16

  const LEN_IV: nat := 12
  const LEN_SALT: nat := 16
  const LEN_VERIFIER: nat := 32
  const LEN_SLOT_ID: nat := 16
  const LEN_WRAP_IV: nat := 12
  const LEN_WRAPPED_VEK: nat := 48
  const LEN_HMAC_SECRET_SALT: nat := 32

  const KIND_PASSWORD: byte := 0x01
  const KIND_WEBAUTHN: byte := 0x02
  const KIND_RECOVERY: byte := 0x03

  const HEADER_FIXED_LEN: nat := 6
  const TLV_PREFIX_LEN: nat := 3
  const PASSWORD_PAYLOAD_LEN: nat := 124
  const WEBAUTHN_FIXED_LEN: nat := 142

  datatype Fields = Fields(slotId: seq<byte>, salt: seq<byte>, verifier: seq<byte>, wrapIv: seq<byte>,
                           wrappedVek: seq<byte>)

  /** An opaque kind is any number the caller puts there, as long as it is not a known one. */
  datatype Slot =
    | Password(fields: Fields)
    | Recovery(fields: Fields)
    | Webauthn(fields: Fields, credentialId: seq<byte>)
    | Opaque(kind: real, payload: seq<byte>)

  datatype Vault = Vault(slots: seq<Slot>, entriesIv: seq<byte>, entriesCiphertext: seq<byte>)

  datatype VaultError =
    | Invalid
    | SlotPayloadTooLarge(length: nat)
    | TooShort(length: nat)
    | BadMagic
    | UnsupportedVersion(version: byte)
    | NoSlots
    | TooManySlots(count: byte)
    | HeaderOverruns(slot: nat)
    | PayloadOverruns(slot: nat)
    | WebauthnTooShort(length: nat)
    | WebauthnLengthMismatch(credIdLen: nat)
    | IvOverruns

  type Res<T> = Result<T, VaultError>

  // ----- what the schemas accept -----

  predicate ValidFields(f: Fields, saltLen: nat) {
    && |f.slotId| == LEN_SLOT_ID && |f.salt| == saltLen && |f.verifier| == LEN_VERIFIER
    && |f.wrapIv| == LEN_WRAP_IV && |f.wrappedVek| == LEN_WRAPPED_VEK
  }

  predicate ValidSlot(s: Slot) {
    match s
    case Password(f) => ValidFields(f, LEN_SALT)
    case Recovery(f) => ValidFields(f, LEN_SALT)
    case Webauthn(f, id) => ValidFields(f, LEN_HMAC_SECRET_SALT) && 1 <= |id| <= 0xffff
    case Opaque(kind, _) => kind != 1.0 && kind != 2.0 && kind != 3.0
  }

  predicate ValidVault(v: Vault) {
    && 1 <= |v.slots| <= MAX_SLOTS
    && (forall s | s in v.slots :: ValidSlot(s))
    && |v.entriesIv| == LEN_IV
  }

  // ----- the layout -----

  function Be16(n: nat): (b: seq<byte>)
    ensures |b| == 2
  {
    [n / 0x100 % 0x100, n % 0x100]
  }

  function FromBe16(hi: byte, lo: byte): (n: nat)
    ensures n <= 0xffff && Be16(n) == [hi, lo]
  {
    hi as int * 0x100 + lo as int
  }

  lemma Be16RoundTrip(n: nat)
    requires n <= 0xffff
    ensures FromBe16(Be16(n)[0], Be16(n)[1]) == n
  {
    var hi, lo := n / 0x100, n % 0x100;
    assert n == hi * 0x100 + lo && hi % 0x100 == hi;
  }

  /** Storing a number into a byte array keeps its integer part modulo 256. */
  function ToUint8(k: real): byte {
    (if k >= 0.0 then k.Floor else -((-k).Floor)) % 0x100
  }

  function KindByte(s: Slot): byte {
    match s
    case Password(_) => KIND_PASSWORD
    case Recovery(_) => KIND_RECOVERY
    case Webauthn(_, _) => KIND_WEBAUTHN
    case Opaque(kind, _) => ToUint8(kind)
  }

  /** The kind survives being stored in one byte. */
  predicate FitsByte(s: Slot) {
    s.Opaque? ==> s.kind == ToUint8(s.kind) as real
  }

  predicate ByteKinds(v: Vault) {
    forall s | s in v.slots :: FitsByte(s)
  }

  function Payload(s: Slot): seq<byte> {
    match s
    case Password(f) => f.slotId + f.salt + f.verifier + f.wrapIv + f.wrappedVek
    case Recovery(f) => f.slotId + f.salt + f.verifier + f.wrapIv + f.wrappedVek
    case Webauthn(f, id) => f.slotId + Be16(|id|) + id + f.salt + f.verifier + f.wrapIv + f.wrappedVek
    case Opaque(_, payload) => payload
  }

  function Tlv(s: Slot): seq<byte> {
    [KindByte(s)] + Be16(|Payload(s)|) + Payload(s)
  }

  function Tlvs(slots: seq<Slot>): seq<byte> {
    if slots == [] then [] else Tlv(slots[0]) + Tlvs(slots[1..])
  }

  function Header(count: nat): seq<byte> {
    MAGIC + [VERSION, count % 0x100]
  }

  function Layout(v: Vault): seq<byte> {
    Header(|v.slots|) + Tlvs(v.slots) + v.entriesIv + v.entriesCiphertext
  }

  /** The first slot whose payload does not fit a 16-bit length, if any. */
  function TooLarge(slots: seq<Slot>): Option<nat> {
    if slots == [] then None
    else if |Payload(slots[0])| > 0xffff then Some(|Payload(slots[0])|)
    else TooLarge(slots[1..])
  }

  function Encode(v: Vault): Res<seq<byte>> {
    if !ValidVault(v) then Failure(Invalid)
    else match TooLarge(v.slots)
      case Some(n) => Failure(SlotPayloadTooLarge(n))
      case None => Success(Layout(v))
  }

  // ----- the parser -----

  /** `slice(from, to)` of a byte array: both ends are clamped. */
  function Slice(b: seq<byte>, from: nat, to: nat): seq<byte>
    requires from <= to
  {
    if from >= |b| then [] else if to >= |b| then b[from..] else b[from..to]
  }

  function FieldsAt(slotId: seq<byte>, p: seq<byte>, off: nat, saltLen: nat): Fields {
    var verifier := off + saltLen;
    var wrapIv := verifier + LEN_VERIFIER;
    var wrappedVek := wrapIv + LEN_WRAP_IV;
    Fields(slotId, Slice(p, off, verifier), Slice(p, verifier, wrapIv), Slice(p, wrapIv, wrappedVek),
           Slice(p, wrappedVek, wrappedVek + LEN_WRAPPED_VEK))
  }

  function PasswordFields(p: seq<byte>): Fields {
    FieldsAt(Slice(p, 0, LEN_SLOT_ID), p, LEN_SLOT_ID, LEN_SALT)
  }

  function Checked(s: Slot): Res<Slot> {
    if ValidSlot(s) then Success(s) else Failure(Invalid)
  }

  function ReadWebauthn(p: seq<byte>): Res<Slot> {
    if |p| < WEBAUTHN_FIXED_LEN + 1 then Failure(WebauthnTooShort(|p|))
    else
      var credIdLen := FromBe16(p[16], p[17]);
      if WEBAUTHN_FIXED_LEN + credIdLen != |p| then Failure(WebauthnLengthMismatch(credIdLen))
      else Checked(Webauthn(FieldsAt(p[..16], p, 18 + credIdLen, LEN_HMAC_SECRET_SALT), p[18..18 + credIdLen]))
  }

  function ReadSlot(kind: byte, p: seq<byte>): Res<Slot> {
    if kind == KIND_PASSWORD then Checked(Password(PasswordFields(p)))
    else if kind == KIND_WEBAUTHN then ReadWebauthn(p)
    else if kind == KIND_RECOVERY then Checked(Recovery(PasswordFields(p)))
    else Success(Opaque(kind as real, p))
  }

  /** Slots `i` to `n` from the front of `b`, after those in `got`; what follows them is returned too. */
  function ReadSlots(b: seq<byte>, i: nat, n: nat, got: seq<Slot>): (r: Res<(seq<Slot>, seq<byte>)>)
    decreases n - i
  {
    if i >= n then Success((got, b))
    else if TLV_PREFIX_LEN > |b| then Failure(HeaderOverruns(i))
    else
      var len := FromBe16(b[1], b[2]);
      if TLV_PREFIX_LEN + len > |b| then Failure(PayloadOverruns(i))
      else
        var slot :- ReadSlot(b[0], b[3..3 + len]);
        ReadSlots(b[3 + len..], i + 1, n, got + [slot])
  }

  function Decode(b: seq<byte>): Res<Vault> {
    if |b| < HEADER_FIXED_LEN then Failure(TooShort(|b|))
    else if b[..4] != MAGIC then Failure(BadMagic)
    else if b[4] != VERSION then Failure(UnsupportedVersion(b[4]))
    else if b[5] == 0 then Failure(NoSlots)
    else if b[5] as int > MAX_SLOTS then Failure(TooManySlots(b[5]))
    else
      var (slots, rest) :- ReadSlots(b[6..], 0, b[5], []);
      if LEN_IV > |rest| then Failure(IvOverruns)
      else Success(Vault(slots, rest[..12], rest[12..]))
  }

  // ----- one slot -----

  lemma Cut(front: seq<byte>, b: seq<byte>, back: seq<byte>, p: seq<byte>)
    requires p == front + b + back
    ensures Slice(p, |front|, |front| + |b|) == b
    ensures |p| >= |front| + |b| && p[|front|..|front| + |b|] == b
  {
  }

  lemma FieldsWhereTheyAre(f: Fields, front: seq<byte>, saltLen: nat)
    requires ValidFields(f, saltLen)
    ensures FieldsAt(f.slotId, front + f.salt + f.verifier + f.wrapIv + f.wrappedVek, |front|, saltLen) == f
  {
    var p := front + f.salt + f.verifier + f.wrapIv + f.wrappedVek;
    Cut(front, f.salt, f.verifier + f.wrapIv + f.wrappedVek, p);
    Cut(front + f.salt, f.verifier, f.wrapIv + f.wrappedVek, p);
    Cut(front + f.salt + f.verifier, f.wrapIv, f.wrappedVek, p);
    Cut(front + f.salt + f.verifier + f.wrapIv, f.wrappedVek, [], p);
  }

  /** Where the parts of a security-key payload stand. */
  lemma WebauthnParts(f: Fields, id: seq<byte>)
    requires ValidFields(f, LEN_HMAC_SECRET_SALT) && |id| <= 0xffff
    ensures var p := Payload(Webauthn(f, id));
            && |p| == WEBAUTHN_FIXED_LEN + |id| && p[..16] == f.slotId && FromBe16(p[16], p[17]) == |id|
               && p[18..18 + |id|] == id
  {
    var p := Payload(Webauthn(f, id));
    var tail := f.salt + f.verifier + f.wrapIv + f.wrappedVek;
    assert p == f.slotId + Be16(|id|) + id + tail;
    assert p[16] == Be16(|id|)[0] && p[17] == Be16(|id|)[1];
    Be16RoundTrip(|id|);
  }

  lemma WebauthnReadsBack(s: Slot)
    requires ValidSlot(s) && s.Webauthn?
    ensures ReadWebauthn(Payload(s)) == Success(s)
  {
    hide FieldsAt, Be16;
    var f, id := s.fields, s.credentialId;
    WebauthnParts(f, id);
    FieldsWhereTheyAre(f, f.slotId + Be16(|id|) + id, LEN_HMAC_SECRET_SALT);
  }

  lemma SlotReadsBack(s: Slot)
    requires ValidSlot(s) && FitsByte(s)
    ensures ReadSlot(KindByte(s), Payload(s)) == Success(s)
  {
    hide FieldsAt;
    match s
    case Webauthn(_, _) => WebauthnReadsBack(s);
    case Opaque(_, _) =>
    case Password(f) =>
      Cut([], f.slotId, f.salt + f.verifier + f.wrapIv + f.wrappedVek, Payload(s));
      FieldsWhereTheyAre(f, f.slotId, LEN_SALT);
    case Recovery(f) =>
      Cut([], f.slotId, f.salt + f.verifier + f.wrapIv + f.wrappedVek, Payload(s));
      FieldsWhereTheyAre(f, f.slotId, LEN_SALT);
  }

  /** The five fields of a decoded payload, put together again, are the part of it that was read. */
  lemma FieldsRejoin(p: seq<byte>, id: seq<byte>, off: nat, saltLen: nat)
    requires ValidFields(FieldsAt(id, p, off, saltLen), saltLen)
    ensures off + saltLen + 92 <= |p|
    ensures var f := FieldsAt(id, p, off, saltLen);
            f.salt + f.verifier + f.wrapIv + f.wrappedVek == p[off..off + saltLen + 92]
  {
  }

  lemma DecodedWebauthn(p: seq<byte>)
    requires ReadWebauthn(p).Success?
    ensures var s := ReadWebauthn(p).value;
            ValidSlot(s) && s.Webauthn? && Payload(s) == p
  {
    hide FieldsAt, Be16;
    var n := FromBe16(p[16], p[17]);
    var at := 18 + n;
    FieldsRejoin(p, p[..16], at, LEN_HMAC_SECRET_SALT);
    IdOf(p[..16], p, at, LEN_HMAC_SECRET_SALT);
    var f := FieldsAt(p[..16], p, at, LEN_HMAC_SECRET_SALT);
    WebauthnRejoins(f, p[18..at], f.salt + f.verifier + f.wrapIv + f.wrappedVek);
    CutAtId(p, at);
  }

  lemma CutAtId(p: seq<byte>, at: nat)
    requires 18 <= at <= |p|
    ensures p == p[..16] + [p[16], p[17]] + p[18..at] + p[at..]
  {
  }

  lemma WebauthnRejoins(f: Fields, id: seq<byte>, tail: seq<byte>)
    requires tail == f.salt + f.verifier + f.wrapIv + f.wrappedVek
    ensures Payload(Webauthn(f, id)) == f.slotId + Be16(|id|) + id + tail
  {
  }

  lemma DecodedPassword(p: seq<byte>)
    requires ValidFields(PasswordFields(p), LEN_SALT)
    ensures PASSWORD_PAYLOAD_LEN <= |p| && Payload(Password(PasswordFields(p))) == p[..PASSWORD_PAYLOAD_LEN]
  {
    hide FieldsAt;
    var f, id := PasswordFields(p), Slice(p, 0, LEN_SLOT_ID);
    FieldsRejoin(p, id, LEN_SLOT_ID, LEN_SALT);
    IdOf(id, p, LEN_SLOT_ID, LEN_SALT);
    var tail := f.salt + f.verifier + f.wrapIv + f.wrappedVek;
    assert Payload(Password(f)) == f.slotId + tail;
    assert p[..124] == p[..16] + p[16..124];
  }

  /** What a decoded slot encodes to: the payload it came from, except for what a password or recovery
      payload holds beyond its 124 bytes. */
  lemma DecodedSlot(kind: byte, p: seq<byte>)
    requires ReadSlot(kind, p).Success?
    ensures var s := ReadSlot(kind, p).value;
            && ValidSlot(s) && FitsByte(s) && KindByte(s) == kind && Payload(s) <= p
            && (Payload(s) == p <==> (kind == KIND_PASSWORD || kind == KIND_RECOVERY ==> |p| == PASSWORD_PAYLOAD_LEN))
  {
    hide PasswordFields, ReadWebauthn, ValidFields;
    if kind == KIND_WEBAUTHN {
      DecodedWebauthn(p);
    } else if kind == KIND_PASSWORD || kind == KIND_RECOVERY {
      DecodedPassword(p);
      assert Payload(Recovery(PasswordFields(p))) == Payload(Password(PasswordFields(p)));
    }
  }

  lemma IdOf(id: seq<byte>, p: seq<byte>, off: nat, saltLen: nat)
    ensures FieldsAt(id, p, off, saltLen).slotId == id
  {
  }

  // ----- all slots -----

  predicate Sendable(s: Slot) {
    ValidSlot(s) && FitsByte(s) && |Payload(s)| <= 0xffff
  }

  predicate AllSendable(slots: seq<Slot>) {
    forall s | s in slots :: Sendable(s)
  }

  lemma FrontReadsBack(s: Slot, after: seq<byte>, i: nat, n: nat, got: seq<Slot>)
    requires Sendable(s) && i < n
    ensures ReadSlots(Tlv(s) + after, i, n, got) == ReadSlots(after, i + 1, n, got + [s])
  {
    hide ReadSlot, Payload, ValidSlot, FitsByte, KindByte;
    var p := Payload(s);
    var b := Tlv(s) + after;
    assert b == [KindByte(s)] + Be16(|p|) + p + after;
    assert b[0] == KindByte(s) && b[1] == Be16(|p|)[0] && b[2] == Be16(|p|)[1];
    Be16RoundTrip(|p|);
    Cut([KindByte(s)] + Be16(|p|), p, after, b);
    assert b[3 + |p|..] == after;
    SlotReadsBack(s);
  }

  lemma {:induction false} SlotsReadBack(slots: seq<Slot>, rest: seq<byte>, i: nat, got: seq<Slot>)
    requires AllSendable(slots)
    ensures ReadSlots(Tlvs(slots) + rest, i, i + |slots|, got) == Success((got + slots, rest))
    decreases |slots|
  {
    hide ReadSlots, Sendable, Tlv;
    NoSlotsLeft(rest, i, i, got);
    if slots == [] {
      assert Tlvs(slots) + rest == rest && got + slots == got;
    } else {
      var s := slots[0];
      assert Sendable(s);
      assert Tlvs(slots) + rest == Tlv(s) + (Tlvs(slots[1..]) + rest);
      FrontReadsBack(s, Tlvs(slots[1..]) + rest, i, i + |slots|, got);
      SlotsReadBack(slots[1..], rest, i + 1, got + [s]);
      assert got + [s] + slots[1..] == got + slots;
    }
  }

  /** Every password and recovery payload among the first `n` slots is exactly 124 bytes long. */
  predicate Canonical(b: seq<byte>, n: nat) {
    if n == 0 || |b| < 3 || |b| < 3 + FromBe16(b[1], b[2]) then true
    else
      && (b[0] == KIND_PASSWORD || b[0] == KIND_RECOVERY ==> FromBe16(b[1], b[2]) == PASSWORD_PAYLOAD_LEN)
      && Canonical(b[3 + FromBe16(b[1], b[2])..], n - 1)
  }

  lemma Apart(b: seq<byte>, n: nat, mid: seq<byte>, rest: seq<byte>)
    requires n <= |b| && mid + rest == b[n..]
    ensures b[..n] + mid + rest == b
  {
    assert b[..n] + mid + rest == b[..n] + (mid + rest);
  }

  /** Writing back one slot read from the front of `b`. */
  lemma FrontWritesBack(b: seq<byte>, s: Slot, more: seq<Slot>, rest: seq<byte>)
    requires 3 <= |b| && 3 + FromBe16(b[1], b[2]) <= |b|
    requires var p := b[3..3 + FromBe16(b[1], b[2])];
             && KindByte(s) == b[0] && Payload(s) <= p
             && (Payload(s) == p <==> (b[0] == KIND_PASSWORD || b[0] == KIND_RECOVERY ==> |p| == PASSWORD_PAYLOAD_LEN))
    ensures var after := b[3 + FromBe16(b[1], b[2])..];
            && |Tlvs([s] + more)| == 3 + |Payload(s)| + |Tlvs(more)|
            && (Payload(s) == b[3..3 + FromBe16(b[1], b[2])] && Tlvs(more) + rest == after ==>
                  Tlvs([s] + more) + rest == b)
  {
    hide Payload, KindByte;
    var len := FromBe16(b[1], b[2]);
    assert ([s] + more)[1..] == more;
    if Payload(s) == b[3..3 + len] && Tlvs(more) + rest == b[3 + len..] {
      assert Tlv(s) == b[..3 + len] by {
        assert b[..3 + len] == [b[0]] + [b[1], b[2]] + b[3..3 + len];
      }
      Apart(b, 3 + len, Tlvs(more), rest);
    }
  }

  lemma ReadFirst(b: seq<byte>, i: nat, n: nat, got: seq<Slot>) returns (len: nat, s: Slot)
    requires i < n && ReadSlots(b, i, n, got).Success?
    ensures 3 <= |b| && len == FromBe16(b[1], b[2]) && 3 + len <= |b|
    ensures ReadSlot(b[0], b[3..3 + len]) == Success(s)
    ensures ReadSlots(b, i, n, got) == ReadSlots(b[3 + len..], i + 1, n, got + [s])
  {
    hide ReadSlot;
    len := FromBe16(b[1], b[2]);
    s := ReadSlot(b[0], b[3..3 + len]).value;
  }

  lemma CanonicalFirst(b: seq<byte>, n: nat, len: nat)
    requires n > 0 && 3 <= |b| && len == FromBe16(b[1], b[2]) && 3 + len <= |b|
    ensures Canonical(b, n) <==>
              (b[0] == KIND_PASSWORD || b[0] == KIND_RECOVERY ==> len == PASSWORD_PAYLOAD_LEN)
              && Canonical(b[3 + len..], n - 1)
  {
  }

  lemma NoSlotsLeft(b: seq<byte>, i: nat, n: nat, got: seq<Slot>)
    requires i >= n
    ensures ReadSlots(b, i, n, got) == Success((got + [], b))
    ensures Tlvs([]) + b == b && Canonical(b, 0)
  {
    assert got + [] == got && [] + b == b;
  }

  /** Slots that decode can be sent again; they then take as many bytes as before exactly when the
      input was canonical, and in that case the very same ones. */
  lemma {:induction false} SlotsWriteBack(b: seq<byte>, i: nat, n: nat, got: seq<Slot>)
    returns (slots: seq<Slot>, rest: seq<byte>)
    requires i <= n && ReadSlots(b, i, n, got).Success?
    ensures ReadSlots(b, i, n, got) == Success((got + slots, rest))
    ensures |slots| == n - i && AllSendable(slots)
    ensures |Tlvs(slots)| + |rest| <= |b|
    ensures Canonical(b, n - i) <==> |Tlvs(slots)| + |rest| == |b|
    ensures Canonical(b, n - i) ==> Tlvs(slots) + rest == b
    decreases n - i
  {
    hide ReadSlots, ReadSlot, Payload, ValidSlot, FitsByte, KindByte, Tlvs, Tlv, Canonical;
    if i >= n {
      NoSlotsLeft(b, i, n, got);
      return [], b;
    }
    var len, s := ReadFirst(b, i, n, got);
    CanonicalFirst(b, n - i, len);
    DecodedSlot(b[0], b[3..3 + len]);
    var more;
    more, rest := SlotsWriteBack(b[3 + len..], i + 1, n, got + [s]);
    slots := [s] + more;
    assert got + [s] + more == got + slots;
    assert Sendable(s);
    FrontWritesBack(b, s, more, rest);
  }

  lemma {:induction false} NothingTooLarge(slots: seq<Slot>)
    requires AllSendable(slots)
    ensures TooLarge(slots) == None
  {
    hide Payload, ValidSlot, FitsByte;
    if slots != [] {
      assert Sendable(slots[0]);
      NothingTooLarge(slots[1..]);
    }
  }

  lemma {:induction false} AllFit(slots: seq<Slot>)
    requires TooLarge(slots) == None
    ensures forall s | s in slots :: |Payload(s)| <= 0xffff
  {
    hide Payload;
    if slots != [] {
      AllFit(slots[1..]);
    }
  }

  // ----- whole vaults -----

  lemma LayoutReadsBack(v: Vault)
    requires ValidVault(v) && AllSendable(v.slots)
    ensures Decode(Layout(v)) == Success(v)
  {
    hide ReadSlots, Tlvs, ValidSlot;
    var b := Layout(v);
    var rest := v.entriesIv + v.entriesCiphertext;
    assert b == Header(|v.slots|) + (Tlvs(v.slots) + rest);
    assert b[..4] == MAGIC && b[4] == VERSION && b[5] == |v.slots|;
    assert b[6..] == Tlvs(v.slots) + rest;
    SlotsReadBack(v.slots, rest, 0, []);
    assert [] + v.slots == v.slots;
    assert rest[..12] == v.entriesIv && rest[12..] == v.entriesCiphertext;
  }

  /** Whatever decodes encodes again, into at most as many bytes, and into the same ones exactly when
      every password and recovery payload has its canonical length. */
  lemma DecodedReencodes(b: seq<byte>)
    requires Decode(b).Success?
    ensures var v := Decode(b).value;
            && Encode(v).Success? && ByteKinds(v)
            && |Encode(v).value| <= |b|
            && (Encode(v).value == b <==> Canonical(b[6..], b[5]))
  {
    hide ReadSlots, Tlvs, Canonical, ValidSlot, Payload, FitsByte;
    var v := Decode(b).value;
    var slots, rest := SlotsWriteBack(b[6..], 0, b[5], []);
    assert [] + slots == slots;
    assert forall s | s in slots :: Sendable(s);
    NothingTooLarge(slots);
    HeadsAgree(b, slots);
    assert Layout(v) == b[..6] + Tlvs(slots) + rest by {
      assert rest == v.entriesIv + v.entriesCiphertext;
    }
    BackOrNot(b, Tlvs(slots), rest);
  }

  lemma HeadsAgree(b: seq<byte>, slots: seq<Slot>)
    requires |b| >= 6 && b[..4] == MAGIC && b[4] == VERSION && b[5] == |slots|
    ensures Header(|slots|) == b[..6]
  {
  }

  lemma BackOrNot(b: seq<byte>, mid: seq<byte>, rest: seq<byte>)
    requires |b| >= 6
    ensures b[..6] + mid + rest == b <==> mid + rest == b[6..]
  {
    var whole := b[..6] + mid + rest;
    assert whole == b[..6] + (mid + rest) && whole[6..] == mid + rest && whole[..6] == b[..6];
    assert b == b[..6] + b[6..];
  }

  /** A vault that encodes decodes to itself exactly when every opaque kind fits its byte. */
  lemma RoundTrip(v: Vault)
    requires Encode(v).Success?
    ensures Decode(Encode(v).value) == Success(v) <==> ByteKinds(v)
  {
    hide Decode, Layout, ValidSlot, Payload, FitsByte, Canonical;
    if ByteKinds(v) {
      AllFit(v.slots);
      forall s | s in v.slots
        ensures Sendable(s)
      {
      }
      LayoutReadsBack(v);
    } else if Decode(Encode(v).value) == Success(v) {
      DecodedReencodes(Encode(v).value);
    }
  }

  /** Decoding, encoding and decoding again is decoding once, on every accepted input. */
  lemma DecodeIsIdempotent(b: seq<byte>)
    requires Decode(b).Success?
    ensures Encode(Decode(b).value).Success? && Decode(Encode(Decode(b).value).value) == Decode(b)
  {
    hide Decode, Encode, ByteKinds, Canonical;
    DecodedReencodes(b);
    RoundTrip(Decode(b).value);
  }

  lemma EncodeIsInjective(v: Vault, w: Vault)
    requires Encode(v).Success? && Encode(v) == Encode(w) && ByteKinds(v) && ByteKinds(w)
    ensures v == w
  {
    hide Decode, Encode, ByteKinds;
    RoundTrip(v);
    RoundTrip(w);
  }

  // ----- where the round trips fail -----

  function Zeros(n: nat): (z: seq<byte>)
    ensures |z| == n
  {
    seq(n, _ => 0)
  }

  /** A valid vault with a slot of kind 257: its encoding says kind 1, and does not decode to it. */
  lemma TruncatedKindIsLost() returns (v: Vault)
    ensures v.slots == [Opaque(257.0, [])] && Encode(v).Success? && Decode(Encode(v).value) != Success(v)
  {
    hide Decode, Layout;
    v := Vault([Opaque(257.0, [])], Zeros(12), []);
    assert TooLarge(v.slots[1..]) == None;
    assert ToUint8(257.0) == 1;
    assert Opaque(257.0, []) in v.slots && !FitsByte(Opaque(257.0, []));
    RoundTrip(v);
  }

  /** An accepted input whose password payload is one byte too long: encoding drops that byte. */
  lemma LongPayloadIsCut() returns (b: seq<byte>)
    ensures |b| == 146 && b[6..9] == [KIND_PASSWORD, 0, 125]
    ensures Decode(b).Success? && Encode(Decode(b).value).Success? && Encode(Decode(b).value).value != b
  {
    hide ReadSlots, FieldsAt;
    var p := Zeros(125);
    var slot := [KIND_PASSWORD, 0, 125] + p + Zeros(12);
    b := Header(1) + slot;
    assert b[..4] == MAGIC && b[4] == VERSION && b[5] == 1 && b[6..] == slot;
    assert slot[3..3 + 125] == p && slot[3 + 125..] == Zeros(12);
    LongPayloadReads(p);
    ReadSingleSlot(slot, p);
    assert !Canonical(slot, 1);
    DecodedReencodes(b);
  }

  lemma LongPayloadReads(p: seq<byte>)
    requires |p| == 125
    ensures ReadSlot(KIND_PASSWORD, p).Success?
  {
  }

  lemma ReadSingleSlot(slot: seq<byte>, p: seq<byte>)
    requires |slot| >= 3 + |p| && |p| == FromBe16(slot[1], slot[2]) && slot[3..3 + |p|] == p
             && ReadSlot(slot[0], p).Success?
    ensures var r := ReadSlots(slot, 0, 1, []); r.Success? && r.value.1 == slot[3 + |p|..]
  {
    hide ReadSlot;
  }

  // ----- the code -----

  /** `out.set(data, off)`; the caller has to leave room. */
  method Set(out: array<byte>, off: nat, data: seq<byte>) returns (next: nat)
    requires off + |data| <= out.Length
    modifies out
    ensures next == off + |data| && out[..next] == old(out[..off]) + data
  {
    forall i | 0 <= i < |data| {
      out[off + i] := data[i];
    }
    next := off + |data|;
  }

  method EncodePasswordPayload(f: Fields) returns (p: seq<byte>)
    requires ValidFields(f, LEN_SALT)
    ensures p == f.slotId + f.salt + f.verifier + f.wrapIv + f.wrappedVek
  {
    var out := new byte[PASSWORD_PAYLOAD_LEN];
    var off := Set(out, 0, f.slotId);
    off := Set(out, off, f.salt);
    off := Set(out, off, f.verifier);
    off := Set(out, off, f.wrapIv);
    off := Set(out, off, f.wrappedVek);
    assert out[..off] == out[..];
    p := out[..];
  }

  method EncodeWebauthnPayload(f: Fields, id: seq<byte>) returns (p: seq<byte>)
    requires ValidFields(f, LEN_HMAC_SECRET_SALT)
    ensures p == Payload(Webauthn(f, id))
  {
    var out := new byte[WEBAUTHN_FIXED_LEN + |id|];
    var off := Set(out, 0, f.slotId);
    off := Set(out, off, [|id| / 0x100 % 0x100]);
    off := Set(out, off, [|id| % 0x100]);
    assert out[..off] == f.slotId + Be16(|id|);
    off := Set(out, off, id);
    off := Set(out, off, f.salt);
    off := Set(out, off, f.verifier);
    off := Set(out, off, f.wrapIv);
    off := Set(out, off, f.wrappedVek);
    assert out[..off] == out[..];
    p := out[..];
  }

  method EncodeSlotPayload(s: Slot) returns (p: seq<byte>)
    requires ValidSlot(s)
    ensures p == Payload(s)
  {
    match s {
      case Password(f) => p := EncodePasswordPayload(f);
      case Recovery(f) => p := EncodePasswordPayload(f);
      case Webauthn(f, id) => p := EncodeWebauthnPayload(f, id);
      case Opaque(_, payload) => p := payload;
    }
  }

  method EncodePayloads(slots: seq<Slot>) returns (payloads: seq<seq<byte>>)
    requires forall s | s in slots :: ValidSlot(s)
    ensures |payloads| == |slots| && forall i | 0 <= i < |slots| :: payloads[i] == Payload(slots[i])
  {
    hide Payload, ValidSlot;
    payloads := [];
    for i := 0 to |slots|
      invariant |payloads| == i && forall j | 0 <= j < i :: payloads[j] == Payload(slots[j])
    {
      var p := EncodeSlotPayload(slots[i]);
      payloads := payloads + [p];
    }
  }

  /** The first pass: how long all slots are together, unless one is too large. */
  method Measure(slots: seq<Slot>, payloads: seq<seq<byte>>) returns (r: Res<nat>)
    requires |payloads| == |slots| && forall i | 0 <= i < |slots| :: payloads[i] == Payload(slots[i])
    ensures match TooLarge(slots)
            case None => r == Success(|Tlvs(slots)|)
            case Some(n) => r == Failure(SlotPayloadTooLarge(n))
  {
    hide Payload;
    var total := 0;
    for i := 0 to |slots|
      invariant total + |Tlvs(slots[i..])| == |Tlvs(slots)| && TooLarge(slots[i..]) == TooLarge(slots)
    {
      assert slots[i..][0] == slots[i] && slots[i..][1..] == slots[i + 1..];
      if |payloads[i]| > 0xffff {
        return Failure(SlotPayloadTooLarge(|payloads[i]|));
      }
      total := total + TLV_PREFIX_LEN + |payloads[i]|;
    }
    r := Success(total);
  }

  method FillSlot(out: array<byte>, start: nat, slot: Slot, payload: seq<byte>) returns (off: nat)
    requires payload == Payload(slot) && start + |Tlv(slot)| <= out.Length
    modifies out
    ensures off == start + |Tlv(slot)| && out[..off] == old(out[..start]) + Tlv(slot)
  {
    hide Payload, KindByte;
    ghost var before := out[..start];
    off := Set(out, start, [KindByte(slot)]);
    off := Set(out, off, [|payload| / 0x100 % 0x100]);
    off := Set(out, off, [|payload| % 0x100]);
    assert out[..off] == before + ([KindByte(slot)] + Be16(|payload|));
    off := Set(out, off, payload);
  }

  /** The second pass over the slots: they fill exactly the room the first pass measured. */
  method Fill(out: array<byte>, start: nat, slots: seq<Slot>, payloads: seq<seq<byte>>) returns (off: nat)
    requires |payloads| == |slots| && forall i | 0 <= i < |slots| :: payloads[i] == Payload(slots[i])
    requires start + |Tlvs(slots)| <= out.Length
    modifies out
    ensures off == start + |Tlvs(slots)| && out[..off] == old(out[..start]) + Tlvs(slots)
  {
    hide Payload, Tlv;
    off := start;
    ghost var goal := out[..start] + Tlvs(slots);
    for i := 0 to |slots|
      invariant off <= out.Length && out[..off] + Tlvs(slots[i..]) == goal
    {
      var slot, payload := slots[i], payloads[i];
      assert slots[i..][0] == slot && slots[i..][1..] == slots[i + 1..];
      ghost var before := out[..off];
      assert before + Tlvs(slots[i..]) == before + Tlv(slot) + Tlvs(slots[i + 1..]);
      assert |before| + |Tlv(slot)| + |Tlvs(slots[i + 1..])| == |goal|;
      off := FillSlot(out, off, slot, payload);
    }
    assert out[..off] + [] == out[..off];
  }

  method EncodeVaultBlob(v: Vault) returns (r: Res<seq<byte>>)
    ensures r == Encode(v)
  {
    hide Tlvs, ValidSlot, Payload;
    if !ValidVault(v) {
      return Failure(Invalid);
    }
    var payloads := EncodePayloads(v.slots);
    var measured := Measure(v.slots, payloads);
    if measured.Failure? {
      return Failure(measured.error);
    }
    var out := new byte[HEADER_FIXED_LEN + measured.value + LEN_IV + |v.entriesCiphertext|];
    var off := Set(out, 0, MAGIC);
    off := Set(out, off, [VERSION]);
    off := Set(out, off, [|v.slots| % 0x100]);
    assert out[..off] == Header(|v.slots|);
    off := Fill(out, off, v.slots, payloads);
    off := Set(out, off, v.entriesIv);
    off := Set(out, off, v.entriesCiphertext);
    assert off == out.Length && out[..off] == out[..];
    r := Success(out[..]);
  }

  method SlicePasswordFields(p: seq<byte>) returns (f: Fields)
    ensures f == PasswordFields(p)
  {
    var off := 0;
    var slotId := Slice(p, off, off + LEN_SLOT_ID);
    off := off + LEN_SLOT_ID;
    var salt := Slice(p, off, off + LEN_SALT);
    off := off + LEN_SALT;
    var verifier := Slice(p, off, off + LEN_VERIFIER);
    off := off + LEN_VERIFIER;
    var wrapIv := Slice(p, off, off + LEN_WRAP_IV);
    off := off + LEN_WRAP_IV;
    f := Fields(slotId, salt, verifier, wrapIv, Slice(p, off, off + LEN_WRAPPED_VEK));
  }

  method DecodeWebauthnPayload(p: seq<byte>) returns (r: Res<Slot>)
    ensures r == ReadWebauthn(p)
  {
    if |p| < WEBAUTHN_FIXED_LEN + 1 {
      return Failure(WebauthnTooShort(|p|));
    }
    var off := LEN_SLOT_ID;
    var slotId := p[..off];
    var credIdLen := FromBe16(p[off], p[off + 1]);
    off := off + 2;
    if off + credIdLen + LEN_HMAC_SECRET_SALT + LEN_VERIFIER + LEN_WRAP_IV + LEN_WRAPPED_VEK != |p| {
      return Failure(WebauthnLengthMismatch(credIdLen));
    }
    var credentialId := p[off..off + credIdLen];
    off := off + credIdLen;
    var salt := Slice(p, off, off + LEN_HMAC_SECRET_SALT);
    off := off + LEN_HMAC_SECRET_SALT;
    var verifier := Slice(p, off, off + LEN_VERIFIER);
    off := off + LEN_VERIFIER;
    var wrapIv := Slice(p, off, off + LEN_WRAP_IV);
    off := off + LEN_WRAP_IV;
    r := Checked(Webauthn(Fields(slotId, salt, verifier, wrapIv, Slice(p, off, off + LEN_WRAPPED_VEK)), credentialId));
  }

  method DecodeSlotPayload(kind: byte, p: seq<byte>) returns (r: Res<Slot>)
    ensures r == ReadSlot(kind, p)
  {
    if kind == KIND_PASSWORD {
      var f := SlicePasswordFields(p);
      return Checked(Password(f));
    }
    if kind == KIND_WEBAUTHN {
      r := DecodeWebauthnPayload(p);
      return;
    }
    if kind == KIND_RECOVERY {
      var f := SlicePasswordFields(p);
      return Checked(Recovery(f));
    }
    r := Success(Opaque(kind as real, p));
  }

  method MagicIsThere(b: seq<byte>) returns (ok: bool)
    requires |b| >= HEADER_FIXED_LEN
    ensures ok == (b[..4] == MAGIC)
  {
    for i := 0 to 4
      invariant b[..i] == MAGIC[..i]
    {
      if b[i] != MAGIC[i] {
        assert b[..4][i] == b[i];
        return false;
      }
    }
    ok := true;
  }

  /** One slot of the loop: its kind, its length and its payload, each after a bounds check. */
  method DecodeNextSlot(b: seq<byte>, start: nat, i: nat) returns (r: Res<(Slot, nat)>)
    requires start <= |b|
    ensures var rest := b[start..];
            r == if TLV_PREFIX_LEN > |rest| then Failure(HeaderOverruns(i))
                 else var len := FromBe16(rest[1], rest[2]);
                      if TLV_PREFIX_LEN + len > |rest| then Failure(PayloadOverruns(i))
                      else match ReadSlot(rest[0], rest[3..3 + len])
                        case Failure(e) => Failure(e)
                        case Success(s) => Success((s, start + 3 + len))
  {
    hide ReadSlot, FromBe16;
    var off := start;
    ghost var rest := b[start..];
    if off + TLV_PREFIX_LEN > |b| {
      return Failure(HeaderOverruns(i));
    }
    var kind := b[off];
    off := off + 1;
    var len := FromBe16(b[off], b[off + 1]);
    off := off + 2;
    assert rest[0] == kind && len == FromBe16(rest[1], rest[2]);
    if off + len > |b| {
      return Failure(PayloadOverruns(i));
    }
    var payload := b[off..off + len];
    off := off + len;
    assert payload == rest[3..3 + len];
    var slot := DecodeSlotPayload(kind, payload);
    if slot.Failure? {
      return Failure(slot.error);
    }
    r := Success((slot.value, off));
  }

  method DecodeSlots(b: seq<byte>, slotCount: nat) returns (r: Res<(seq<Slot>, nat)>)
    requires |b| >= HEADER_FIXED_LEN
    ensures match r
            case Success((slots, off)) =>
              off <= |b| && ReadSlots(b[6..], 0, slotCount, []) == Success((slots, b[off..]))
            case Failure(e) => ReadSlots(b[6..], 0, slotCount, []) == Failure(e)
  {
    hide ReadSlot, FromBe16;
    var slots: seq<Slot> := [];
    var off: nat := HEADER_FIXED_LEN;
    for i := 0 to slotCount
      invariant off <= |b| && ReadSlots(b[off..], i, slotCount, slots) == ReadSlots(b[6..], 0, slotCount, [])
    {
      var next := DecodeNextSlot(b, off, i);
      if next.Failure? {
        return Failure(next.error);
      }
      assert b[next.value.1..] == b[off..][next.value.1 - off..];
      slots := slots + [next.value.0];
      off := next.value.1;
    }
    r := Success((slots, off));
  }

  method DecodeVaultBlob(b: seq<byte>) returns (r: Res<Vault>)
    ensures r == Decode(b)
  {
    hide ReadSlots;
    if |b| < HEADER_FIXED_LEN {
      return Failure(TooShort(|b|));
    }
    var magic := MagicIsThere(b);
    if !magic {
      return Failure(BadMagic);
    }
    if b[4] != VERSION {
      return Failure(UnsupportedVersion(b[4]));
    }
    var slotCount: nat := b[5];
    if slotCount == 0 {
      return Failure(NoSlots);
    }
    if slotCount > MAX_SLOTS {
      return Failure(TooManySlots(b[5]));
    }
    var decoded := DecodeSlots(b, slotCount);
    if decoded.Failure? {
      return Failure(decoded.error);
    }
    var (slots, off) := decoded.value;
    if off + LEN_IV > |b| {
      return Failure(IvOverruns);
    }
    assert b[off..][..12] == b[off..off + 12] && b[off..][12..] == b[off + 12..];
    r := Success(Vault(slots, b[off..off + 12], b[off + 12..]));
  }
}
