/** Where everything stands in an encoded vault, byte by byte. */
module VaultLayout {
  import opened Wrappers
  import opened Bytes
  import opened VaultFormat

  /** The kind a slot is stored as. */
  function StoredKind(s: Slot): byte {
    match s
    case Password(_) => 1
    case Webauthn(_, _) => 2
    case Recovery(_) => 3
    case Opaque(kind, _) => ToUint8(kind)
  }

  /** An opaque kind is cut to its whole part and that to its last byte: `n` is the whole part of `k`. */
  lemma KindIsCut(k: real, n: int)
    requires if k >= 0.0 then n as real <= k < n as real + 1.0 else n as real - 1.0 < k <= n as real
    ensures StoredKind(Opaque(k, [])) == n % 256
  {
    if k >= 0.0 {
      assert k.Floor == n;
    } else {
      assert (-k).Floor == -n;
    }
  }

  /** How long a slot's payload is. */
  function PayloadSize(s: Slot): nat {
    match s
    case Password(_) => 124
    case Recovery(_) => 124
    case Webauthn(_, id) => 142 + |id|
    case Opaque(_, payload) => |payload|
  }

  /** Where the `i`-th slot begins; after the last one, where the entries begin. */
  function SlotAt(slots: seq<Slot>, i: nat): nat
    requires i <= |slots|
  {
    if i == 0 then 6 else SlotAt(slots, i - 1) + 3 + PayloadSize(slots[i - 1])
  }

  /** `part` stands in `b` from `at` on. */
  predicate Stands(b: seq<byte>, at: nat, part: seq<byte>) {
    at + |part| <= |b| && b[at..at + |part|] == part
  }

  predicate FieldsStand(b: seq<byte>, id: nat, rest: nat, f: Fields, saltLen: nat) {
    && Stands(b, id, f.slotId)
    && Stands(b, rest, f.salt) && Stands(b, rest + saltLen, f.verifier)
    && Stands(b, rest + saltLen + 32, f.wrapIv) && Stands(b, rest + saltLen + 44, f.wrappedVek)
  }

  /** The slot's parts from `at` on: kind, length in two bytes, the larger first, and the payload. */
  predicate SlotStands(b: seq<byte>, at: nat, s: Slot) {
    && at + 3 + PayloadSize(s) <= |b|
    && b[at] == StoredKind(s) && b[at + 1] as int * 256 + b[at + 2] as int == PayloadSize(s)
    && match s
       case Password(f) => FieldsStand(b, at + 3, at + 19, f, 16)
       case Recovery(f) => FieldsStand(b, at + 3, at + 19, f, 16)
       case Webauthn(f, id) =>
         && FieldsStand(b, at + 3, at + 21 + |id|, f, 32)
         && b[at + 19] as int * 256 + b[at + 20] as int == |id| && Stands(b, at + 21, id)
       case Opaque(_, payload) => Stands(b, at + 3, payload)
  }

  lemma StandsWithin(b: seq<byte>, at: nat, whole: seq<byte>, front: seq<byte>, part: seq<byte>, back: seq<byte>)
    requires Stands(b, at, whole) && whole == front + part + back
    ensures Stands(b, at + |front|, part)
  {
    assert whole[|front|..|front| + |part|] == part;
    forall k | 0 <= k < |part|
      ensures b[at + |front| + k] == part[k]
    {
      assert b[at + |front| + k] == b[at..at + |whole|][|front| + k];
    }
  }

  lemma FieldsInPayload(b: seq<byte>, at: nat, front: seq<byte>, f: Fields, saltLen: nat)
    requires ValidFields(f, saltLen)
    requires Stands(b, at, front + f.salt + f.verifier + f.wrapIv + f.wrappedVek)
    ensures Stands(b, at + |front|, f.salt) && Stands(b, at + |front| + saltLen, f.verifier)
    ensures Stands(b, at + |front| + saltLen + 32, f.wrapIv) && Stands(b, at + |front| + saltLen + 44, f.wrappedVek)
  {
    hide Stands;
    var whole := front + f.salt + f.verifier + f.wrapIv + f.wrappedVek;
    StandsWithin(b, at, whole, front, f.salt, f.verifier + f.wrapIv + f.wrappedVek);
    StandsWithin(b, at, whole, front + f.salt, f.verifier, f.wrapIv + f.wrappedVek);
    StandsWithin(b, at, whole, front + f.salt + f.verifier, f.wrapIv, f.wrappedVek);
    assert whole == front + f.salt + f.verifier + f.wrapIv + f.wrappedVek + [];
    StandsWithin(b, at, whole, front + f.salt + f.verifier + f.wrapIv, f.wrappedVek, []);
  }

  lemma TwoByteLength(b: seq<byte>, at: nat, n: nat)
    requires Stands(b, at, Be16(n)) && n <= 0xffff
    ensures b[at] as int * 256 + b[at + 1] as int == n
  {
    assert b[at..at + 2][0] == b[at] && b[at..at + 2][1] == b[at + 1];
  }

  lemma PayloadStands(b: seq<byte>, at: nat, s: Slot)
    requires ValidSlot(s) && Stands(b, at, Payload(s))
    ensures |Payload(s)| == PayloadSize(s)
    ensures match s
            case Password(f) => FieldsStand(b, at, at + 16, f, 16)
            case Recovery(f) => FieldsStand(b, at, at + 16, f, 16)
            case Webauthn(f, id) => FieldsStand(b, at, at + 18 + |id|, f, 32) && Stands(b, at + 16, Be16(|id|))
                                    && Stands(b, at + 18, id)
            case Opaque(_, payload) => Stands(b, at, payload)
  {
    hide Stands, Be16;
    match s
    case Password(f) => PasswordStands(b, at, f);
    case Recovery(f) => PasswordStands(b, at, f);
    case Webauthn(f, id) => WebauthnStands(b, at, f, id, Be16(|id|));
    case Opaque(_, _) =>
  }

  lemma WebauthnStands(b: seq<byte>, at: nat, f: Fields, id: seq<byte>, len: seq<byte>)
    requires ValidFields(f, 32) && |len| == 2
    requires Stands(b, at, f.slotId + len + id + f.salt + f.verifier + f.wrapIv + f.wrappedVek)
    ensures FieldsStand(b, at, at + 18 + |id|, f, 32) && Stands(b, at + 16, len) && Stands(b, at + 18, id)
  {
    hide Stands;
    var tail := f.salt + f.verifier + f.wrapIv + f.wrappedVek;
    var p := f.slotId + len + id + f.salt + f.verifier + f.wrapIv + f.wrappedVek;
    FieldsInPayload(b, at, f.slotId + len + id, f, 32);
    assert p == [] + f.slotId + (len + id + tail);
    StandsWithin(b, at, p, [], f.slotId, len + id + tail);
    assert p == f.slotId + len + (id + tail);
    StandsWithin(b, at, p, f.slotId, len, id + tail);
    assert p == f.slotId + len + id + tail;
    StandsWithin(b, at, p, f.slotId + len, id, tail);
  }

  lemma PasswordStands(b: seq<byte>, at: nat, f: Fields)
    requires ValidFields(f, 16) && Stands(b, at, f.slotId + f.salt + f.verifier + f.wrapIv + f.wrappedVek)
    ensures FieldsStand(b, at, at + 16, f, 16)
  {
    hide Stands;
    var p := f.slotId + f.salt + f.verifier + f.wrapIv + f.wrappedVek;
    FieldsInPayload(b, at, f.slotId, f, 16);
    assert p == [] + f.slotId + (f.salt + f.verifier + f.wrapIv + f.wrappedVek);
    StandsWithin(b, at, p, [], f.slotId, f.salt + f.verifier + f.wrapIv + f.wrappedVek);
  }

  lemma TlvStands(b: seq<byte>, at: nat, s: Slot)
    requires ValidSlot(s) && Stands(b, at, Tlv(s)) && |Payload(s)| <= 0xffff
    ensures SlotStands(b, at, s) && |Tlv(s)| == 3 + PayloadSize(s)
  {
    hide Payload, Be16;
    var p := Payload(s);
    assert Tlv(s) == [KindByte(s)] + Be16(|p|) + p;
    StandsWithin(b, at, Tlv(s), [KindByte(s)], Be16(|p|), p);
    assert Tlv(s) == [KindByte(s)] + Be16(|p|) + p + [];
    StandsWithin(b, at, Tlv(s), [KindByte(s)] + Be16(|p|), p, []);
    assert b[at] == b[at..at + |Tlv(s)|][0];
    PayloadStands(b, at + 3, s);
    TwoByteLength(b, at + 1, |p|);
    if s.Webauthn? {
      TwoByteLength(b, at + 19, |s.credentialId|);
    }
  }

  lemma {:induction false} SlotsStand(b: seq<byte>, at: nat, slots: seq<Slot>, i: nat)
    requires (forall s | s in slots :: ValidSlot(s) && |Payload(s)| <= 0xffff)
    requires at >= 6 && Stands(b, at, Tlvs(slots)) && i <= |slots|
    ensures i < |slots| ==> SlotStands(b, at - 6 + SlotAt(slots, i), slots[i])
    ensures |Tlvs(slots)| == SlotAt(slots, |slots|) - 6
    decreases |slots|
  {
    hide Payload, ValidSlot, Tlv, SlotStands, Stands;
    if slots != [] {
      var rest := Tlvs(slots[1..]);
      assert Tlvs(slots) == [] + Tlv(slots[0]) + rest && Tlvs(slots) == Tlv(slots[0]) + rest + [];
      StandsWithin(b, at, Tlvs(slots), [], Tlv(slots[0]), rest);
      StandsWithin(b, at, Tlvs(slots), Tlv(slots[0]), rest, []);
      assert slots[0] in slots;
      TlvStands(b, at, slots[0]);
      SlotsStand(b, at + |Tlv(slots[0])|, slots[1..], if i == 0 then 0 else i - 1);
      SlotAtLater(slots, |slots|);
      SlotAtLater(slots, i);
    }
  }

  lemma {:induction false} SlotAtLater(slots: seq<Slot>, i: nat)
    requires slots != [] && i <= |slots|
    ensures i > 0 ==> SlotAt(slots, i) == 3 + PayloadSize(slots[0]) + SlotAt(slots[1..], i - 1)
  {
    if i > 1 {
      SlotAtLater(slots, i - 1);
    }
  }

  /** An encoded vault: `VLT1`, version 2, the number of slots, every slot where the ones before it end, then the
      12 bytes of the nonce, and the ciphertext to the end. */
  lemma VaultStands(v: Vault)
    requires Encode(v).Success?
    ensures var b, end := Encode(v).value, SlotAt(v.slots, |v.slots|);
            && |b| == end + 12 + |v.entriesCiphertext|
            && b[..4] == ['V' as int, 'L' as int, 'T' as int, '1' as int] && b[4] == 2 && b[5] == |v.slots|
            && (forall i | 0 <= i < |v.slots| :: SlotStands(b, SlotAt(v.slots, i), v.slots[i]))
            && b[end..end + 12] == v.entriesIv && b[end + 12..] == v.entriesCiphertext
  {
    hide Payload, ValidSlot, Tlvs, SlotStands;
    var b := Encode(v).value;
    AllFit(v.slots);
    var head, tlvs := Header(|v.slots|), Tlvs(v.slots);
    assert b == head + tlvs + (v.entriesIv + v.entriesCiphertext);
    assert Stands(b, 6, tlvs);
    forall i | 0 <= i < |v.slots|
      ensures SlotStands(b, SlotAt(v.slots, i), v.slots[i])
    {
      SlotsStand(b, 6, v.slots, i);
    }
    SlotsStand(b, 6, v.slots, 0);
    assert b[..6] == head;
  }

  predicate SoundFields(f: Fields, saltLen: nat) {
    |f.slotId| == 16 && |f.salt| == saltLen && |f.verifier| == 32 && |f.wrapIv| == 12 && |f.wrappedVek| == 48
  }

  /** What a slot must be to be encoded. */
  predicate SoundSlot(s: Slot) {
    match s
    case Password(f) => SoundFields(f, 16)
    case Recovery(f) => SoundFields(f, 16)
    case Webauthn(f, id) => SoundFields(f, 32) && 1 <= |id| <= 65535 - 142
    case Opaque(kind, payload) => kind != 1.0 && kind != 2.0 && kind != 3.0 && |payload| <= 65535
  }

  /** A vault is encoded if and only if it has 1 to 16 sound slots, no payload of which is over 65535 bytes, and
      a nonce of 12 bytes. */
  lemma EncodesExactly(v: Vault)
    ensures Encode(v).Success? <==>
            (1 <= |v.slots| <= 16 && (forall s | s in v.slots :: SoundSlot(s)) && |v.entriesIv| == 12)
  {
    hide Layout, Payload;
    if ValidVault(v) {
      if TooLarge(v.slots) == None {
        AllFit(v.slots);
      } else {
        SomeTooLarge(v.slots);
      }
      forall s | s in v.slots
        ensures |Payload(s)| == PayloadSize(s)
      {
        SizeIsLength(s);
      }
    }
  }

  /** The first payload that is too long, in an otherwise sound vault, is what encoding fails with. */
  lemma RefusesTheFirstTooLarge(v: Vault, n: nat)
    ensures Encode(v) == Failure(SlotPayloadTooLarge(n))
            <==> (ValidVault(v) && exists i: nat :: FirstTooLarge(v.slots, i, n))
  {
    hide Layout, Payload, ValidSlot;
    if ValidVault(v) {
      TooLargeIsFirst(v.slots, n);
    }
  }

  predicate FirstTooLarge(slots: seq<Slot>, i: nat, n: nat) {
    && i < |slots| && PayloadSize(slots[i]) == n && n > 65535
    && forall j: nat | j < i :: PayloadSize(slots[j]) <= 65535
  }

  lemma {:induction false} TooLargeIsFirst(slots: seq<Slot>, n: nat)
    requires forall s | s in slots :: ValidSlot(s)
    ensures TooLarge(slots) == Some(n) <==> exists i: nat :: FirstTooLarge(slots, i, n)
  {
    hide Payload, PayloadSize, ValidSlot;
    if slots != [] {
      SizeIsLength(slots[0]);
      TooLargeIsFirst(slots[1..], n);
      if PayloadSize(slots[0]) > 65535 {
        assert TooLarge(slots) == Some(n) ==> FirstTooLarge(slots, 0, n);
      } else {
        if i: nat :| FirstTooLarge(slots[1..], i, n) {
          assert FirstTooLarge(slots, i + 1, n);
        }
        if i: nat :| FirstTooLarge(slots, i, n) {
          assert i > 0 && FirstTooLarge(slots[1..], i - 1, n);
        }
      }
    }
  }

  lemma SizeIsLength(s: Slot)
    requires ValidSlot(s)
    ensures |Payload(s)| == PayloadSize(s)
  {
  }

  lemma {:induction false} SomeTooLarge(slots: seq<Slot>)
    requires TooLarge(slots) != None
    ensures exists s :: s in slots && |Payload(s)| > 0xffff
  {
    hide Payload;
    if |Payload(slots[0])| <= 0xffff {
      SomeTooLarge(slots[1..]);
    } else {
      assert slots[0] in slots;
    }
  }
}
