/** What is read from any bytes, said by where it stands in them. */
module VaultReading {
  import opened Wrappers
  import opened Bytes
  import opened VaultFormat
  import opened VaultLayout

  /** The number in two bytes, the larger first. */
  function NumberAt(b: seq<byte>, p: nat): nat
    requires p + 2 <= |b|
  {
    b[p] as int * 256 + b[p + 1] as int
  }

  /** The slot that begins at `p` lies within the bytes. */
  predicate Whole(b: seq<byte>, p: nat) {
    p + 3 <= |b| && p + 3 + NumberAt(b, p + 1) <= |b|
  }

  function Length(b: seq<byte>, p: nat): nat
    requires Whole(b, p)
  {
    NumberAt(b, p + 1)
  }

  /** What is wrong with the `i`-th slot, beginning at `p`: it or its length is cut off, a password's or recovery's
      payload is shorter than 124 bytes, or an authenticator's is shorter than 143 or not 142 longer than its
      credential id. */
  function FaultAt(b: seq<byte>, p: nat, i: nat): Option<VaultError> {
    if p + 3 > |b| then Some(HeaderOverruns(i))
    else if !Whole(b, p) then Some(PayloadOverruns(i))
    else if (b[p] == 1 || b[p] == 3) && Length(b, p) < 124 then Some(Invalid)
    else if b[p] == 2 && Length(b, p) < 143 then Some(WebauthnTooShort(Length(b, p)))
    else if b[p] == 2 && Length(b, p) != 142 + NumberAt(b, p + 19) then
      Some(WebauthnLengthMismatch(NumberAt(b, p + 19)))
    else None
  }

  /** Where the slot after `k` others begins, the first of which begins at `p`. */
  function After(b: seq<byte>, p: nat, k: nat): nat
    decreases k
  {
    if k == 0 then p else if Whole(b, p) then After(b, p + 3 + Length(b, p), k - 1) else p
  }

  /** The slot holds what stands at `p`. */
  predicate HoldsAt(b: seq<byte>, p: nat, s: Slot) {
    Whole(b, p) &&
    match s
    case Password(f) => b[p] == 1 && SoundFields(f, 16) && FieldsStand(b, p + 3, p + 19, f, 16)
    case Recovery(f) => b[p] == 3 && SoundFields(f, 16) && FieldsStand(b, p + 3, p + 19, f, 16)
    case Webauthn(f, id) =>
      && b[p] == 2 && SoundFields(f, 32) && FieldsStand(b, p + 3, p + 21 + |id|, f, 32)
      && |id| == Length(b, p) - 142 && Stands(b, p + 21, id)
    case Opaque(kind, payload) =>
      b[p] !in {1, 2, 3} && kind == b[p] as real && |payload| == Length(b, p) && Stands(b, p + 3, payload)
  }

  lemma SliceStands(b: seq<byte>, at: nat, p: seq<byte>, from: nat, to: nat)
    requires Stands(b, at, p) && from <= to <= |p|
    ensures Slice(p, from, to) == p[from..to] && Stands(b, at + from, Slice(p, from, to))
  {
    assert p == p[..from] + p[from..to] + p[to..];
    StandsWithin(b, at, p, p[..from], p[from..to], p[to..]);
  }

  lemma FieldsAreThere(b: seq<byte>, at: nat, p: seq<byte>, off: nat, saltLen: nat, slotId: seq<byte>)
    requires Stands(b, at, p) && off + saltLen + 92 <= |p| && |slotId| == 16 && Stands(b, at, slotId)
    ensures var f := FieldsAt(slotId, p, off, saltLen);
            SoundFields(f, saltLen) && FieldsStand(b, at, at + off, f, saltLen)
  {
    hide Stands, Slice;
    SliceStands(b, at, p, off, off + saltLen);
    SliceStands(b, at, p, off + saltLen, off + saltLen + 32);
    SliceStands(b, at, p, off + saltLen + 32, off + saltLen + 44);
    SliceStands(b, at, p, off + saltLen + 44, off + saltLen + 92);
  }

  lemma PasswordIsThere(b: seq<byte>, at: nat, p: seq<byte>)
    requires Stands(b, at, p)
    ensures |p| >= 124 ==> SoundFields(PasswordFields(p), 16) && FieldsStand(b, at, at + 16, PasswordFields(p), 16)
    ensures |p| < 124 ==> !ValidFields(PasswordFields(p), 16)
  {
    if |p| >= 124 {
      SliceStands(b, at, p, 0, 16);
      FieldsAreThere(b, at, p, 16, 16, Slice(p, 0, 16));
    }
  }

  /** One slot, at whatever place. */
  lemma SlotIsThere(b: seq<byte>, p: nat, i: nat)
    requires Whole(b, p)
    ensures var r := ReadSlot(b[p], b[p + 3..p + 3 + Length(b, p)]);
            if FaultAt(b, p, i).Some? then r == Failure(FaultAt(b, p, i).value)
            else r.Success? && HoldsAt(b, p, r.value)
  {
    hide FieldsStand, PasswordFields, ReadWebauthn;
    var q := b[p + 3..p + 3 + Length(b, p)];
    assert Stands(b, p + 3, q);
    if b[p] == 1 || b[p] == 3 {
      PasswordIsThere(b, p + 3, q);
    } else if b[p] == 2 {
      AuthenticatorIsThere(b, p, q);
    }
  }

  lemma AuthenticatorIsThere(b: seq<byte>, p: nat, q: seq<byte>)
    requires Whole(b, p) && b[p] == 2 && q == b[p + 3..p + 3 + Length(b, p)]
    ensures |q| < 143 ==> ReadWebauthn(q) == Failure(WebauthnTooShort(|q|))
    ensures |q| >= 143 && |q| != 142 + NumberAt(b, p + 19) ==>
              ReadWebauthn(q) == Failure(WebauthnLengthMismatch(NumberAt(b, p + 19)))
    ensures |q| >= 143 && |q| == 142 + NumberAt(b, p + 19) ==>
              ReadWebauthn(q).Success? && HoldsAt(b, p, ReadWebauthn(q).value)
  {
    hide FieldsStand, FieldsAt;
    if |q| >= 143 {
      assert Stands(b, p + 3, q);
      assert q[16] == b[p + 19] && q[17] == b[p + 20];
      var n := NumberAt(b, p + 19);
      if |q| == 142 + n {
        SliceStands(b, p + 3, q, 0, 16);
        SliceStands(b, p + 3, q, 18, 18 + n);
        FieldsAreThere(b, p + 3, q, 18 + n, 32, q[..16]);
      }
    }
  }

  /** What is wrong with the `k`-th of the slots that begin at `p`, as the `i + k`-th of all. */
  function FaultOf(b: seq<byte>, p: nat, i: nat, k: nat): Option<VaultError> {
    FaultAt(b, After(b, p, k), i + k)
  }

  /** The `k`-th slot from `p` on is the first with a fault, and that is `e`. */
  predicate FirstFault(b: seq<byte>, p: nat, i: nat, k: nat, e: VaultError) {
    FaultOf(b, p, i, k) == Some(e) && forall j: nat | j < k :: FaultOf(b, p, i, j) == None
  }

  lemma FaultOfNext(b: seq<byte>, p: nat, i: nat, k: nat)
    requires FaultAt(b, p, i) == None
    ensures Whole(b, p) && After(b, p, 0) == p && FaultOf(b, p, i, 0) == None
    ensures After(b, p, k + 1) == After(b, p + 3 + Length(b, p), k)
    ensures FaultOf(b, p, i, k + 1) == FaultOf(b, p + 3 + Length(b, p), i + 1, k)
  {
  }

  lemma FirstFaultNext(b: seq<byte>, p: nat, i: nat, k: nat, e: VaultError)
    requires FaultAt(b, p, i) == None && Whole(b, p) && FirstFault(b, p + 3 + Length(b, p), i + 1, k, e)
    ensures FirstFault(b, p, i, k + 1, e)
  {
    hide FaultAt, FaultOf, After;
    FaultOfNext(b, p, i, k);
    forall j: nat | j < k + 1
      ensures FaultOf(b, p, i, j) == None
    {
      FaultOfNext(b, p, i, if j == 0 then 0 else j - 1);
    }
  }

  /** The slots read are those that stand there; the first with a fault, if any, is what reading fails with. */
  predicate Outcome(b: seq<byte>, p: nat, i: nat, m: nat, got: seq<Slot>, r: Res<(seq<Slot>, seq<byte>)>) {
    match r
    case Failure(e) => exists k: nat :: k < m && FirstFault(b, p, i, k, e)
    case Success((slots, rest)) =>
      && (forall k: nat | k < m :: FaultOf(b, p, i, k) == None)
      && |slots| == |got| + m && got <= slots
      && (forall k: nat | k < m :: HoldsAt(b, After(b, p, k), slots[|got| + k]))
      && After(b, p, m) <= |b| && rest == b[After(b, p, m)..]
  }

  lemma OutcomeNext(b: seq<byte>, p: nat, i: nat, m: nat, got: seq<Slot>, s: Slot, r: Res<(seq<Slot>, seq<byte>)>)
    requires FaultAt(b, p, i) == None && Whole(b, p) && HoldsAt(b, p, s)
    requires Outcome(b, p + 3 + Length(b, p), i + 1, m, got + [s], r)
    ensures Outcome(b, p, i, m + 1, got, r)
  {
    hide FaultAt, FaultOf, After, HoldsAt, FirstFault;
    var q := p + 3 + Length(b, p);
    match r
    case Failure(e) =>
      var k: nat :| k < m && FirstFault(b, q, i + 1, k, e);
      FirstFaultNext(b, p, i, k, e);
    case Success((slots, rest)) =>
      assert slots[|got|] == (got + [s])[|got|];
      FaultOfNext(b, p, i, m);
      forall k: nat | k < m + 1
        ensures FaultOf(b, p, i, k) == None && HoldsAt(b, After(b, p, k), slots[|got| + k])
      {
        FaultOfNext(b, p, i, if k == 0 then 0 else k - 1);
        if k > 0 {
          assert HoldsAt(b, After(b, q, k - 1), slots[|got + [s]| + (k - 1)]);
        }
      }
  }

  lemma {:induction false} SlotsAreRead(b: seq<byte>, p: nat, i: nat, n: nat, got: seq<Slot>)
    requires p <= |b| && i <= n
    ensures Outcome(b, p, i, n - i, got, ReadSlots(b[p..], i, n, got))
    decreases n - i
  {
    hide FaultOf, HoldsAt, ReadSlot, ReadSlots;
    ReadSlotsStep(b, p, i, n, got);
    if i < n {
      if FaultAt(b, p, i).None? {
        SlotIsThere(b, p, i);
        var q := p + 3 + Length(b, p);
        var s := ReadSlot(b[p], b[p + 3..q]).value;
        SlotsAreRead(b, q, i + 1, n, got + [s]);
        OutcomeNext(b, p, i, n - i - 1, got, s, ReadSlots(b[p..], i, n, got));
      } else {
        NowhereElse(b, p, i);
        assert FirstFault(b, p, i, 0, FaultAt(b, p, i).value);
      }
    }
  }

  lemma NowhereElse(b: seq<byte>, p: nat, i: nat)
    ensures FaultOf(b, p, i, 0) == FaultAt(b, p, i)
  {
  }

  lemma ReadSlotsStep(b: seq<byte>, p: nat, i: nat, n: nat, got: seq<Slot>)
    requires p <= |b|
    ensures i >= n ==> ReadSlots(b[p..], i, n, got) == Success((got, b[p..]))
    ensures i < n && FaultAt(b, p, i).Some? ==> ReadSlots(b[p..], i, n, got) == Failure(FaultAt(b, p, i).value)
    ensures i < n && FaultAt(b, p, i).None? ==>
              && Whole(b, p) && ReadSlot(b[p], b[p + 3..p + 3 + Length(b, p)]).Success?
              && ReadSlots(b[p..], i, n, got) ==
                 ReadSlots(b[p + 3 + Length(b, p)..], i + 1, n,
                           got + [ReadSlot(b[p], b[p + 3..p + 3 + Length(b, p)]).value])
  {
    hide ReadSlot, HoldsAt;
    if i < n && Whole(b, p) {
      SlotIsThere(b, p, i);
      var q := p + 3 + Length(b, p);
      assert b[p..][3..3 + Length(b, p)] == b[p + 3..q] && b[p..][3 + Length(b, p)..] == b[q..];
    }
  }

  /** What is wrong with the six bytes in front. */
  function HeaderFault(b: seq<byte>): Option<VaultError> {
    if |b| < 6 then Some(TooShort(|b|))
    else if b[..4] != ['V' as int, 'L' as int, 'T' as int, '1' as int] then Some(BadMagic)
    else if b[4] != 2 then Some(UnsupportedVersion(b[4]))
    else if b[5] == 0 then Some(NoSlots)
    else if b[5] > 16 then Some(TooManySlots(b[5]))
    else None
  }

  /** Bytes are read as a vault if and only if nothing is wrong with their front, nor with any slot where the
      ones before it lead, and at least 12 bytes follow; and as the vault whose parts stand there. Otherwise
      the first thing wrong is what reading fails with. */
  lemma DecodesExactly(b: seq<byte>)
    ensures match Decode(b)
            case Failure(e) =>
              || HeaderFault(b) == Some(e)
              || (HeaderFault(b) == None
                  && ((exists k: nat :: k < b[5] && FirstFault(b, 6, 0, k, e))
                      || (e == IvOverruns && After(b, 6, b[5]) + 12 > |b|
                          && forall k: nat | k < b[5] :: FaultOf(b, 6, 0, k) == None)))
            case Success(v) =>
              && HeaderFault(b) == None && |v.slots| == b[5]
              && var end := After(b, 6, b[5]);
                 && end + 12 <= |b| && v.entriesIv == b[end..end + 12] && v.entriesCiphertext == b[end + 12..]
                 && forall k: nat | k < |v.slots| ::
                      FaultOf(b, 6, 0, k) == None && HoldsAt(b, After(b, 6, k), v.slots[k])
  {
    hide ReadSlots, FaultOf, HoldsAt, After;
    if HeaderFault(b) == None {
      SlotsAreRead(b, 6, 0, b[5], []);
      if Decode(b).Success? {
        var end := After(b, 6, b[5]);
        assert b[end..][..12] == b[end..end + 12] && b[end..][12..] == b[end + 12..];
      }
    }
  }
}
