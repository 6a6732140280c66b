/** The one in-memory slot for the vault key, over symbolic cryptography: a box opens under the key and
    nonce that closed it and no other, a tag equals only the same key's tag of the same text, and each
    credential derives its own key. */
module KeySlot {
  import opened Wrappers
  import opened Bytes
  import Utf8

  const KEY_LEN: nat := 32
  const IV_LEN: nat := 12

  /** Argon2 refuses salts shorter than this (section 3.1 of RFC 9106). */
  const MIN_SALT_LEN: nat := 8

  type Key = b: seq<byte> | |b| == 32 witness seq(32, _ => 0)
  type Iv = b: seq<byte> | |b| == 12 witness seq(12, _ => 0)
  type Bytes16 = b: seq<byte> | |b| == 16 witness seq(16, _ => 0)

  datatype Kek = FromPassword(password: string, salt: seq<byte>) | FromSecret(secret: seq<byte>)
  datatype AesKey = Derived(kek: Kek) | Plain(bytes: seq<byte>)
  datatype Box = Box(key: AesKey, iv: seq<byte>, body: seq<byte>) | Unsealed(bytes: seq<byte>)
  datatype Tag = Tag(kek: Kek, text: seq<byte>) | Untagged(bytes: seq<byte>)

  /** A Base64 argument: what it decodes to, or nothing when it is malformed. */
  type Base64Of<T> = Option<T>

  datatype Credential =
    | Password(password: string, salt: Base64Of<seq<byte>>)
    | Authenticator(secret: Base64Of<seq<byte>>)

  datatype SlotBlob = SlotBlob(verifier: Base64Of<Tag>, wrapIv: Base64Of<seq<byte>>, wrappedVek: Base64Of<Box>)
  datatype Payload = Payload(ciphertext: Base64Of<Box>, iv: Base64Of<seq<byte>>, wrappedDek: Base64Of<Box>,
                             dekIv: Base64Of<seq<byte>>)
  datatype Portable = Portable(slotId: Base64Of<seq<byte>>, salt: Base64Of<seq<byte>>, blob: SlotBlob,
                               entriesIv: Base64Of<seq<byte>>, entries: Base64Of<Box>)

  datatype Error = NotBase64 | BadSalt | BadIv | BadKeyLength | Locked | BadVekLength | AesFailed | NotUtf8

  type Res<T> = Result<T, Error>

  /** Every operation, with the random bytes it draws. */
  datatype Op =
    | IsLocked
    | Lock
    | Generate(vek: Key)
    | UnlockWith(bytes: Base64Of<seq<byte>>)
    | Export
    | Rotate(vek: Key)
    | Wrap(cred: Credential, slotId: Base64Of<seq<byte>>, magic: seq<byte>, wrapIv: Iv)
    | Verify(cred: Credential, slotId: Base64Of<seq<byte>>, verifier: Base64Of<Tag>, magic: seq<byte>)
    | Unwrap(cred: Credential, slotId: Base64Of<seq<byte>>, blob: SlotBlob, magic: seq<byte>)
    | EncryptEntry(text: string, dek: Key, iv: Iv, dekIv: Iv)
    | DecryptEntry(payload: Payload)
    | EncryptOuter(text: string, iv: Iv)
    | DecryptOuter(ivArg: Base64Of<seq<byte>>, box: Base64Of<Box>)
    | Seal(text: string, password: string, magic: seq<byte>, fileKey: Key, salt: Bytes16, id: Bytes16, iv: Iv,
           wrapIv: Iv)
    | Open(password: string, file: Portable, magic: seq<byte>)

  datatype Reply =
    | Done
    | Answer(yes: bool)
    | Exported(vek: Key)
    | Wrapped(blob: SlotBlob)
    | Entry(payload: Payload)
    | Outer(iv: Iv, box: Box)
    | Text(text: string)
    | Sealed(file: Portable)
    | Opened(entries: Option<string>)
    | Failed(error: Error)

  // ----- primitives -----

  function Decoded<T>(arg: Base64Of<T>): Res<T> {
    if arg.None? then Failure(NotBase64) else Success(arg.value)
  }

  function DecodedIv(arg: Base64Of<seq<byte>>): Res<seq<byte>> {
    if arg.None? then Failure(NotBase64) else if |arg.value| != IV_LEN then Failure(BadIv) else Success(arg.value)
  }

  function Derive(c: Credential): Res<Kek> {
    match c
    case Password(_, None) => Failure(NotBase64)
    case Authenticator(None) => Failure(NotBase64)
    case Password(p, Some(salt)) => if |salt| < MIN_SALT_LEN then Failure(BadSalt) else Success(FromPassword(p, salt))
    case Authenticator(Some(secret)) => Success(FromSecret(secret))
  }

  /** All arguments are decoded before a key is derived. */
  function DeriveAfter(c: Credential, argsDecode: bool): Res<Kek> {
    var decodes := if c.Password? then c.salt.Some? else c.secret.Some?;
    if !decodes || !argsDecode then Failure(NotBase64) else Derive(c)
  }

  function AesDecrypt(key: AesKey, iv: seq<byte>, box: Box): Res<seq<byte>> {
    if key.Plain? && |key.bytes| != KEY_LEN then Failure(BadKeyLength)
    else if box.Box? && box.key == key && box.iv == iv then Success(box.body)
    else Failure(AesFailed)
  }

  function FromUtf8(b: seq<byte>): Res<string> {
    match Utf8.Decode(b) case Some(s) => Success(s) case None => Failure(NotUtf8)
  }

  function Replied<T>(r: Res<T>, reply: T -> Reply): Reply {
    match r case Success(v) => reply(v) case Failure(e) => Failed(e)
  }

  // ----- operations -----

  function Blob(kek: Kek, text: seq<byte>, wrapIv: Iv, key: Key): SlotBlob {
    SlotBlob(Some(Tag(kek, text)), Some(wrapIv), Some(Box(Derived(kek), wrapIv, key)))
  }

  /** The key a blob gives to someone whose verifier matched. */
  function Recovered(kek: Kek, blob: SlotBlob): Res<seq<byte>> {
    var iv :- DecodedIv(blob.wrapIv);
    var wrapped :- Decoded(blob.wrappedVek);
    AesDecrypt(Derived(kek), iv, wrapped)
  }

  function EntryOf(vek: Key, text: string, dek: Key, iv: Iv, dekIv: Iv): Payload {
    Payload(Some(Box(Plain(dek), iv, Utf8.Encode(text))), Some(iv), Some(Box(Plain(vek), dekIv, dek)), Some(dekIv))
  }

  function EntryText(vek: Key, p: Payload): Res<string> {
    var ct :- Decoded(p.ciphertext);
    var iv :- DecodedIv(p.iv);
    var wrapped :- Decoded(p.wrappedDek);
    var dekIv :- DecodedIv(p.dekIv);
    var dek :- AesDecrypt(Plain(vek), dekIv, wrapped);
    var plain :- AesDecrypt(Plain(dek), iv, ct);
    FromUtf8(plain)
  }

  function OuterText(vek: Key, ivArg: Base64Of<seq<byte>>, box: Base64Of<Box>): Res<string> {
    var iv :- DecodedIv(ivArg);
    var ct :- Decoded(box);
    var plain :- AesDecrypt(Plain(vek), iv, ct);
    FromUtf8(plain)
  }

  function SealedFile(text: string, password: string, magic: seq<byte>, fileKey: Key, salt: Bytes16, id: Bytes16,
                      iv: Iv, wrapIv: Iv): Portable {
    Portable(Some(id), Some(salt), Blob(FromPassword(password, salt), magic + id, wrapIv, fileKey),
             Some(iv), Some(Box(Plain(fileKey), iv, Utf8.Encode(text))))
  }

  function OpenedFile(password: string, f: Portable, magic: seq<byte>): Res<Option<string>> {
    var kek :- DeriveAfter(Password(password, f.salt), f.slotId.Some? && f.blob.verifier.Some?);
    if f.blob.verifier.Some? && f.slotId.Some? && Tag(kek, magic + f.slotId.value) == f.blob.verifier.value then
      var fileKey :- Recovered(kek, f.blob);
      var iv :- DecodedIv(f.entriesIv);
      var ct :- Decoded(f.entries);
      var plain :- AesDecrypt(Plain(fileKey), iv, ct);
      var text :- FromUtf8(plain);
      Success(Some(text))
    else Success(None)
  }

  function Loaded(slot: Option<Key>, bytes: seq<byte>, ok: Reply): (Option<Key>, Reply) {
    if |bytes| != KEY_LEN then (slot, Failed(BadVekLength)) else (Some(bytes), ok)
  }

  /** What an operation does to the slot, and its reply. */
  function Do(slot: Option<Key>, op: Op): (Option<Key>, Reply) {
    match op
    case IsLocked => (slot, Answer(slot.None?))
    case Lock => (None, Done)
    case Generate(vek) => (Some(vek), Exported(vek))
    case UnlockWith(None) => (slot, Failed(NotBase64))
    case UnlockWith(Some(bytes)) => Loaded(slot, bytes, Done)
    case Export => (slot, if slot.Some? then Exported(slot.value) else Failed(Locked))
    case Rotate(vek) => if slot.None? then (slot, Failed(Locked)) else (Some(vek), Exported(vek))
    case Wrap(c, id, magic, iv) =>
      (match DeriveAfter(c, id.Some?)
       case Failure(e) => (slot, Failed(e))
       case Success(kek) =>
         if slot.None? then (slot, Failed(Locked))
         else (slot, Wrapped(Blob(kek, magic + (if id.Some? then id.value else []), iv, slot.value))))
    case Verify(c, id, verifier, magic) =>
      (match DeriveAfter(c, id.Some? && verifier.Some?)
       case Failure(e) => (slot, Failed(e))
       case Success(kek) => (slot, Answer(id.Some? && verifier == Some(Tag(kek, magic + id.value)))))
    case Unwrap(c, id, blob, magic) =>
      (match DeriveAfter(c, id.Some? && blob.verifier.Some?)
       case Failure(e) => (slot, Failed(e))
       case Success(kek) =>
         if id.Some? && blob.verifier == Some(Tag(kek, magic + id.value)) then
           match Recovered(kek, blob)
           case Failure(e) => (slot, Failed(e))
           case Success(bytes) => Loaded(slot, bytes, Answer(true))
         else (slot, Answer(false)))
    case EncryptEntry(text, dek, iv, dekIv) =>
      (slot, if slot.None? then Failed(Locked) else Entry(EntryOf(slot.value, text, dek, iv, dekIv)))
    case DecryptEntry(p) =>
      (slot, if slot.None? then Failed(Locked) else Replied(EntryText(slot.value, p), t => Text(t)))
    case EncryptOuter(text, iv) =>
      (slot, if slot.None? then Failed(Locked) else Outer(iv, Box(Plain(slot.value), iv, Utf8.Encode(text))))
    case DecryptOuter(iv, box) =>
      (slot, if slot.None? then Failed(Locked) else Replied(OuterText(slot.value, iv, box), t => Text(t)))
    case Seal(text, password, magic, fileKey, salt, id, iv, wrapIv) =>
      (slot, Sealed(SealedFile(text, password, magic, fileKey, salt, id, iv, wrapIv)))
    case Open(password, file, magic) => (slot, Replied(OpenedFile(password, file, magic), t => Opened(t)))
  }

  /** The constant-time comparison of verifiers is equality. */
  method CtEq(a: seq<bv8>, b: seq<bv8>) returns (r: bool)
    ensures r == (a == b)
  {
    if |a| != |b| {
      return false;
    }
    var diff: bv8 := 0;
    for i := 0 to |a|
      invariant diff == 0 <==> a[..i] == b[..i]
    {
      assert a[..i + 1] == a[..i] + [a[i]] && b[..i + 1] == b[..i] + [b[i]];
      XorOrZero(diff, a[i], b[i]);
      diff := diff | (a[i] ^ b[i]);
    }
    assert a[..|a|] == a && b[..|b|] == b;
    r := diff == 0;
  }

  lemma XorOrZero(d: bv8, x: bv8, y: bv8)
    ensures d | (x ^ y) == 0 <==> d == 0 && x == y
  {
  }

  class Core {
    var vek: Option<Key>

    constructor ()
      ensures vek == None
    {
      vek := None;
    }

    method LoadVek(bytes: seq<byte>) returns (r: Res<()>)
      modifies this
      ensures vek == Loaded(old(vek), bytes, Done).0 && r.Success? == (|bytes| == KEY_LEN)
      ensures r.Failure? ==> r.error == BadVekLength
    {
      if |bytes| != KEY_LEN {
        return Failure(BadVekLength);
      }
      vek := Some(bytes);
      r := Success(());
    }

    method LockSlot()
      modifies this
      ensures (vek, Done) == Do(old(vek), Lock)
    {
      vek := None;
    }

    method GenerateVek(drawn: Key) returns (r: Reply)
      modifies this
      ensures (vek, r) == Do(old(vek), Generate(drawn))
    {
      var loaded := LoadVek(drawn);
      r := Exported(drawn);
    }

    method UnlockWithVek(arg: Base64Of<seq<byte>>) returns (r: Reply)
      modifies this
      ensures (vek, r) == Do(old(vek), UnlockWith(arg))
    {
      if arg.None? {
        return Failed(NotBase64);
      }
      var loaded := LoadVek(arg.value);
      r := if loaded.Failure? then Failed(loaded.error) else Done;
    }

    method RotateVek(drawn: Key) returns (r: Reply)
      modifies this
      ensures (vek, r) == Do(old(vek), Rotate(drawn))
    {
      if vek == None {
        return Failed(Locked);
      }
      var loaded := LoadVek(drawn);
      r := Exported(drawn);
    }

    method WrapVek(c: Credential, id: Base64Of<seq<byte>>, magic: seq<byte>, wrapIv: Iv) returns (r: Reply)
      ensures (vek, r) == Do(vek, Wrap(c, id, magic, wrapIv))
    {
      var kek := DeriveAfter(c, id.Some?);
      if kek.Failure? {
        return Failed(kek.error);
      }
      if vek == None {
        return Failed(Locked);
      }
      var verifier := Tag(kek.value, magic + id.value);
      r := Wrapped(SlotBlob(Some(verifier), Some(wrapIv), Some(Box(Derived(kek.value), wrapIv, vek.value))));
    }

    /** Verify, unwrap, load; the slot changes only when all three succeed. */
    method UnwrapVek(c: Credential, id: Base64Of<seq<byte>>, blob: SlotBlob, magic: seq<byte>) returns (r: Reply)
      modifies this
      ensures (vek, r) == Do(old(vek), Unwrap(c, id, blob, magic))
    {
      var kek := DeriveAfter(c, id.Some? && blob.verifier.Some?);
      if kek.Failure? {
        return Failed(kek.error);
      }
      var computed := Tag(kek.value, magic + id.value);
      if computed != blob.verifier.value {
        return Answer(false);
      }
      var wrapIv := DecodedIv(blob.wrapIv);
      if wrapIv.Failure? {
        return Failed(wrapIv.error);
      }
      var wrapped := Decoded(blob.wrappedVek);
      if wrapped.Failure? {
        return Failed(wrapped.error);
      }
      var bytes := AesDecrypt(Derived(kek.value), wrapIv.value, wrapped.value);
      if bytes.Failure? {
        return Failed(bytes.error);
      }
      var loaded := LoadVek(bytes.value);
      r := if loaded.Failure? then Failed(loaded.error) else Answer(true);
    }
  }

  // ----- wrapping and unwrapping -----

  /** A slot wrapped while the key was `k` gives back `k`, whatever the slot holds by then. */
  lemma WrappedSlotUnwraps(k: Key, c: Credential, id: Base64Of<seq<byte>>, magic: seq<byte>, wrapIv: Iv,
                           later: Option<Key>)
    requires Do(Some(k), Wrap(c, id, magic, wrapIv)).1.Wrapped?
    ensures var blob := Do(Some(k), Wrap(c, id, magic, wrapIv)).1.blob;
            && Do(later, Unwrap(c, id, blob, magic)) == (Some(k), Answer(true))
            && Do(later, Verify(c, id, blob.verifier, magic)) == (later, Answer(true))
  {
  }

  /** Any other credential is told no and leaves the slot as it was. */
  lemma OnlyItsCredentialUnwraps(k: Key, c: Credential, other: Credential, id: Base64Of<seq<byte>>, magic: seq<byte>,
                                 wrapIv: Iv, later: Option<Key>)
    requires Do(Some(k), Wrap(c, id, magic, wrapIv)).1.Wrapped? && Derive(other).Success?
    ensures var blob := Do(Some(k), Wrap(c, id, magic, wrapIv)).1.blob;
            && Do(later, Unwrap(other, id, blob, magic)) ==
                 (if other == c then (Some(k), Answer(true)) else (later, Answer(false)))
            && Do(later, Verify(other, id, blob.verifier, magic)) == (later, Answer(other == c))
  {
  }

  /** A credential that is complete, with a salt Argon2 takes. */
  predicate Usable(c: Credential) {
    match c
    case Password(_, salt) => salt.Some? && |salt.value| >= 8
    case Authenticator(secret) => secret.Some?
  }

  /** An unlocked slot is wrapped if and only if the arguments decode and the credential is usable; a locked
      one never is. */
  lemma WrapsExactly(s: Option<Key>, c: Credential, id: Base64Of<seq<byte>>, magic: seq<byte>, wrapIv: Iv)
    ensures var r := Do(s, Wrap(c, id, magic, wrapIv)).1;
            && (r.Wrapped? <==> (s.Some? && id.Some? && Usable(c)))
            && (r == Failed(Locked) <==> (s.None? && id.Some? && Usable(c)))
            && (r == Failed(BadSalt) <==> (id.Some? && c.Password? && c.salt.Some? && |c.salt.value| < 8))
  {
  }

  function KekOf(c: Credential): Kek
    requires Usable(c)
  {
    match c
    case Password(password, salt) => FromPassword(password, salt.value)
    case Authenticator(secret) => FromSecret(secret.value)
  }

  /** The arguments decode and the credential is usable; `yes` says whether the verifier is its own. */
  predicate Checked(c: Credential, id: Base64Of<seq<byte>>, verifier: Base64Of<Tag>, magic: seq<byte>, yes: bool) {
    && Usable(c) && id.Some? && verifier.Some?
    && yes == (verifier.value == Tag(KekOf(c), magic + id.value))
  }

  lemma VerifiesExactly(s: Option<Key>, c: Credential, id: Base64Of<seq<byte>>, verifier: Base64Of<Tag>,
                        magic: seq<byte>, yes: bool)
    ensures var (t, r) := Do(s, Verify(c, id, verifier, magic));
            && t == s && (r == Answer(yes) <==> Checked(c, id, verifier, magic, yes))
            && (r.Answer? || r.Failed?)
  {
  }

  /** Unwrapping succeeds exactly on what wrapping that key under that credential makes, and says no exactly when
      the arguments decode and the verifier is not the credential's; it fails on everything else, and then as
      with a no the slot stays. */
  lemma UnwrapsExactly(s: Option<Key>, c: Credential, id: Base64Of<seq<byte>>, blob: SlotBlob, magic: seq<byte>)
    ensures var (t, r) := Do(s, Unwrap(c, id, blob, magic));
            && (r == Answer(true) <==>
                  exists k: Key, wrapIv: Iv :: Do(Some(k), Wrap(c, id, magic, wrapIv)).1 == Wrapped(blob))
            && (forall k: Key, wrapIv: Iv | Do(Some(k), Wrap(c, id, magic, wrapIv)).1 == Wrapped(blob) :: t == Some(k))
            && (r == Answer(false) <==> Checked(c, id, blob.verifier, magic, false))
            && (r != Answer(true) ==> t == s && (r == Answer(false) || r.Failed?))
  {
    if Do(s, Unwrap(c, id, blob, magic)).1 == Answer(true) {
      var k, wrapIv := blob.wrappedVek.value.body, blob.wrapIv.value;
      assert Do(Some(k), Wrap(c, id, magic, wrapIv)).1 == Wrapped(blob);
    }
  }

  // ----- entries -----

  /** A payload made under `k` decrypts exactly while `k` is the loaded key. */
  lemma EntryDecryptsUnderItsKeyOnly(k: Key, text: string, dek: Key, iv: Iv, dekIv: Iv, later: Option<Key>)
    ensures Do(later, DecryptEntry(EntryOf(k, text, dek, iv, dekIv)))
              == (later, if later == Some(k) then Text(text)
                         else if later == None then Failed(Locked)
                         else Failed(AesFailed))
  {
    Utf8.RoundTrip(text);
  }

  /** What decrypts is a text in UTF-8 under a key of 32 bytes, boxed under the key in the slot, each with a
      nonce of 12 bytes: nothing else does. */
  lemma DecryptsExactly(k: Key, p: Payload, text: string)
    ensures Do(Some(k), DecryptEntry(p)).1 == Text(text)
            <==> (exists dek: Key, iv: Iv, dekIv: Iv :: p == EntryOf(k, text, dek, iv, dekIv))
  {
    hide Utf8.Decode, Utf8.Encode;
    Utf8.RoundTrip(text);
    if Do(Some(k), DecryptEntry(p)).1 == Text(text) {
      var dek, iv, dekIv := p.wrappedDek.value.body, p.iv.value, p.dekIv.value;
      Utf8.DecodeIsInverse(p.ciphertext.value.body);
      assert p == EntryOf(k, text, dek, iv, dekIv);
    }
  }

  lemma OuterDecryptsUnderItsKeyOnly(k: Key, text: string, iv: Iv, later: Option<Key>)
    ensures Do(later, DecryptOuter(Some(iv), Some(Box(Plain(k), iv, Utf8.Encode(text)))))
              == (later, if later == Some(k) then Text(text)
                         else if later == None then Failed(Locked)
                         else Failed(AesFailed))
  {
    Utf8.RoundTrip(text);
  }

  // ----- portable files -----

  /** A file opens to a text exactly if it is that text sealed under the password, with any salt of at least eight
      bytes and any number of bytes for an id; it says the password is wrong exactly when its salt, id and
      verifier decode and the verifier is not the password's. */
  lemma OpensExactly(s: Option<Key>, password: string, f: Portable, magic: seq<byte>, text: string)
    ensures var (t, r) := Do(s, Open(password, f, magic));
            && t == s && (r.Opened? || r.Failed?)
            && (r == Opened(Some(text)) <==>
                  exists fileKey: Key, wrapIv: Iv, iv: Iv ::
                    && Do(Some(fileKey), Wrap(Password(password, f.salt), f.slotId, magic, wrapIv)).1 == Wrapped(f.blob)
                    && f.entriesIv == Some(iv) && f.entries == Some(Box(Plain(fileKey), iv, Utf8.Encode(text))))
            && (r == Opened(None) <==> Checked(Password(password, f.salt), f.slotId, f.blob.verifier, magic, false))
  {
    hide Utf8.Decode, Utf8.Encode;
    Utf8.RoundTrip(text);
    if Do(s, Open(password, f, magic)).1 == Opened(Some(text)) {
      var fileKey, wrapIv, iv := f.blob.wrappedVek.value.body, f.blob.wrapIv.value, f.entriesIv.value;
      Utf8.DecodeIsInverse(f.entries.value.body);
      assert Do(Some(fileKey), Wrap(Password(password, f.salt), f.slotId, magic, wrapIv)).1 == Wrapped(f.blob);
    }
  }

  /** A sealed file opens under its password and under no other, and neither sealing nor opening reads
      or changes the slot. */
  lemma PortableRoundTrip(text: string, pw: string, other: string, magic: seq<byte>, fileKey: Key, salt: Bytes16,
                          id: Bytes16, iv: Iv, wrapIv: Iv, s: Option<Key>, t: Option<Key>)
    ensures var sealed := Do(s, Seal(text, pw, magic, fileKey, salt, id, iv, wrapIv));
            && sealed.0 == s && sealed.1.Sealed?
            && Do(t, Open(other, sealed.1.file, magic)) == (t, Opened(if other == pw then Some(text) else None))
  {
    hide OpenedFile, SealedFile;
    FileRoundTrip(text, pw, other, magic, fileKey, salt, id, iv, wrapIv);
  }

  lemma FileRoundTrip(text: string, pw: string, other: string, magic: seq<byte>, fileKey: Key, salt: Bytes16,
                      id: Bytes16, iv: Iv, wrapIv: Iv)
    ensures OpenedFile(other, SealedFile(text, pw, magic, fileKey, salt, id, iv, wrapIv), magic)
         == Success(if other == pw then Some(text) else None)
  {
    Utf8.RoundTrip(text);
  }

  lemma PortableIgnoresTheSlot(s: Option<Key>, t: Option<Key>, op: Op)
    requires op.Seal? || op.Open?
    ensures Do(s, op).0 == s && Do(s, op).1 == Do(t, op).1
  {
  }

  // ----- sessions -----

  /** The slot after a whole history of operations. */
  function After(run: seq<Op>): Option<Key> {
    if run == [] then None else Do(After(run[..|run| - 1]), run[|run| - 1]).0
  }

  function ReplyAt(run: seq<Op>, i: nat): Reply
    requires i < |run|
  {
    Do(After(run[..i]), run[i]).1
  }

  /** An entry encrypted at one point of a history decrypts at the end of it exactly if the slot then
      holds the key it held at that point. */
  lemma EntryReadsBackIffSameKey(run: seq<Op>, i: nat)
    requires i < |run| && run[i].EncryptEntry? && ReplyAt(run, i).Entry?
    ensures (Do(After(run), DecryptEntry(ReplyAt(run, i).payload)).1 == Text(run[i].text))
            <==> (After(run) == After(run[..i]))
  {
    hide After;
    var op := run[i];
    EntryDecryptsUnderItsKeyOnly(After(run[..i]).value, op.text, op.dek, op.iv, op.dekIv, After(run));
  }

  /** The same for payloads encrypted directly under the vault key. */
  lemma OuterReadsBackIffSameKey(run: seq<Op>, i: nat)
    requires i < |run| && run[i].EncryptOuter? && ReplyAt(run, i).Outer?
    ensures var r := ReplyAt(run, i);
            (Do(After(run), DecryptOuter(Some(r.iv), Some(r.box))).1 == Text(run[i].text))
            <==> (After(run) == After(run[..i]))
  {
    hide After;
    OuterDecryptsUnderItsKeyOnly(After(run[..i]).value, run[i].text, run[i].iv, After(run));
  }

  /** If a slot was wrapped and an entry encrypted under one key, then after anything at all (locking,
      rotating, other vaults) unwrapping the slot makes the entry readable again. */
  lemma UnlockingRestoresAccess(run: seq<Op>, i: nat, j: nat)
    requires i < |run| && run[i].Wrap? && ReplyAt(run, i).Wrapped?
    requires j < |run| && run[j].EncryptEntry? && ReplyAt(run, j).Entry?
    requires After(run[..i]) == After(run[..j])
    ensures var unwrap := Unwrap(run[i].cred, run[i].slotId, ReplyAt(run, i).blob, run[i].magic);
            var history := run + [unwrap, DecryptEntry(ReplyAt(run, j).payload)];
            ReplyAt(history, |run|) == Answer(true) && ReplyAt(history, |run| + 1) == Text(run[j].text)
  {
    hide Do;
    var unwrap := Unwrap(run[i].cred, run[i].slotId, ReplyAt(run, i).blob, run[i].magic);
    var decrypt := DecryptEntry(ReplyAt(run, j).payload);
    var history := run + [unwrap, decrypt];
    LockedWrapsNothing(run[i], After(run[..i]));
    var k := After(run[..i]).value;
    WrappedSlotUnwraps(k, run[i].cred, run[i].slotId, run[i].magic, run[i].wrapIv, After(run));
    EntryMadeUnder(k, run[j]);
    EntryDecryptsUnderItsKeyOnly(k, run[j].text, run[j].dek, run[j].iv, run[j].dekIv, Some(k));
    assert history[..|run|] == run;
    assert history[..|run| + 1] == run + [unwrap] && (run + [unwrap])[..|run|] == run;
  }

  lemma LockedWrapsNothing(op: Op, s: Option<Key>)
    requires op.Wrap? && Do(s, op).1.Wrapped?
    ensures s.Some?
  {
  }

  lemma EntryMadeUnder(k: Key, op: Op)
    requires op.EncryptEntry?
    ensures Do(Some(k), op).1 == Entry(EntryOf(k, op.text, op.dek, op.iv, op.dekIv))
  {
  }

  /** The operation put `k` into the slot. */
  predicate Loads(slot: Option<Key>, op: Op, k: Key) {
    match op
    case Generate(vek) => vek == k
    case Rotate(vek) => slot.Some? && vek == k
    case UnlockWith(bytes) => bytes == Some(k)
    case Unwrap(c, id, blob, magic) =>
      && Derive(c).Success? && id.Some? && blob.verifier == Some(Tag(Derive(c).value, magic + id.value))
      && Recovered(Derive(c).value, blob) == Success(k)
    case _ => false
  }

  /** The slot holds `k` after a step if and only if the step put it there, or it was there and the step
      neither locked nor put in another. */
  lemma StepHolds(slot: Option<Key>, op: Op, k: Key)
    ensures Do(slot, op).0 == Some(k)
            <==> (Loads(slot, op, k) || (slot == Some(k) && op != Lock && forall other :: !Loads(slot, op, other)))
  {
    if !Loads(slot, op, k) && Do(slot, op).0.Some? && Do(slot, op).0 != slot {
      assert Loads(slot, op, Do(slot, op).0.value);
    }
  }

  /** The `j`-th step neither locked the slot nor put a key into it. */
  ghost predicate Quiet(run: seq<Op>, j: nat)
    requires j < |run|
  {
    run[j] != Lock && forall k :: !Loads(After(run[..j]), run[j], k)
  }

  /** The `i`-th step put `k` into the slot, and no later one locked it or put in anything. */
  ghost predicate SourceOf(run: seq<Op>, i: nat, k: Key) {
    && i < |run| && Loads(After(run[..i]), run[i], k)
    && forall j: nat | i < j < |run| :: Quiet(run, j)
  }

  lemma SourceEarlier(run: seq<Op>, i: nat, k: Key)
    requires run != []
    ensures var n := |run| - 1;
            SourceOf(run, i, k)
            <==> ((i == n && Loads(After(run[..n]), run[n], k)) || (SourceOf(run[..n], i, k) && Quiet(run, n)))
  {
    hide Loads, After, Quiet;
    var before := run[..|run| - 1];
    forall j: nat | j < |before|
      ensures before[..j] == run[..j] && Quiet(before, j) == Quiet(run, j)
    {
      QuietEarlier(run, j);
    }
  }

  lemma QuietEarlier(run: seq<Op>, j: nat)
    requires j + 1 < |run|
    ensures run[..|run| - 1][..j] == run[..j] && Quiet(run[..|run| - 1], j) == Quiet(run, j)
  {
    hide Loads, After;
    assert run[..|run| - 1][..j] == run[..j];
  }

  /** The slot holds a key at the end of a history if and only if it was generated, rotated in, handed over,
      or unwrapped from a slot blob by its own credential, and since then there has been no lock and
      nothing else put in. */
  lemma {:induction false} KeyHasASource(run: seq<Op>, k: Key)
    ensures After(run) == Some(k) <==> exists i: nat :: SourceOf(run, i, k)
    decreases |run|
  {
    hide Do, Loads, SourceOf;
    if run == [] {
      NoSource(k);
      return;
    }
    var n := |run| - 1;
    StepHolds(After(run[..n]), run[n], k);
    KeyHasASource(run[..n], k);
    forall i: nat
      ensures SourceOf(run, i, k)
              <==> ((i == n && Loads(After(run[..n]), run[n], k)) || (SourceOf(run[..n], i, k) && Quiet(run, n)))
    {
      SourceEarlier(run, i, k);
    }
    if Loads(After(run[..n]), run[n], k) {
      assert SourceOf(run, n, k);
    }
  }

  lemma NoSource(k: Key)
    ensures forall i: nat :: !SourceOf([], i, k)
  {
  }

  // ----- locked -----

  /** Operations that ask for the key in the slot, with arguments that are otherwise in order. */
  predicate AsksForTheKey(op: Op) {
    || op.Export? || op.Rotate? || op.EncryptEntry? || op.DecryptEntry? || op.EncryptOuter? || op.DecryptOuter?
    || (op.Wrap? && op.slotId.Some? && Usable(op.cred))
  }

  /** From a lock on, until a step loads a key, the slot is empty: it says so, and whatever asks for the key
      is refused. */
  lemma LockedUntilLoaded(run: seq<Op>, i: nat, op: Op)
    requires i < |run| && run[i] == Lock
    requires forall j: nat, k | i < j < |run| :: !Loads(After(run[..j]), run[j], k)
    ensures After(run) == None
    ensures Do(After(run), IsLocked).1 == Answer(true)
    ensures AsksForTheKey(op) ==> Do(After(run), op) == (None, Failed(Locked))
  {
    hide After, Loads, SourceOf, Do;
    if After(run).Some? {
      var k := After(run).value;
      KeyHasASource(run, k);
      var s: nat :| SourceOf(run, s, k);
      assert i < s < |run| ==> !Loads(After(run[..s]), run[s], k);
      SourceIsBefore(run, s, i, k);
    }
    EmptyRefuses(op);
  }

  lemma SourceIsBefore(run: seq<Op>, s: nat, i: nat, k: Key)
    requires SourceOf(run, s, k) && i < |run| && run[i] == Lock
    ensures i < s < |run| && Loads(After(run[..s]), run[s], k)
  {
    hide After;
    assert i > s ==> Quiet(run, i);
  }

  lemma EmptyRefuses(op: Op)
    ensures Do(None, IsLocked).1 == Answer(true)
    ensures AsksForTheKey(op) ==> Do(None, op) == (None, Failed(Locked))
  {
  }

  /** While a key is held, the slot says so and gives it out. */
  lemma UnlockedIsOpen(run: seq<Op>, k: Key)
    requires After(run) == Some(k)
    ensures Do(After(run), IsLocked) == (Some(k), Answer(false))
    ensures Do(After(run), Export) == (Some(k), Exported(k))
    ensures After(run + [Lock]) == None
  {
    hide After;
    assert (run + [Lock])[..|run|] == run;
    Locks(run);
  }

  lemma Locks(run: seq<Op>)
    ensures After(run + [Lock]) == None
  {
  }
}
