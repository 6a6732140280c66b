# Verified models of Vautix

Dafny models of the parts of Vautix whose correctness is hardest to see by reading: the KDBX4 importer
and exporter, the migration of vault storage, the VLT1 vault container, the state machines that keep
sync, keys, handshakes, the relay and native WebRTC in order, and the canonical query of a signed
request. `dafny verify dfyconfig.toml` checks everything.

Code that changes state step by step is modelled by methods and classes, each proved against a function
of its inputs or of the old state; what the repository promises is then proved about those functions, for
all inputs, runs or interleavings.

| files | models |
|---|---|
| `Wrappers`, `Bytes`, `Utf8`, `Base64` | results, little-endian integers, key-stream XOR, UTF-8, Base64 |
| `Xml`, `KdbxTypes` | XML events, references, escaping, how events are written out |
| `KdbxWalker`, `KdbxTree`, `KdbxOnePass`, `KdbxCoverage`, `KdbxFolders` | the one-pass XML reader, the two-phase meaning of a document tree, their equality, which documents have a tree, and how an entry tells the groups it lay in |
| `KdbxWriter`, `KdbxXmlText`, `KdbxPrintable`, `KdbxReadBack` | the exported document, the text that `build_xml` writes, and reading it back |
| `KdbxFrame`, `KdbxBlocks`, `KdbxFile`, `KdbxRoundTrip`, `KdbxHeaders`, `KdbxForeign`, `KdbxExport`, `KdbxExportText`, `KdbxTampering`, `KdbxLaws` | cursor, fields, dictionary, block stream, whole files, save-then-open, what headers say, databases that other programs wrote, an export byte by byte and its document as text, what can be made of a saved file, and that the assumed laws are consistent |
| `StorageMachine` to `StorageAdapter` | racing and dying migrations, when the vault survives, what readers see, the adapter's own code |
| `VaultFormat`, `VaultLayout`, `VaultReading` | the VLT1 encoder and decoder, where everything stands in an encoded vault, and what is read from any bytes |
| `SyncSessions` | starting and stopping sync sessions through a promise chain |
| `KeySlot`, `KeyHost` | the in-memory key slot over symbolic cryptography, and the host that shares it between vaults |
| `Handshake`, `HandshakeTrace` | Noise sessions in a handle registry, and a session told by its own messages |
| `RelayMatching`, `Relay`, `RelayDelivery`, `RelayMeaning`, `RelayOrder` | the publish/subscribe relay: filters that can throw, its steps, who receives what in every history, what a filter asks for, and in which order subscriptions are searched |
| `NativePeers` | the ordered operation queue and event routing of the native WebRTC shim |
| `SigV4` | percent-encoding and the canonical query |

Cryptography, compression and the XML tokenizer are library code. For KDBX files they are a record of
functions (`KdbxFile.Library`) with the laws the code relies on (`KdbxFile.Lawful`): digests have their
length, decryption undoes encryption, decompression undoes compression, and the tokenizer gives back the
events of a document from its text, where a document is a declaration followed by properly nested
elements with plain names and references (`Xml.Readable`); nothing is asked of it for any other text.
`KdbxLaws.LawsAreConsistent` exhibits a library that satisfies all laws. Elsewhere cryptography is
symbolic: sealed values record the key that sealed them.

## What turned out not to hold everywhere

- Storage migration can lose the vault from exactly the starts that `StorageSafety.SafeStart` excludes
  (`StorageLoss.SafeExactly`): without a registry, when the flat keys hold data but no blob, a legacy file
  handle is stored, and reading that handle may fail, since the code cannot tell a failed read from there
  being no handle; with a vault registered as flat, when its record is missing, or when its data has no
  blob, snapshot or sync group and no handle can be relied on to keep it from being reaped.
- `decodeVaultBlob(encodeVaultBlob(v))` gives back `v` exactly when every opaque slot kind fits a byte
  (`VaultFormat.RoundTrip`; `TruncatedKindIsLost` is a vault that does not come back), and
  `encodeVaultBlob(decodeVaultBlob(b))` gives back `b` exactly when every password and recovery payload is
  124 bytes long (`VaultFormat.DecodedReencodes`; `LongPayloadIsCut` is an input that changes).
- The relay's guard compares whatever JSON value stands for the kind. Events with a number for a kind pass
  exactly if they are ephemeral, but events without a kind, or with a string, array or object that converts
  to no number or to one in the range, pass too (`RelayDelivery.GuardIsExact`,
  `RelayDelivery.WhatPassesIsRelayed`), although the relay's comment says that only ephemeral events are
  fanned out.
- The relay stores filters unchecked, and matching one can throw, which ends the fan-out of the event: a
  peer with a matching subscription gets its copy if and only if matching throws neither at a socket
  listed before it nor at a filter of its own before its first match
  (`RelayDelivery.DeliveredUnlessThrown`; `RelayMatching.ThrowsExactly` says on which filters and events
  it throws, and `RelayDelivery.NullStopsDelivery` is a history with the filter null).
- A socket's subscriptions are bounded by nineteen, not eight, since names that every JavaScript object
  inherits count as present (`RelayDelivery.AlwaysGood`, `RelayDelivery.NineteenAreHeld`), and one under the
  id `__proto__` is acknowledged but never held (`RelayDelivery.AcknowledgedButLost`).
- A relay that cannot be reached does cost the local peer, although the comment on the second start says it
  does not: a start leaves a local session if and only if both calls succeed, and when the first fails the
  sessions of before have already been stopped (`SyncSessions.LocalPeerNeedsBoth`,
  `SyncSessions.RelayFailureCostsTheLocalPeer`).
- If creating a native peer fails, the first queued operation is skipped and later ones reach the native
  side without a handle (`NativePeers.HandlelessIffRejected`, `NativePeers.CallWithoutHandle`).
- A connection closed before its handle is minted still receives that handle's events afterwards
  (`NativePeers.ClosedTooEarlyStillReceives`; `NativePeers.EventsReachTheirConnectionOnly` counts only
  closes that follow minting).

## Model

| member | source | states |
|---|---|---|
| Utf8.RoundTrip | packages/core-rust/src/kdbx.rs:808-811 | every string survives being turned into bytes and back |
| Utf8.DecodeIsInverse | packages/core-rust/src/kdbx.rs:609-613 | bytes that are accepted as UTF-8 are the encoding of what they are read as |
| Base64.RoundTrip | packages/core-rust/src/kdbx.rs:808-811 | decoding a protected value gives back the bytes the writer encoded |
| Base64.DecodeIsInverse | packages/core-rust/src/kdbx.rs:609-611 | text that decodes is the encoding of what it decodes to: non-canonical padding and trailing bits are refused |
| Bytes.ApplyTwice | packages/core-rust/src/kdbx.rs:610-611 | applying the key stream twice from one position cancels |
| Bytes.XorIsBitwise | packages/core-rust/src/kdbx.rs:610-611 | a bit of a byte after the key stream is applied is set exactly if one of the two is |
| Bytes.LeRoundTrip | packages/core-rust/src/kdbx.rs:731-737 | a little-endian integer reads back exactly when it fits its width |
| Xml.RunsRoundTrip | packages/core-rust/src/kdbx.rs:570-606 | text escaped for XML, read as text and entity references, is the original text, metacharacters included |
| Xml.CharacterReferences | packages/core-rust/src/kdbx.rs:585-600 | a numeric reference, decimal or hexadecimal in either case and with any zeros in front, stands for the character of that number, and for nothing if there is none |
| Xml.RenderRuns | packages/core-rust/src/kdbx.rs:795-815 | the events of an escaped text are written exactly as the escaper writes them |
| KdbxWalker.ParseInnerXml | packages/core-rust/src/kdbx.rs:517-675 | the loop over events, with its stacks, mode and cipher position, computes `Walk`, the step function folded over the events, errors included |
| KdbxWalker.FeedConcat | packages/core-rust/src/kdbx.rs:517-675 | reading two event lists in a row is reading their concatenation, the first error winning |
| KdbxTree.ValuesAreMetInPlace | packages/core-rust/src/kdbx.rs:556-620 | in the two-phase meaning every value becomes a field under the last key before it, and a protected non-empty one is decrypted at the total decoded length of the earlier ones |
| KdbxTree.DocumentValues | packages/core-rust/src/kdbx.rs:560-620 | the first phase makes exactly as many fields as the tree of the document has values, so that the second can put each in its place |
| KdbxOnePass.WalkNode | packages/core-rust/src/kdbx.rs:517-675 | over any subtree the walker's stacks, history depth and mode return to what they were (the innermost group's name growing by the names met outside entries), and what it adds is what the two phases yield |
| KdbxOnePass.WalkForest | packages/core-rust/src/kdbx.rs:517-675 | the same for any list of subtrees, keys and group names carrying over from one to the next |
| KdbxOnePass.OnePassIsTwoPhase | packages/core-rust/src/kdbx.rs:517-675 | for every document tree, with keys, values, names and anything between them standing anywhere, the one-pass machine returns what making fields of all values first and selecting afterwards returns: entries outside history and recycle bin, with the group path as named so far, or the same error |
| KdbxCoverage.EveryDocumentHasItsMeaning | packages/core-rust/src/kdbx.rs:517-675 | every properly nested event list in which keys, values, tags and names hold no other meaningful element has such a tree (in which only values are marked as protected, as it makes no difference elsewhere), so the walk over it is its two-phase meaning |
| KdbxCoverage.CutOffByFault | packages/core-rust/src/kdbx.rs:547-675 | a document the tokenizer gives up on is never read in part: the walk fails, with the first error met |
| KdbxFolders.EntriesAreFiled | packages/core-rust/src/kdbx.rs:637-664 | every entry the walk returns, from whatever document, has its own fields and, exactly if it lay in named groups within the outermost, a last field "Group" in clear whose pieces between slashes are those groups' names from the outside in |
| KdbxXmlText.WriteEntry | packages/core-rust/src/kdbx.rs:788-819 | the loop that writes one entry writes the text of its tree, spending the key stream field by field |
| KdbxXmlText.BuildXml | packages/core-rust/src/kdbx.rs:768-822 | the text written is the rendering of the document tree of the entries |
| KdbxExportText.ExportText | packages/core-rust/src/kdbx.rs:778-821 | the text of an export written out: declaration, settings, one group, and per entry its id, tags and keyed fields, protected values in Base64 after the key stream |
| KdbxPrintable.DocumentIsReadable | packages/core-rust/src/kdbx.rs:778-821 | whatever the entries contain, the events written are a declaration and properly nested elements, with names, references and character data a reader can give back |
| KdbxReadBack.ExportReadsBack | packages/core-rust/src/kdbx.rs:768-822 | every list of entries reads back in normal form (first non-empty tags to the front, other tags and empty keys dropped, the rest in order with its protected flag), reader and writer at the same key-stream position |
| KdbxReadBack.RevealWritten | packages/core-rust/src/kdbx.rs:807-815 | what is written into one value element, protected or not, empty or not, is revealed from the position it was written at, spending the same key stream |
| KdbxReadBack.RevealMeans | packages/core-rust/src/kdbx.rs:607-616 | on any text: a protected value is revealed exactly if it is the Base64 of what the key stream at its position makes of a text in UTF-8, at the cost of as many bytes, and fails as no Base64 or no UTF-8 |
| KdbxReadBack.ReadField | packages/core-rust/src/kdbx.rs:800-817 | one written string element reads back as its field, after any key |
| KdbxWriter.NormalFormIsStable | packages/core-rust/src/kdbx.rs:795-803 | the normal form of an entry is its own normal form |
| KdbxWriter.NormalFormMeans | packages/core-rust/src/kdbx.rs:795-803 | the normal form is the first value under "Tags" that is not empty, in clear, and then all fields under other keys, unchanged and in order |
| KdbxFrame.Cursor.Take | packages/core-rust/src/kdbx.rs:136-149 | takes exactly the next bytes and advances past them, or fails and stays inside the input |
| KdbxFrame.Cursor.Uint | packages/core-rust/src/kdbx.rs:150-159 | reads a little-endian integer of the given width under the same bounds check |
| KdbxFrame.ReadField | packages/core-rust/src/kdbx.rs:394-397 | reads one length-prefixed field and always advances by at least five bytes |
| KdbxFrame.FieldRoundTrip | packages/core-rust/src/kdbx.rs:731-737 | a written field reads back, wherever it stands, exactly when its length fits 32 bits |
| KdbxFrame.ParseVariantDict | packages/core-rust/src/kdbx.rs:173-199 | the loop over the dictionary computes the recursive reading of its items, on arbitrary bytes |
| KdbxFrame.DictRoundTrip | packages/core-rust/src/kdbx.rs:749-766 | a dictionary written for any parameters that fit its widths reads back as these parameters |
| KdbxFrame.ReadBlockStream | packages/core-rust/src/kdbx.rs:439-458 | the block loop ends on arbitrary bytes and computes the recursive reading of the blocks |
| KdbxFrame.WriteBlockStream | packages/core-rust/src/kdbx.rs:887-903 | the chunking loop writes every block with its index, then the one empty block |
| KdbxFrame.BlocksRoundTrip | packages/core-rust/src/kdbx.rs:887-903 | whatever was cut into blocks of any size comes back whole, the reader stopping at the only empty block |
| KdbxBlocks.AcceptedIsTagged | packages/core-rust/src/kdbx.rs:439-458 | conversely, any bytes the block loop accepts are non-empty blocks tagged with consecutive indices and then an empty one, and the text is what they hold in order |
| KdbxBlocks.OnlyTheSealedStream | packages/core-rust/src/kdbx.rs:439-458 | for any tags that tell the writer's blocks from what else stands in the stream: an accepted stream that carries none but the writer's tags is all of the writer's blocks in order; dropped, repeated, reordered and cut-off blocks are refused |
| KdbxFile.BudgetBoundsWork | packages/core-rust/src/kdbx.rs:201-248 | parameters that pass the budget bound memory times passes and fit the conversions that follow |
| KdbxFile.ParseHeader | packages/core-rust/src/kdbx.rs:394-410 | the outer header loop computes the recursive reading of its fields and ends on arbitrary bytes |
| KdbxFile.ParseInner | packages/core-rust/src/kdbx.rs:489-505 | the same for the inner header |
| KdbxFile.OpenInner | packages/core-rust/src/kdbx.rs:378-512 | opening computes `OpenFile`: checks in the source's order, each with its error |
| KdbxFile.OpenAuthenticated | packages/core-rust/src/kdbx.rs:427-512 | what follows the header computes `OpenBody`, error for error |
| KdbxFile.NothingIsReadUnauthenticated | packages/core-rust/src/kdbx.rs:427-458 | if the header's hash, its tag or a block's tag is wrong, the outcome is a failure that does not depend on any decryption, decompression or parsing |
| KdbxFile.PushField | packages/core-rust/src/kdbx.rs:731-737 | appends identifier, 32-bit length and data |
| KdbxFile.PushVariant | packages/core-rust/src/kdbx.rs:739-747 | appends type, key and value with their lengths |
| KdbxFile.BuildKdfDict | packages/core-rust/src/kdbx.rs:749-766 | writes the dictionary that `DictRoundTrip` is about |
| KdbxFile.BuildHeader | packages/core-rust/src/kdbx.rs:851-862 | writes the header that `HeaderRoundTrip` is about |
| KdbxFile.SaveInner | packages/core-rust/src/kdbx.rs:826-905 | saving computes `SaveFile`, the file that `SavedFileOpens` is about, or the source's error |
| KdbxRoundTrip.HeaderRoundTrip | packages/core-rust/src/kdbx.rs:394-410 | a header written for any cipher, compression, seed, nonce and KDF reads back field by field, ending where the body starts |
| KdbxRoundTrip.InnerRoundTrip | packages/core-rust/src/kdbx.rs:489-509 | the written inner header reads back, leaving exactly the document |
| KdbxRoundTrip.ExportPassesBudget | packages/core-rust/src/kdbx.rs:864-873 | the parameters every export uses pass the importer's work budget |
| KdbxRoundTrip.BodyRoundTrip | packages/core-rust/src/kdbx.rs:427-512 | everything after the header, whatever follows the last block, opens under the keys that sealed it, and is refused as a wrong credential when the keys tag the header differently |
| KdbxRoundTrip.SavedFileOpens | packages/core-rust/src/kdbx.rs:826-905 | for all entries and all random bytes saving succeeds exactly for non-empty passwords, and opening the saved file returns the normal form of every entry |
| KdbxRoundTrip.SecondExportIsFaithful | packages/core-rust/src/kdbx.rs:826-905 | exporting what was imported from an export, and importing that, returns the same entries again |
| KdbxRoundTrip.SavedFileUnder | packages/core-rust/src/kdbx.rs:378-512 | opening a saved file with any other password or key file: the entries if the derived keys agree, a wrong credential if they tag the header differently |
| KdbxHeaders.HeaderMeans | packages/core-rust/src/kdbx.rs:389-410 | on arbitrary bytes: the outer header is read, and ends where it does, if and only if fields and an end field stand there; each value is that of the last field of its id, empty or zero without one |
| KdbxHeaders.InnerMeans | packages/core-rust/src/kdbx.rs:488-505 | the same for the inner header |
| KdbxHeaders.DictMeans | packages/core-rust/src/kdbx.rs:173-199 | the same for the KDF dictionary: every parameter is what the last item of its name says, numbers in exactly their width |
| KdbxExport.PreambleMeans | packages/core-rust/src/kdbx.rs:378-392 | a file is taken for a version 4 database if and only if it begins with the eight bytes of the signature and that version; otherwise which error it is |
| KdbxForeign.TransformMeans | packages/core-rust/src/kdbx.rs:201-250 | the transformed key is what the Argon2 that the UUID names, in the version the dictionary names, makes of the composite key, if and only if the cost is at most 1 GiB, 64 lanes and 64 GiB of passes and the library takes the parameters |
| KdbxForeign.CompositeMeans | packages/core-rust/src/kdbx.rs:250-349 | the composite key is the digest of the digest of a non-empty password and of the key file's key: an XML key file's, else 32 bytes as they are, else what 64 hexadecimal digits in either case spell, else the digest of the file |
| KdbxForeign.ForeignFileOpens | packages/core-rust/src/kdbx.rs:378-512 | any database with a supported cipher and either Argon2 at an allowed cost, with a key file or without, sealed under what that Argon2 makes of its composite key, compressed or not, cut into blocks in any way, opens to what the walk over its document gives, with the key stream its inner header names |
| KdbxForeign.ForeignRoundTrip | packages/core-rust/src/kdbx.rs:378-512 | entries sealed under any such header, password and key file come back in normal form |
| KdbxForeign.OnlyTheNamedArgonCounts | packages/core-rust/src/kdbx.rs:201-250 | two libraries that differ at most at the Argon2 a header does not name open the file alike |
| KdbxForeign.Refuses | packages/core-rust/src/kdbx.rs:414-425 | what a file is refused for once its header is read, and in this order: cipher, KDF, cost, Argon2 |
| KdbxForeign.RefusesTheSeal | packages/core-rust/src/kdbx.rs:427-437 | and then for a header that is not the one digested, or not tagged under the derived key (a wrong credential) |
| KdbxExport.ExportDictionary | packages/core-rust/src/kdbx.rs:749-766 | the dictionary of an export, byte by byte: Argon2id with 64 MiB, 3 passes, 1 lane, version 0x13 |
| KdbxExport.ExportHeader | packages/core-rust/src/kdbx.rs:851-862 | the header of an export, byte by byte |
| KdbxExport.ExportFile | packages/core-rust/src/kdbx.rs:826-905 | a whole export: header, its digest and tag under what Argon2id makes of the password, then in blocks of exactly 1 MiB but for the last the inner header and document, gzipped and enciphered |
| KdbxTampering.OnlyTheSavedFileOpens | packages/core-rust/src/kdbx.rs:378-512 | of all files in which no tags stand but a saved file's, and no message that collides with one of its own under the code's HMAC with its 64-bit index, exactly those open under its password that begin with the saved file (what follows is not read), and they open to its entries |
| KdbxTampering.SavedCarriesItsTags | packages/core-rust/src/kdbx.rs:887-903 | every file that begins with a saved one carries none but its tags |
| KdbxTampering.CanBeKeptApart | packages/core-rust/src/kdbx.rs:439-458 | whatever the rest of the library, there are tags under which the same blocks are saved and no file whatever contains a collision |
| KdbxLaws.LawsAreConsistent | packages/core-rust/src/kdbx.rs:378-512 | some library satisfies all assumed laws at once |
| StorageFresh.InvStep | packages/platform-extension/src/storage.ts:126-198 | the invariant of migrations without a registry is kept by every step of every document, by starting one and by killing one |
| StorageRegistered.InvStep | packages/platform-extension/src/storage.ts:126-140 | the same for a storage that already has a registry |
| StorageSafety.SafeStartsStaySafe | packages/platform-extension/src/storage.ts:82-198 | from a safe start, in every reachable state of racing and dying documents the vault is whole under its flat keys or under a registered id |
| StorageLoss.SafeExactly | packages/platform-extension/src/storage.ts:82-198 | the safe starts are exactly those from which no run loses the vault |
| StorageLoss.LostByEmptyRegistry | packages/platform-extension/src/storage.ts:142-153 | the run that loses it when a failed handle read makes one document publish an empty registry over another's |
| StorageLoss.LostAsGhost | packages/platform-extension/src/storage.ts:107-124 | the run that reaps a migrated vault whose data looks like a ghost's |
| StorageReads.ReadersSeeTheVault | packages/platform-extension/src/storage.ts:230-243 | starting with a flat blob and no registry, every read of the first vault returns the original bytes, none is told there is no vault, and once a document has finished the registry lists exactly one vault |
| StorageReads.FlatVaultReadsBack | packages/platform-extension/src/storage.ts:230-243 | a vault registered as flat reads back as its original bytes in every interleaving |
| StorageReads.FinishedHoldsTheFlatVault | packages/platform-extension/src/storage.ts:126-139 | once a document has finished, that vault is whole under its own id, and still listed if it was and cannot be taken for a ghost |
| StorageReads.MigratedRecordsAreNeverReaped | packages/platform-extension/src/storage.ts:107-124 | after migrating a flat blob no document ever gets as far as writing a sifted registry |
| StorageReads.ReapKeepsRecords | packages/platform-extension/src/storage.ts:107-124 | from every start, in every interleaving, the registry a reap writes still lists every record under which a blob, a recovery snapshot or a sync group is stored |
| StorageReads.RecordsWithDataStayListed | packages/platform-extension/src/storage.ts:82-198 | a record that was registered at the start stays listed while one of the three is stored under it, in every reachable state |
| StorageReads.EveryStepAdvances | packages/platform-extension/src/storage.ts:92-168 | every step brings a document nearer its end whatever the others do |
| StorageAdapter.Storage.CopyFlatVaultToNamespaced | packages/platform-extension/src/storage.ts:178-192 | copies whatever flat keys there are over the vault's own, and writes nothing if there are none |
| StorageAdapter.Storage.MigrateNamespacing | packages/platform-extension/src/storage.ts:126-168 | the migration code, uninterrupted, does what the document's steps of the state machine do up to reaping |
| StorageAdapter.Storage.ReapGhostRecords | packages/platform-extension/src/storage.ts:107-124 | the loop over records, uninterrupted, does what the reap steps do |
| StorageAdapter.Storage.RunMigration | packages/platform-extension/src/storage.ts:96-99 | migrate then reap is the whole solo run |
| StorageAdapter.Document.ReadVaultBlob | packages/platform-extension/src/storage.ts:230-236 | reading migrates once per document and then fetches the blob of the vault asked for, or of the first one |
| StorageAdapter.AloneIsARun | packages/platform-extension/src/storage.ts:82-198 | a solo run is a run of the state machine, so everything proved about runs applies to it |
| StorageAdapter.SoloRunKeepsExactly | packages/platform-extension/src/storage.ts:101-124 | a solo run over a registry leaves exactly the records under which one of the three is stored, in their order, or all of them if it sees a legacy file handle |
| StorageAdapter.CopyOverwrites | packages/platform-extension/src/storage.ts:178-192 | a copy of the flat keys wins over what the vault's own keys held and touches nothing else |
| StorageAdapter.ReadsWhatIsStored | packages/platform-extension/src/storage.ts:230-243 | a read gives the non-empty text stored under the blob key of the vault asked for, or of the first one listed, and nothing otherwise |
| StorageAdapter.SoloRunRecovers | packages/platform-extension/src/storage.ts:82-243 | from any state that racing documents died in, one further document running alone ends with exactly one registered vault holding everything, and reads the original bytes |
| StorageAdapter.SoloRunRecoversRegistered | packages/platform-extension/src/storage.ts:82-243 | the same for a vault that was registered as flat: one solo run leaves it whole under its own id, reading back its bytes, and still listed if it was and cannot be taken for a ghost |
| VaultFormat.EncodeVaultBlob | packages/core/src/vault-format.ts:230-263 | measure then fill computes the layout, every write in bounds and the last one ending at the measured length, or the source's error |
| VaultFormat.Measure | packages/core/src/vault-format.ts:233-240 | the first pass computes the length of all slots, or reports the first payload over 65535 bytes |
| VaultFormat.Fill | packages/core/src/vault-format.ts:250-258 | the second pass fills exactly the room the first one measured |
| VaultFormat.DecodeVaultBlob | packages/core/src/vault-format.ts:266-317 | the bounds-checked loop computes the recursive reading, with the source's error for every malformed input |
| VaultFormat.SlotsReadBack | packages/core/src/vault-format.ts:294-307 | any list of slots read from its encoding is that list, leaving what follows |
| VaultFormat.SlotsWriteBack | packages/core/src/vault-format.ts:294-307 | slots that were read can be written again, in as many bytes exactly when the payload lengths were canonical, and then the same bytes |
| VaultFormat.DecodedSlot | packages/core/src/vault-format.ts:168-227 | one read slot encodes to its payload, up to what a password or recovery payload holds beyond 124 bytes; unknown kinds verbatim |
| VaultFormat.RoundTrip | packages/core/src/vault-format.ts:230-317 | a vault that encodes decodes to itself if and only if every opaque kind fits a byte |
| VaultFormat.DecodedReencodes | packages/core/src/vault-format.ts:266-317 | every accepted input re-encodes, never longer, and to itself if and only if its payload lengths are canonical |
| VaultFormat.TruncatedKindIsLost | packages/core/src/vault-format.ts:253-253 | a valid vault, with a slot of kind 257, that does not decode to itself |
| VaultFormat.LongPayloadIsCut | packages/core/src/vault-format.ts:168-180 | an accepted input, with a password payload of 125 bytes, that re-encodes to something else |
| VaultFormat.DecodeIsIdempotent | packages/core/src/vault-format.ts:266-317 | decode, encode, decode is decode, on every accepted input |
| VaultFormat.EncodeIsInjective | packages/core/src/vault-format.ts:230-263 | different vaults with byte-sized kinds have different encodings |
| VaultLayout.EncodesExactly | packages/core/src/vault-format.ts:230-263 | a vault is encoded if and only if it has 1 to 16 slots with fields of their lengths, opaque kinds other than the three known ones, no payload over 65535 bytes, and a nonce of 12 bytes |
| VaultLayout.VaultStands | packages/core/src/vault-format.ts:230-263 | an encoded vault byte by byte: magic, version, number of slots, each slot where the ones before it end, with its kind, its length in two bytes, the larger first, and its fields at their offsets, then nonce and ciphertext |
| VaultLayout.KindIsCut | packages/core/src/vault-format.ts:253-253 | an opaque kind is stored as its whole part modulo 256 |
| VaultLayout.RefusesTheFirstTooLarge | packages/core/src/vault-format.ts:233-240 | an otherwise sound vault is refused for the first payload over 65535 bytes |
| VaultReading.DecodesExactly | packages/core/src/vault-format.ts:266-317 | on arbitrary bytes: a vault is read if and only if front, every slot where the lengths before it lead, and nonce are in order, and then it holds what stands there; otherwise the error is that of the first thing wrong |
| SyncSessions.SyncHost.StopSyncSessions | packages/platform-extension/src/offscreen-core.ts:144-150 | stops the live sessions, relay first, and forgets them and their key |
| SyncSessions.SyncHost.StartSyncSessions | packages/platform-extension/src/offscreen-core.ts:156-177 | one start handler, with every way its awaits can turn out, is the sequential step |
| SyncSessions.HandlersAreSerial | packages/platform-extension/src/offscreen-core.ts:600-654 | the chain alone makes handlers run one at a time in the order of arrival, in every interleaving |
| SyncSessions.ResultIsTheFold | packages/platform-extension/src/offscreen-core.ts:600-654 | once all handlers have settled, memory is the fold of the messages in arrival order |
| SyncSessions.NoSessionLeaks | packages/platform-extension/src/offscreen-core.ts:129-177 | at every moment every session ever started is live or stopped exactly once, and a recorded key means two live sessions started under it |
| SyncSessions.StopsFollowStarts | packages/platform-extension/src/offscreen-core.ts:144-177 | at every moment, sessions have been stopped in the order they were started, and those still live are the last |
| SyncSessions.RepeatChangesNothing | packages/platform-extension/src/offscreen-core.ts:156-159 | a repeat of the live configuration starts and stops nothing |
| SyncSessions.KeyTells | packages/platform-extension/src/offscreen-core.ts:139-141 | two configurations count as the same if and only if relay, group key, device and ICE server agree, where no server is as good as an empty one |
| SyncSessions.DisconnectLeavesNothing | packages/platform-extension/src/offscreen-core.ts:600-610 | a disconnect is not overtaken: when it came last, nothing is live and every session was stopped once |
| SyncSessions.LocalPeerNeedsBoth | packages/platform-extension/src/offscreen-core.ts:156-177 | when the last message asks for a sync not running yet and the wasm loads, a local session is live in the end if and only if both starts succeed; if the first fails, nothing is live and all sessions were stopped |
| SyncSessions.RelayFailureCostsTheLocalPeer | packages/platform-extension/src/offscreen-core.ts:170-173 | from every settled history with a live local session, a continuation in which a changed configuration and a failing relay leave none |
| SyncSessions.SomeHandlerCanGoOn | packages/platform-extension/src/offscreen-core.ts:137-137 | while a handler has not settled, some handler can take its next step |
| KeySlot.CtEq | packages/core-rust/src/lib.rs:228-237 | the constant-time comparison is equality |
| KeySlot.Core.LoadVek | packages/core-rust/src/lib.rs:209-217 | loads keys of 32 bytes and refuses others without touching the slot |
| KeySlot.Core.UnwrapVek | packages/core-rust/src/lib.rs:536-609 | verify, unwrap, load: the slot changes only if all succeed |
| KeySlot.Core.WrapVek | packages/core-rust/src/lib.rs:270-290 | wraps the loaded key under the credential's key, or fails in the source's order |
| KeySlot.Core.RotateVek | packages/core-rust/src/lib.rs:484-493 | replaces the key, but refuses on a locked slot |
| KeySlot.WrappedSlotUnwraps | packages/core-rust/src/lib.rs:536-560 | a slot wrapped while the key was k unwraps to k under its credential, whatever the slot holds by then |
| KeySlot.OnlyItsCredentialUnwraps | packages/core-rust/src/lib.rs:536-609 | any other credential gets false, from unwrapping and from verifying, and leaves the slot alone |
| KeySlot.WrapsExactly | packages/core-rust/src/lib.rs:270-290 | a slot is wrapped if and only if a key is held, the arguments decode and the credential is usable; which failure it is otherwise |
| KeySlot.VerifiesExactly | packages/core-rust/src/lib.rs:512-530 | verifying answers if and only if the arguments decode and the credential is usable, and says yes exactly to its own verifier |
| KeySlot.UnwrapsExactly | packages/core-rust/src/lib.rs:536-609 | unwrapping succeeds on exactly what wrapping some key under that credential makes, and loads that key; it says no exactly to a foreign verifier, and otherwise fails without touching the slot |
| KeySlot.EntryDecryptsUnderItsKeyOnly | packages/core-rust/src/lib.rs:614-630 | an entry made under k decrypts exactly while k is loaded, with the right error otherwise |
| KeySlot.OuterDecryptsUnderItsKeyOnly | packages/core-rust/src/lib.rs:635-642 | the same for payloads encrypted directly under the vault key |
| KeySlot.DecryptsExactly | packages/core-rust/src/lib.rs:614-630 | nothing else decrypts than a UTF-8 text under a 32-byte key boxed under the key in the slot, each with a nonce of 12 bytes |
| KeySlot.PortableRoundTrip | packages/core-rust/src/lib.rs:315-376 | a portable vault opens under its password only, and sealing and opening leave the slot alone |
| KeySlot.OpensExactly | packages/core-rust/src/lib.rs:351-376 | a portable file opens to a text exactly if it is that text sealed under the password, and the password is called wrong exactly when the verifier is not its own |
| KeySlot.PortableIgnoresTheSlot | packages/core-rust/src/lib.rs:315-376 | sealing and opening never read the slot either |
| KeySlot.EntryReadsBackIffSameKey | packages/core-rust/src/lib.rs:399-420 | at the end of any history an entry decrypts if and only if the slot holds the key it held when the entry was made |
| KeySlot.OuterReadsBackIffSameKey | packages/core-rust/src/lib.rs:635-642 | the same for payloads encrypted directly under the vault key |
| KeySlot.UnlockingRestoresAccess | packages/core-rust/src/lib.rs:437-642 | after any history, unwrapping a slot makes the entries of its key readable again |
| KeySlot.KeyHasASource | packages/core-rust/src/lib.rs:200-217 | the slot holds a key at the end of a history if and only if some step generated it, rotated it in, was handed it or unwrapped it by its own credential, and no later step locked the slot or put in another |
| KeySlot.LockedUntilLoaded | packages/core-rust/src/lib.rs:446-448 | from a lock on, until a step loads a key, the slot is empty, says so, and refuses export, rotation, both encryptions and decryptions, and wraps whose arguments are in order |
| KeyHost.Host.WrapWithVek | packages/platform-extension/src/offscreen-core.ts:323-347 | load the injected key, then wrap, as one section |
| KeyHost.Host.UnwrapSlot | packages/platform-extension/src/offscreen-core.ts:382-408 | unwrap then export as one section |
| KeyHost.Host.DecryptBatch | packages/platform-extension/src/offscreen-core.ts:360-368 | one load, then every entry in order, failing at the first that fails |
| KeyHost.RepliesDoNotMix | packages/platform-extension/src/offscreen-core.ts:279-409 | in every interleaving of host calls, a call that brings its own key is answered as if it ran alone |
| KeyHost.AnsweredUnderItsKey | packages/platform-extension/src/offscreen-core.ts:279-377 | a call that brings a 32-byte key is answered as on a slot that holds it; one whose key does not decode or has another length is refused |
| KeyHost.EntriesReadBack | packages/platform-extension/src/offscreen-core.ts:349-377 | in every interleaving, what one call encrypted under a key another decrypts under the same key and under no other |
| KeyHost.BatchReadsBack | packages/platform-extension/src/offscreen-core.ts:360-368 | a batch of entries made under its key gives all their texts in order, and the first that fails stops it with its error |
| KeyHost.UnwrapReportsItsOwnKey | packages/platform-extension/src/offscreen-core.ts:379-408 | a successful unwrap reports exactly the key inside the slot it was given |
| KeyHost.UnwrapGivesTheWrappedKey | packages/platform-extension/src/offscreen-core.ts:323-408 | in every interleaving, unwrapping what was wrapped under a credential gives that credential the very key and every other usable one a refusal |
| KeyHost.AwaitBetweenMixesKeys | packages/platform-extension/src/offscreen-core.ts:328-332 | what the absence of an await there prevents: in a hypothetical host that awaited between load and operation, two calls cross and one is answered under the other vault's key |
| Handshake.Registry.StartInitiator | packages/core-rust/src/handshake.rs:78-92 | a new initiator session with its first message written, for both patterns |
| Handshake.Registry.StartResponder | packages/core-rust/src/handshake.rs:94-102 | a new responder session, for both patterns |
| Handshake.Registry.ReadMessage | packages/core-rust/src/handshake.rs:107-151 | takes the session out and puts it back only if the read succeeds; a completed one is put back untouched |
| Handshake.Registry.EncryptText | packages/core-rust/src/handshake.rs:153-169 | seals under the session's next nonce, or fails in the source's order |
| Handshake.Registry.DecryptText | packages/core-rust/src/handshake.rs:171-184 | opens the next frame of the other side, or fails leaving the session as it was |
| Handshake.Registry.RemoteStaticKey | packages/core-rust/src/handshake.rs:233-245 | the peer's key of a completed session |
| Handshake.HandlesAreNumbered | packages/core-rust/src/handshake.rs:43-67 | the n-th session started gets handle n mod (2^32 - 1) + 1, whatever else happens |
| Handshake.ReplacedAfterAFullCycle | packages/core-rust/src/handshake.rs:62-67 | an insert replaces a live session only if exactly 2^32 - 1 starts have happened since the one that made it |
| Handshake.SessionsAreIndependent | packages/core-rust/src/handshake.rs:107-188 | however sessions interleave, each is what its own operations make of it |
| Handshake.RepliesAreIndependent | packages/core-rust/src/handshake.rs:107-188 | and every reply is the one its own operations determine |
| Handshake.FailedReadKillsOnlyItself | packages/core-rust/src/handshake.rs:104-122 | a refused message ends its own session and changes no other |
| Handshake.ChannelNeedsCompletion | packages/core-rust/src/handshake.rs:153-245 | encrypt, decrypt and remote_static succeed only if a read on that handle has reported the handshake done |
| Handshake.CompletionProvesTheKnownKey | packages/core-rust/src/handshake.rs:107-151 | in a session started with a known static key, every message ever accepted was authored under that key, and one was by the time the session is complete |
| Handshake.OneDelivery | packages/core-rust/src/handshake.rs:107-151 | a read produces a reply exactly when it did not finish the handshake |
| Handshake.HandshakeCompletes | packages/core-rust/src/handshake.rs:78-151 | for a pattern of any number M of messages, feeding replies across delivers exactly M messages; the responder then has its channel, and the initiator has one if and only if M is at least 2 |
| Handshake.HandshakeCompletesAmongOthers | packages/core-rust/src/handshake.rs:43-151 | and this holds between registries in which any other sessions are started, read, refused and closed in between |
| Handshake.ChannelDelivers | packages/core-rust/src/handshake.rs:153-184 | of any texts, one side encrypts those that fit a frame and the other decrypts exactly them, in order |
| Handshake.FramesOpenOnce | packages/core-rust/src/handshake.rs:171-184 | only the next frame of the other side on the same channel opens, and once it has, it is refused after any further operations on the session |
| HandshakeTrace.ReadsExactly | packages/core-rust/src/handshake.rs:107-151 | a session in its handshake accepts a message if and only if it is of its pattern, in turn, continues exactly the messages so far, names the right author and reader where they are known, and, as the last one, was made under the same psk; and which reply it gives |
| HandshakeTrace.FramesExactly | packages/core-rust/src/handshake.rs:153-184 | a session with its channel seals texts of up to 65519 bytes under the number of frames it has made, and opens exactly the other side's frame with the number it has opened |
| HandshakeTrace.ClosedIsGone | packages/core-rust/src/handshake.rs:186-188 | a closed session is gone, whatever happens to others, until its handle is given out again |
| RelayMatching.FilterMatches | nostr-relay/cf-worker/src/index.ts:85-96 | the loops over kinds, authors and tag entries, on any two JSON values, give the verdict `Matches`: matching, not matching or throwing, whichever comes first |
| RelayMatching.ThrowsExactly | nostr-relay/cf-worker/src/index.ts:85-96 | matching throws exactly on the filter null, on kinds or authors that are no list (nor a string the event's value can be looked up in), and, where these pass, on a filter by tags with an event whose tags are neither missing nor a list without null |
| RelayMeaning.MatchesIsAskedFor | nostr-relay/cf-worker/src/index.ts:85-96 | for every filter and event, matching says yes if and only if the event's kind is among the kinds asked for, its non-empty author among the authors, and for every `#` list some tag of that name says one of its values, where kinds and authors that are missing or false ask for nothing |
| Relay.Hub.WebSocketMessage | nostr-relay/cf-worker/src/index.ts:116-166 | the new attachments and all frames sent, in order, for every kind of message, malformed ones included |
| Relay.Hub.FanOutEvent | nostr-relay/cf-worker/src/index.ts:150-161 | one frame to each other socket, under the first subscription with a match, up to the first filter on which matching throws; whether that happened |
| Relay.FirstExactly | nostr-relay/cf-worker/src/index.ts:155-160 | the search among a socket's subscriptions ends at the first with a filter that matches or throws, and finds nothing if and only if there is none |
| RelayDelivery.AlwaysGood | nostr-relay/cf-worker/src/index.ts:129-136 | no socket ever holds two subscriptions under one id, nor more than eight under ids that are no names every object inherits, nor more than nineteen in all |
| RelayDelivery.NineteenAreHeld | nostr-relay/cf-worker/src/index.ts:129-136 | a history after which a socket holds nineteen subscriptions |
| RelayDelivery.HeldIffOpened | nostr-relay/cf-worker/src/index.ts:129-143 | a socket holds a subscription exactly when its history opened it, under an id other than `__proto__`, and has not closed or replaced it since |
| RelayDelivery.AcknowledgedButLost | nostr-relay/cf-worker/src/index.ts:129-136 | after any history, a request under the id `__proto__` is acknowledged and changes nothing |
| RelayDelivery.DeliveriesWereAskedFor | nostr-relay/cf-worker/src/index.ts:144-163 | after any history, every event frame is for another socket's event that passed the guard, under a subscription opened and not closed or replaced since, with a matching filter and none before it that throws, and at most one per peer |
| RelayDelivery.DeliveredUnlessThrown | nostr-relay/cf-worker/src/index.ts:144-163 | a connected peer with an open subscription and a matching filter gets exactly one copy if and only if matching throws neither at a socket listed before it nor at a filter of its own before its first match, and otherwise none |
| RelayDelivery.AskedForIsDelivered | nostr-relay/cf-worker/src/index.ts:144-163 | so, while no open subscription of any other socket has a filter on which matching the event throws, every such peer gets exactly one copy |
| RelayDelivery.NullStopsDelivery | nostr-relay/cf-worker/src/index.ts:126-161 | for every event that passes, a history in which the filter null of one socket keeps it from the next, and its sender from an answer |
| RelayDelivery.GuardIsExact | nostr-relay/cf-worker/src/index.ts:144-149 | an event passes if and only if it is truthy and its kind compares as no number or as one from 20000 up to 30000, and the guard throws if and only if the kind cannot be converted; among events whose kind is a number exactly the ephemeral ones pass |
| RelayDelivery.WhatPassesIsRelayed | nostr-relay/cf-worker/src/index.ts:146-161 | for every event that passes, ephemeral or not, a history in which it reaches a subscriber |
| RelayMeaning.GuardMeans | nostr-relay/cf-worker/src/index.ts:144-149 | what passes, said by the value of the kind property and the number it converts to |
| RelayMeaning.ReceivedWasAskedFor | nostr-relay/cf-worker/src/index.ts:144-163 | after any history, whatever a peer receives is another socket's event that passed, under a subscription it has open and that asks for it, and at most one copy |
| RelayMeaning.WhoAskedGetsIt | nostr-relay/cf-worker/src/index.ts:144-163 | while everything other sockets have open is well formed, a peer gets one copy of a well-formed event if it has asked for it, and none if it has not |
| RelayMeaning.CopyIsUnderTheFirst | nostr-relay/cf-worker/src/index.ts:155-160 | the copy comes under the first subscription that asks for the event |
| RelayMeaning.PublishingIsAnswered | nostr-relay/cf-worker/src/index.ts:144-152 | the publisher, and nobody else, is told the event's id and whether it passed, unless the guard or a filter at some other socket threw |
| RelayMeaning.RequestIsAcknowledged | nostr-relay/cf-worker/src/index.ts:129-136 | a request is acknowledged if and only if its id is the name of a property its subscriptions have, held or inherited, or fewer than eight are held |
| RelayOrder.IndicesComeFirst | nostr-relay/cf-worker/src/index.ts:156-160 | after any history, subscriptions whose ids spell array indices are searched before the others and in increasing order |
| RelayOrder.OthersInOrderOfOpening | nostr-relay/cf-worker/src/index.ts:129-143 | a new subscription under any other id is searched last |
| NativePeers.Shim.CloseConnection | packages/platform-mobile/src/native-webrtc.ts:151-155 | queues the native close and leaves the table if a handle was minted |
| NativePeers.OperationsRunInOrder | packages/platform-mobile/src/native-webrtc.ts:97-115 | in every run the native calls of a connection are its operations in enqueue order, each after the one before has settled |
| NativePeers.QueueIsWhatWasAsked | packages/platform-mobile/src/native-webrtc.ts:97-155 | nothing asked of a connection is lost or added: its queue is what was asked of it, in order |
| NativePeers.CallsFollowTheQueue | packages/platform-mobile/src/native-webrtc.ts:97-155 | if creation does not fail, every call carries the handle and at most one is under way |
| NativePeers.HandlelessIffRejected | packages/platform-mobile/src/native-webrtc.ts:102-115 | a call without a handle is made exactly when creation failed and a second operation has been reached |
| NativePeers.CallWithoutHandle | packages/platform-mobile/src/native-webrtc.ts:102-115 | a run in which creation fails and the second operation is called without a handle |
| NativePeers.HandleLeadsToItsConnection | packages/platform-mobile/src/native-webrtc.ts:27-30 | with distinct handles the table leads from a handle to a connection exactly if that connection minted it and has not been closed since |
| NativePeers.EventsReachTheirConnectionOnly | packages/platform-mobile/src/native-webrtc.ts:195-226 | every event is delivered to the connection that minted its handle and has not been closed since minting, and to no other |
| NativePeers.ClosedTooEarlyStillReceives | packages/platform-mobile/src/native-webrtc.ts:151-155 | a run in which a connection closed before its handle exists still receives that handle's events |
| SigV4.EncodeUri | packages/core-rust/src/sigv4.rs:66-81 | the loop over characters computes the encoding, both ways of treating slashes |
| SigV4.EncodedByteMeans | packages/core-rust/src/sigv4.rs:66-81 | a byte is itself if it is a letter, a digit, one of four marks or a slash that may stay, and otherwise a percent sign and two upper-case digits |
| SigV4.PerCharIsPerByte | packages/core-rust/src/sigv4.rs:66-81 | encoding character by character is encoding the UTF-8 bytes one by one |
| SigV4.UriRoundTrip | packages/core-rust/src/sigv4.rs:66-81 | percent-decoding undoes the encoding in both slash modes |
| SigV4.SortedSorts | packages/core-rust/src/sigv4.rs:88-88 | the order used is a sorted permutation of the encoded pairs |
| SigV4.LeMeans | packages/core-rust/src/sigv4.rs:88-88 | one text comes before another if it is a beginning of it or smaller where they first differ |
| SigV4.OneOrder | packages/core-rust/src/sigv4.rs:88-88 | a multiset of pairs has only one sorted order, so it does not matter how the library sorts |
| SigV4.CanonicalQuery | packages/core-rust/src/sigv4.rs:83-94 | encode, sort and join compute the canonical query |
| SigV4.QueryReadsBack | packages/core-rust/src/sigv4.rs:83-94 | splitting and decoding the canonical query gives back exactly the pairs, each as often |
| SigV4.SameQueryIffSamePairs | packages/core-rust/src/sigv4.rs:83-94 | two requests have the same canonical query if and only if they carry the same pairs in some order |

## Left out

- AES, ChaCha20, HMAC, SHA, Argon2, Noise and gzip themselves: functions with laws, or symbolic terms.
- The XML tokenizer: the walker takes its events, and those the importer ignores (declarations, comments, CDATA, elements without content) are one kind of event; XML key files are read by an abstract function.
- Failing random number generators, storage calls and JSON parsing: every draw and every access succeeds; the random values are parameters.
- KdbxOnePass.OnePassIsTwoPhase: does not cover documents in which a key, value, tags or name element holds one of the seven elements with a meaning, nor those the tokenizer refuses; they are walked by the same step function but have no tree here, as `KdbxCoverage.Regular` makes exact (`KdbxCoverage.CutOffByFault` says what becomes of refused ones).
- KdbxFrame.Cursor.Take: tells a length overflow by the 32-bit addresses of the web build; with 64-bit addresses the same inputs fail as truncated.
- KdbxFrame.BlocksRoundTrip: asks for blocks or a text below 4 GiB, because the writer cuts block lengths to 32 bits; the code's own blocks are 1 MiB.
- KdbxTampering.OnlyTheSavedFileOpens: asks that no message in the file collides with one of the saved file's, which no law gives (`KdbxTampering.CanBeKeptApart` shows that it can be had), and that there are fewer than 2^64 blocks, as many as have an index; it speaks of the saved file's own password.
- KdbxRoundTrip.SavedFileUnder: says nothing when different keys give the header the same tag, which the laws do not exclude.
- Attachments and the serialization of entries to the web page: not read by the importer or plain conversions.
- Vault writes, restores and deletions by the user and the materialization of a vault from its file handle: the registry check and the publication are two steps, so the migration's claims do not extend to them.
- StorageAdapter.Document.ReadVaultBlob: leaves out that a vault without a blob may be read from a legacy file (lines 237-242), as user files are not part of the model.
- Handshake.CompletionProvesTheKnownKey: rests on symbolic messages, which name their author truthfully; that nobody can forge one is the Noise library's business.
- Labels and creation times in the registry; a registry is the list of ids it names and the retired mark.
- StorageAdapter.Storage.MigrateNamespacing: covers a document that nothing interrupts; interrupted and interleaved ones are the runs of the state machine.
- Opaque slot kinds that are infinite or not a number: kinds are real numbers.
- What a sync session does once started, and sessions that fail after creating resources: a failed start creates none.
- Enrollment sessions and their approval prompts: they are not serialized like the sync sessions.
- Key derivation failures other than a salt below 8 bytes, and calls that carry no key: those are answered from whatever the slot holds, as `KeyHost.SelfContained` makes explicit.
- Nonce exhaustion of a Noise session, and messages that come from outside the exchange in any way other than mixing up sessions, keys, order or psk.
- What the runtime does about an exception in a relay handler, its limit on the size of an attachment, and sends to sockets that are closing; strings are sequences of characters, so that a tag given as a string is never cut inside a surrogate pair.
- The data channel's own callbacks and states on the native shim: only which connection an event reaches.
- The rest of request signing: headers, scopes and the HMAC chain are a fixed sequence of calls.
- Merge engine, clocks, roster, passkeys, views and build scripts: outside these models.
