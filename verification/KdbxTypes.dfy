/** The error codes and records of the KDBX4 importer. */
module KdbxTypes {
  import opened Wrappers

  datatype KdbxError =
    | NotKeepass
    | UnsupportedVersion(major: nat)
    | UnsupportedCipher
    | UnsupportedKdf
    | UnsupportedStream
    | WrongCredential
    | KdfTooExpensive(memKib: nat, iterations: nat)
    | Corrupt(what: string)

  type Res<+T> = Result<T, KdbxError>

  /** One KeePass string field; `SaveString` on the way out, `OutString` on the way in. */
  datatype Field = Field(key: string, value: string, guarded: bool)

  type Entry = seq<Field>

  const RECYCLE_BIN := "Recycle Bin"
  const TAGS_KEY := "Tags"
  const GROUP_KEY := "Group"
}
