# Keystore model (kp.go)

A Dafny model of the keystore in `kp.go`. It has three layers.

- **KeyPairInfo.** One key pair's record has seven string fields. It is in
  plaintext while `RawKey` holds the Base58 text of the private key. It counts
  as encrypted when `EncryptedKey` is set or `RawKey` is empty.
  - `Encrypt` derives a 32-byte key with scrypt (N=32768, r=8, p=1) from the
    password and 32 random salt bytes. It XORs the key with an AES-128-CTR
    keystream and tags the ciphertext with Sha3 over the second half of the
    key followed by the ciphertext.
  - `Decrypt` recomputes the tag, compares it with the stored one and writes
    the plaintext back.
- **AccountInfo.** A named map from permission label to a pointer to a
  KeyPairInfo.
  - `Encrypt` and `Decrypt` check the account-wide state first. They then walk
    the map in Go's unspecified order, stop at the first member that fails,
    and roll nothing back.
- **FileAccountStore.** Keeps one JSON file per account, `<dir>/<name>.json`.
  - Saving over an existing file first renames the old file to
    `<dir>/backup/<name>.<RFC 3339 timestamp>.json`.
  - Listing loads every directory entry and skips the ones that fail.

Module layout:

- `wrappers.dfy` holds the `Option` and `Result` types.
- `errors.dfy` holds the error values the Go code returns.
- `cipher.dfy` holds scrypt, CTR, Sha3 and Base58. Each is an opaque function
  value inside the `Primitives` record, except for the XOR step.
- `keypair.dfy` models the record. `KeyRecord` is the value, and `EncryptRecord`
  and `DecryptRecord` give the semantics. The class `KeyPairInfo` is updated in
  place, and its methods are proved against those two functions.
- `account.dfy` models the account. `ApplyInOrder` is the batch semantics for
  any visit order. The class `AccountInfo` holds a map of `KeyPairInfo`
  objects. Its loops pick labels nondeterministically, as Go's map iteration
  does, and return the order they took as a ghost value.
- `rfc3339.dfy` models the timestamp format that `time.RFC3339` produces.
- `store.dfy` models the store. The file system is a `FileSystem` object that
  holds a path-to-bytes map and a set of failing calls. `Saved`, `LoadFrom`,
  `LoadNamed` and `Listed` give the store's semantics. The class
  `FileAccountStore` is proved against them.

The model follows the code where it differs from the design of the keystore:

- `KeyPairInfo.Encrypt` computes the ciphertext but never stores it in
  `EncryptedKey` (kp.go:80-86). An encrypted record therefore never holds its
  key, and decrypting it with the right password either fails the tag check or
  writes back the Base58 of the empty byte string. `EncryptThenDecrypt` states
  this. `DecryptOpensSealedRecord` proves the designed round trip for a record
  that does hold the ciphertext.
- The CTR nonce, bytes 32 to 48 of the salt, is never randomised and is always
  zero (kp.go:69-70).
- The tag comparison uses `bytes.Equal`, not a constant-time comparison
  (kp.go:108).
- `AccountInfo.Encrypt` refuses the whole account if any member is already
  encrypted (kp.go:158-160). So no member is ever skipped or half-processed by
  the account-level encrypt (when no two labels share one KeyPairInfo object). Account `Decrypt`, by contrast, runs once any
  member is encrypted. It then fails on the first plaintext member it reaches
  and keeps the members it already decrypted.
- `SaveAccount` backs up whenever `os.Stat` reports anything other than "does
  not exist", including a failed `Stat` (kp.go:218). `LoadAccount` refuses on
  any `Stat` error (kp.go:203-206).

## Model

| member | source | states |
|---|---|---|
| Cipher.CipherKey | kp.go:75 | the AES key is the first 16 bytes of the derived key, and together with the MAC key it makes up the whole derived key |
| Cipher.MacKey | kp.go:83 | the MAC key is 16 bytes long |
| Cipher.FreshSalt | kp.go:69-70 | a fresh salt is 48 bytes: the 32 random bytes, then 16 zero bytes |
| Cipher.Ctr | kp.go:79-82 | the CTR output has the length of its input |
| Cipher.CtrSelfInverse | kp.go:103-106 | applying CTR twice with the same key and nonce gives the input back, so decryption is the same XOR as encryption |
| Cipher.CtrInjective | kp.go:79-82 | CTR under one key and nonce maps different inputs to different outputs |
| Cipher.DeriveKey | kp.go:71 | scrypt with N=32768, r=8, p=1 and a 32-byte output, the one derivation both Encrypt and Decrypt use (kp.go:95); its properties are stated by DecryptRederivesEncryptionKey |
| Cipher.Tag | kp.go:83 | Sha3 of the MAC key followed by the ciphertext, as both Encrypt and Decrypt compute it (kp.go:107); its use is stated by DecryptRederivesEncryptionKey and DecryptRecord |
| KeyPair.KeyRecord.IsEncrypted | kp.go:61-63 | a record is encrypted exactly when it holds a ciphertext or cannot hand out its key pair |
| KeyPair.EncryptionTag | kp.go:79-83 | the tag Encrypt stores: under the derived key, of the raw key's CTR image with the zero nonce; EncryptRecord and DecryptRederivesEncryptionKey state it |
| KeyPair.DecryptRederivesEncryptionKey | kp.go:94-95 | from the salt Encrypt stored and the same password, Decrypt derives the very key Encrypt used, and the stored tag is that key's tag over the raw key's CTR image with the stored nonce |
| KeyPair.KeyRecord.ToKeyPair | kp.go:47-59 | fails with "empty keypair" exactly when RawKey is empty; otherwise returns the key pair rebuilt from the record's ID |
| KeyPair.NewKeyPairInfo | kp.go:29-45 | "empty key" for an empty raw key; a public-key marshalling error is passed through; otherwise a plaintext record with the given raw key, key type, ID and the Base58 public key, and no salt, ciphertext or MAC |
| KeyPair.EncryptRecord | kp.go:65-88 | fails with "already encrypted" exactly when the record is encrypted; otherwise the result is encrypted, RawKey is cleared, ToKeyPair is refused, Salt is the encoded fresh salt and Mac the encoded tag, and ID, key type, public key and EncryptedKey are unchanged |
| KeyPair.DecryptRecord | kp.go:90-114 | "not encrypted" on a plaintext record; a slice error when the salt decodes to fewer than 48 bytes; "wrong password" exactly when the recomputed tag differs from the stored one; on success only RawKey changes, and it encodes the CTR decryption of the stored ciphertext |
| KeyPair.EncryptedSaltLayout | kp.go:69-70 | after Encrypt, the stored salt decodes to 48 bytes: the random seed, then a zero nonce |
| KeyPair.EncryptThenDecrypt | kp.go:80-86 | decrypting a freshly encrypted record with the same password succeeds only if the tag of the empty ciphertext equals the stored tag, and even then it does not bring back the original raw key |
| KeyPair.DecryptIdempotent | kp.go:90-114 | a record that decrypts decrypts again to the same result |
| KeyPair.DecryptOpensSealedRecord | kp.go:94-111 | an encrypted record that holds the CTR ciphertext, the full salt and the matching tag decrypts with that password to the original plaintext bytes, the empty plaintext included |
| KeyPair.KeyPairInfo.IsEncrypted | kp.go:61-63 | the object is encrypted exactly when it holds a ciphertext or cannot hand out its key pair; when it is not, it has a raw key and no ciphertext |
| KeyPair.KeyPairInfo.constructor | kp.go:19-27 | the new object holds exactly the given field values |
| KeyPair.KeyPairInfo.Encrypt | kp.go:65-88 | updates the object in place to EncryptRecord's result, or returns its error and leaves every field unchanged |
| KeyPair.KeyPairInfo.Decrypt | kp.go:90-114 | updates the object in place to DecryptRecord's result, or returns its error and leaves every field unchanged |
| Account.AnyEncrypted | kp.go:134-141 | when no member is encrypted, every member holds a raw key and no ciphertext; an empty account has no encrypted member |
| Account.ApplyInOrder | kp.go:147-152 | the batch keeps the account's set of labels |
| Account.FirstFailure | kp.go:147-152 | the index of the first member in visit order whose step fails: every earlier step succeeds, and that one fails |
| Account.FirstFailureAllSucceed | kp.go:147-152 | when every member's step succeeds, no member fails |
| Account.ApplyInOrderSpec | kp.go:147-152 | the batch returns an error exactly when some member fails, and that error is the first failing member's; members before it hold their new records; the failing member and all later members are unchanged |
| Account.ExtendSuccessfulPrefix | kp.go:161-166 | after a run with no failure, visiting one more member changes only that member, and its step decides the error |
| Account.AllSucceeded | kp.go:147-154 | a batch that returns no error over every label succeeded on every member, each from its original record |
| Account.StepCommit | kp.go:161-166 | one loop iteration after an error-free prefix: the member's step result becomes its record, or its error ends the batch with nothing changed |
| Account.Visit | kp.go:161 | moving a label from the unvisited set to the visit order keeps every label visited at most once and covered exactly once |
| Account.EncryptAccount | kp.go:157-168 | an account with any encrypted member gives "account already encrypted" and is returned unchanged; otherwise the outcome is the batch of member encryptions in the given order |
| Account.DecryptAccount | kp.go:143-155 | an account with no encrypted member, the empty account included, gives "not encrypted" and is returned unchanged; otherwise the outcome is the batch of member decryptions in the given order |
| Account.EncryptAccountOutcome | kp.go:157-168 | in any visit order, account encryption succeeds exactly when no member is encrypted; on failure it is "account already encrypted" and nothing changes; on success every member is encrypted with its own salt seed |
| Account.DecryptAccountNeedsAllEncrypted | kp.go:143-155 | account decryption succeeds only if every member is encrypted and decrypts, and then each member holds its own decrypted record |
| Account.MixedAccountDecrypt | kp.go:143-155 | a decryptable encrypted member plus a plaintext member: one order decrypts the first, fails on the second and keeps the first decrypted; the other order fails at once and changes nothing |
| Account.AccountInfo.constructor | kp.go:121-123 | a new account has an empty name and no members |
| Account.AccountInfo.GetKeyPair | kp.go:125-132 | an unknown label gives "invalid permission"; otherwise it succeeds exactly when the member's raw key is present, giving the key pair built from the member's ID; a present member without a raw key is encrypted and gives "empty keypair" |
| Account.AccountInfo.IsEncrypted | kp.go:134-141 | returns true exactly when some member is encrypted |
| Account.AccountInfo.RecordsAre | kp.go:118 | the account's records are fixed by the member objects' current values |
| Account.AccountInfo.EncryptMember | kp.go:161-166 | one iteration of the encrypt loop extends the batch outcome by the visited member and keeps every other member's object unchanged |
| Account.AccountInfo.EncryptAll | kp.go:161-167 | the loop visits distinct labels; with no error it has visited all of them; the error and the new records are ApplyInOrder of the old records in the order visited |
| Account.AccountInfo.Encrypt | kp.go:157-168 | the error and the new records are EncryptAccount of the old records in the order the loop took, and that order covers every label when no error is returned |
| Account.AccountInfo.DecryptMember | kp.go:147-152 | one iteration of the decrypt loop extends the batch outcome by the visited member and keeps every other member's object unchanged |
| Account.AccountInfo.DecryptAll | kp.go:147-154 | the loop visits distinct labels; with no error it has visited all of them; the error and the new records are ApplyInOrder of the old records in the order visited |
| Account.AccountInfo.Decrypt | kp.go:143-155 | the error and the new records are DecryptAccount of the old records in the order the loop took, and that order covers every label when no error is returned |
| Rfc3339.Digit | kp.go:219 | a decimal digit character with the given value |
| Rfc3339.Pad2 | kp.go:219 | two digit characters whose decimal value is the number |
| Rfc3339.Pad4 | kp.go:219 | four digit characters whose decimal value is the number |
| Rfc3339.Zone | kp.go:219 | "Z" for a zero offset, otherwise six characters: the offset's sign, two digits whose value is the offset's whole hours, ':', and two digits whose value is its remaining minutes |
| Rfc3339.Date | kp.go:219 | ten characters with '-' at positions 4 and 7 |
| Rfc3339.Time | kp.go:219 | eight characters with ':' at positions 2 and 5 |
| Rfc3339.Format | kp.go:219 | Go's 2006-01-02T15:04:05Z07:00 layout: the date at 0-9, 'T' at 10, the time at 11-18 and the zone from 19 on; 20 characters in UTC, 25 otherwise, and no '/' anywhere |
| Rfc3339.Pad2Injective | kp.go:219 | different two-digit numbers give different text |
| Rfc3339.Pad4Injective | kp.go:219 | different four-digit numbers give different text |
| Rfc3339.ZoneInjective | kp.go:219 | different offsets give different zone suffixes |
| Rfc3339.DateFields | kp.go:219 | the date text holds the padded year at 0-3, the month at 5-6 and the day at 8-9 |
| Rfc3339.TimeFields | kp.go:219 | the time text holds the hour at 0-1, the minute at 3-4 and the second at 6-7 |
| Rfc3339.DateInjective | kp.go:219 | equal date text means the same year, month and day |
| Rfc3339.TimeInjective | kp.go:219 | equal time text means the same hour, minute and second |
| Rfc3339.FormatInjective | kp.go:219 | two valid readings with the same timestamp text are the same reading |
| Store.AccountPath | kp.go:202 | the live file is the store directory, '/', the account name and ".json" (also kp.go:216, kp.go:236) |
| Store.BackupDir | kp.go:220 | the backup directory is the store directory followed by "/backup" |
| Store.BackupPath | kp.go:225 | the backup file lies in the backup directory and is the account name, ".", the timestamp and ".json" |
| Store.AccountPathInjective | kp.go:202 | different account names have different live file paths |
| Store.BackupIsNotLive | kp.go:216-225 | a backup path is never the live path of the account being saved, nor of any account whose name has no '/' |
| Store.BackupPathDistinguishesTimes | kp.go:219-225 | saves at different clock readings back up to different paths |
| Store.LoadFrom | kp.go:180-191 | a read error is returned as is; a file that does not decode gives the "should be a json file" error; otherwise the result is the decoded account |
| Store.LoadNamed | kp.go:201-208 | an account whose live file Stat does not find is "not imported"; otherwise it is whatever loading that file gives |
| Store.Saved | kp.go:210-233 | a successful save leaves the new data in the live file; a failed save either changes nothing or leaves no live file |
| Store.SaveSucceeds | kp.go:210-233 | after a successful save the live file holds the new data; an old live file's contents now sit at the backup path; every other file is unchanged |
| Store.SaveStopsWhenRenameFails | kp.go:227-230 | if renaming the old live file fails, the save returns that error and has written nothing |
| Store.SaveFails | kp.go:210-233 | a failed save either changes nothing, or it has moved the live file to the backup and then failed to write, leaving no live file |
| Store.SaveThenLoad | kp.go:201-233 | after a successful save, loading the account by name gives back the saved data, given a lawful JSON codec |
| Store.SameSecondSavesOverwriteBackup | kp.go:219-227 | two saves with the same timestamp share one backup path, so the second backup replaces the first and the original contents are lost |
| Store.DeleteThenLoad | kp.go:235-243 | after a successful delete the account is "not imported" |
| Store.LoadedEntry | kp.go:252-258 | an entry contributes nothing when loading it fails, and otherwise exactly the account it loads to |
| Store.Listed | kp.go:250-259 | the listing has at most one account per directory entry, and each listed account is what some entry loads to |
| Store.ListedLast | kp.go:251-258 | the listing of a non-empty entry list is the listing of all but the last entry, followed by what the last entry contributes |
| Store.ListedAppend | kp.go:251-259 | listing a concatenation of entries is the concatenation of the listings, so the order of the entries is kept |
| Store.ListedComplete | kp.go:251-259 | every entry that loads appears in the listing |
| Store.SaveTo | kp.go:170-178 | the file's new state is the effect of writing the account's JSON to it, or of the failed write |
| Store.LoadAccountFrom | kp.go:180-191 | returns LoadFrom on the current files |
| Store.FileSystem.constructor | kp.go:212 | the disk starts with the given files and failing calls |
| Store.FileSystem.MkdirAll | kp.go:212 | reports the MkdirAll error exactly when that call fails |
| Store.FileSystem.Stat | kp.go:203 | reports that the path exists, is missing, or that the Stat call failed |
| Store.FileSystem.Rename | kp.go:227 | moves the contents of one path to another, replacing what was there, or reports "does not exist" or the failure and changes nothing |
| Store.FileSystem.WriteFile | kp.go:176 | creates or replaces the file with the data, or reports the failure and changes nothing |
| Store.FileSystem.Remove | kp.go:237 | deletes the path, or reports "does not exist" or the failure and changes nothing |
| Store.FileSystem.ReadFile | kp.go:181 | returns the file's contents, or "does not exist", or the failure |
| Store.FileAccountStore.constructor | kp.go:197-199 | the store is rooted at the given directory |
| Store.FileAccountStore.LoadAccount | kp.go:201-208 | returns LoadNamed for the store's directory |
| Store.FileAccountStore.SaveAccount | kp.go:210-233 | the error and the new files are those of Saved for the account's JSON and the RFC 3339 text of the clock reading |
| Store.FileAccountStore.DeleteAccount | kp.go:235-243 | the live file is removed, or the remove error is returned and nothing changes |
| Store.FileAccountStore.ListAccounts | kp.go:245-261 | a directory read error is returned as is; otherwise the result is Listed over the directory's entries in order |

## Left out

- Cryptographic internals: scrypt, AES, Sha3 and Base58 are opaque functions. Only their output lengths are known, plus, where a lemma needs them, the hypotheses that Base58 decoding undoes encoding and that the empty byte string encodes to the empty text (`Base58Lawful`), so the empty text decodes to the empty byte string (`DecodeEmpty`). The CTR keystream is a function from key, nonce and position to a byte.
- Errors from scrypt and `aes.NewCipher` (kp.go:71-78, kp.go:95-102) are not modelled. They cannot happen with these constant parameters and a 16-byte key.
- The randomness of `frand.Read` is a parameter. For a single record it is the `seed`; for an account it is `random`, a function from label to seed.
- The uuid, `NewKeyPair` and `MarshalBinary` calls are parameters of `NewKeyPairInfo`. A `LoadedKeys` value is reduced to the record ID it is built from. The signing keys themselves are not modelled.
- KeyPair.DecryptRecord: Go slices a short decoded salt only up to its capacity, so a short salt panics. Any salt shorter than 48 bytes is modelled as the `SliceOutOfRange` error and leaves the record unchanged. Capacity beyond length is not modelled.
- Aliasing: the account methods require `Valid()`, meaning no two labels point at the same KeyPairInfo object. The Go type does not forbid such sharing. With sharing, the second visit would see the first visit's change.
- The order of Go's map iteration is nondeterministic. The account loops choose labels with `:|`, and the contracts hold for whatever order was taken. Nothing in the model claims that the order is random or the same from run to run.
- The printing in kp.go:153, kp.go:175, kp.go:226, kp.go:241 and kp.go:255 is not modelled.
- JSON encoding is an opaque `marshal`/`unmarshal` pair over `AccountData`, the account's name and member records. `SaveThenLoad` assumes `JsonLawful`. The "omitempty" field tags, the indentation and `MarshalIndent`'s error (impossible for these string fields) are not modelled.
- The operating system is a map from path to bytes plus a set of calls that fail. The `FileSystem` methods stand for the `os` calls kp.go makes. Directories, file permissions (0700, 0400), partial writes and the wrapped error text are not modelled. `MkdirAll` only reports its error. A `Stat` can fail without the file being missing.
- `os.ReadDir` is the `listing` parameter of ListAccounts. Go returns the entries sorted by file name; the model does not constrain their order, so the ListAccounts contract holds for any order, the sorted one included. `ListAccounts`, `LoadAccount` and `LoadAccountFrom` return account values, not pointers to fresh AccountInfo objects (kp.go:185, kp.go:207, kp.go:253).
- Store.FileAccountStore.SaveAccount: the clock is the `now` parameter. It is a whole-second reading with an offset in whole minutes, and its year lies between 0 and 9999. Dates are range-checked but not checked against the calendar.
- Null members: a JSON `null` member value decodes to a nil `*KeyPairInfo` in `Keypairs` (kp.go:118, kp.go:186), on which IsEncrypted, Encrypt, Decrypt and GetKeyPair panic (kp.go:136, kp.go:148, kp.go:162, kp.go:130 then kp.go:48). The model's members are always objects and `AccountData` holds record values, so that panic is not modelled.
- Concurrency: the store has no locking, and the model is sequential.
- LoadedKeys: `ToKeyPair` always rebuilds the key pair from the ID (kp.go:51). The model does not relate it to the stored raw key, just as the code does not.
