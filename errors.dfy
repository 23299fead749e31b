/**
 * The errors of the keystore. Each constructor stands for one error value the
 * Go code returns (its message is given in the comment), plus the runtime
 * panic that a too-short decoded salt triggers, which the model treats as an
 * error outcome that leaves the record as it was.
 */
module Errors {

  /** A call into the operating system, used to say which call failed. */
  datatype OsCall =
    | MkdirAll(dir: string)
    | Stat(path: string)
    | Rename(from: string, to: string)
    | WriteFile(path: string)
    | ReadFile(path: string)
    | Remove(path: string)

  datatype Error =
    | EmptyKey                      // "empty key" (NewKeyPairInfo)
    | EmptyKeypair                  // "empty keypair" (ToKeyPair)
    | AlreadyEncrypted              // "already encrypted" (KeyPairInfo.Encrypt)
    | NotEncrypted                  // "not encrypted" (both Decrypt methods)
    | WrongPassword                 // "wrong password"
    | AccountAlreadyEncrypted       // "account already encrypted"
    | InvalidPermission(perm: string) // "invalid permission %v"
    | SliceOutOfRange               // runtime panic: salt[0:32] or salt[32:48] out of range
    | NotImported(name: string)     // "account is not imported at ..."
    | NotJson                       // "key store should be a json file, ..."
    | NotExist(path: string)        // the file the call needs is absent
    | OsFailure(call: OsCall)       // the operating system refused the call
}
