/**
 * One key pair's storage record (`KeyPairInfo`, kp.go:19-114): plaintext while
 * `RawKey` holds the key, encrypted otherwise.
 *
 * `KeyRecord` is the record as a value and carries the state predicate
 * `IsEncrypted`; `EncryptRecord` and `DecryptRecord` say what Encrypt and
 * Decrypt do to a record; the class `KeyPairInfo` holds the seven fields and
 * updates them in place, as the Go pointer receiver does, and its methods are
 * proved to follow those two functions.
 *
 * As written, Encrypt computes the ciphertext but never stores it in
 * `EncryptedKey` (kp.go:82-86), and the CTR nonce (salt bytes 32 to 48) is
 * never randomised (kp.go:69-70). The functions below follow the code, and
 * `EncryptThenDecrypt` states the consequence: the raw key cannot be
 * recovered from the record.
 */
module KeyPair {
  import opened Wrappers
  import opened Errors
  import opened Cipher

  /**
   * The key pair `ToKeyPair` hands out. The Go code regenerates it from the
   * record's identifier alone (kp.go:51), so the identifier is all it holds.
   */
  datatype LoadedKeys = LoadedKeys(fromId: string)

  /** The seven string fields of a KeyPairInfo (kp.go:19-27); "" is Go's empty string. */
  datatype KeyRecord = KeyRecord(
    id: string,
    rawKey: string,
    keyType: string,
    pubKey: string,
    salt: string,
    encryptedKey: string,
    mac: string)
  {
    /**
     * Encrypted when there is a ciphertext or no raw key (kp.go:61-63): that
     * is, when the record holds a ciphertext or cannot hand out its key pair.
     */
    predicate IsEncrypted(): (b: bool)
      ensures b <==> encryptedKey != "" || ToKeyPair().Failure?
    {
      encryptedKey != "" || rawKey == ""
    }

    /** The key pair for signing: refused when the raw key is empty, otherwise rebuilt from the id (kp.go:47-59). */
    function ToKeyPair(): (r: Result<LoadedKeys, Error>)
      ensures r.Failure? <==> rawKey == ""
      ensures r.Failure? ==> r.error == EmptyKeypair
      ensures r.Success? ==> r.value.fromId == id
    {
      if rawKey == "" then Failure(EmptyKeypair) else Success(LoadedKeys(id))
    }
  }

  /**
   * A new plaintext record (kp.go:29-45). The identifier generated by the
   * uuid library and the outcome of marshalling the public key generated
   * from it are parameters.
   */
  function NewKeyPairInfo(p: Primitives, rawKey: string, keyType: string, id: string,
                          marshalledPub: Result<Bytes, Error>): (r: Result<KeyRecord, Error>)
    ensures rawKey == "" ==> r == Failure(EmptyKey)
    ensures rawKey != "" && marshalledPub.Failure? ==> r == Failure(marshalledPub.error)
    ensures r.Success? <==> rawKey != "" && marshalledPub.Success?
    ensures r.Success? ==>
      && r.value.rawKey == rawKey && r.value.keyType == keyType && r.value.id == id
      && r.value.pubKey == p.encode58(marshalledPub.value)
      && r.value.salt == "" && r.value.encryptedKey == "" && r.value.mac == ""
      && !r.value.IsEncrypted()
  {
    if rawKey == "" then Failure(EmptyKey)
    else
      match marshalledPub
      case Failure(e) => Failure(e)
      case Success(pub) => Success(KeyRecord(id, rawKey, keyType, p.encode58(pub), "", "", ""))
  }

  /**
   * The tag Encrypt stores, written out: the nonce is sixteen zero bytes,
   * whatever the random seed.
   */
  function EncryptionTag(p: Primitives, password: Bytes, seed: SaltSeed, rawKey: string): Digest
  {
    var key := DeriveKey(p, password, seed);
    Tag(p, MacKey(key), Ctr(p, CipherKey(key), Zeros(16), p.decode58(rawKey)))
  }

  /**
   * What KeyPairInfo.Encrypt does to a record (kp.go:65-88): refused on an
   * encrypted record; otherwise Salt and Mac are set and RawKey is cleared.
   * The ciphertext is computed and dropped.
   */
  function EncryptRecord(r: KeyRecord, password: Bytes, seed: SaltSeed, p: Primitives): (res: Result<KeyRecord, Error>)
    ensures res.Failure? <==> r.IsEncrypted()
    ensures res.Failure? ==> res.error == AlreadyEncrypted
    ensures res.Success? ==>
      && res.value.IsEncrypted()
      && res.value.rawKey == ""
      && res.value.ToKeyPair() == Failure(EmptyKeypair)
      && res.value.id == r.id && res.value.keyType == r.keyType && res.value.pubKey == r.pubKey
      && res.value.encryptedKey == r.encryptedKey
      && res.value.salt == p.encode58(FreshSalt(seed))
      && res.value.mac == p.encode58(EncryptionTag(p, password, seed, r.rawKey))
  {
    if r.IsEncrypted() then Failure(AlreadyEncrypted)
    else
      var salt := FreshSalt(seed);
      assert salt[SeedLen..SaltLen] == salt[SeedLen..];
      var key := DeriveKey(p, password, salt[..SeedLen]);
      var outText := Ctr(p, CipherKey(key), salt[SeedLen..SaltLen], p.decode58(r.rawKey));
      var mac := Tag(p, MacKey(key), outText);
      Success(r.(salt := p.encode58(salt), mac := p.encode58(mac), rawKey := ""))
  }

  /** The salt Decrypt reads back. */
  function StoredSalt(p: Primitives, r: KeyRecord): Bytes
  {
    p.decode58(r.salt)
  }

  /** The key Decrypt derives from a stored salt of full length. */
  function StoredKey(p: Primitives, r: KeyRecord, password: Bytes): DerivedKey
    requires |StoredSalt(p, r)| >= SaltLen
  {
    DeriveKey(p, password, StoredSalt(p, r)[..SeedLen])
  }

  /** The recomputed tag over the stored ciphertext equals the stored tag (kp.go:107-108). */
  predicate TagVerifies(p: Primitives, r: KeyRecord, password: Bytes)
    requires |StoredSalt(p, r)| >= SaltLen
  {
    Tag(p, MacKey(StoredKey(p, r, password)), p.decode58(r.encryptedKey)) == p.decode58(r.mac)
  }

  /**
   * What KeyPairInfo.Decrypt does to a record (kp.go:90-114): refused on a
   * plaintext record, on a salt too short to slice, and when the tag does
   * not verify; otherwise RawKey receives the CTR image of the stored
   * ciphertext and nothing else changes.
   */
  function DecryptRecord(r: KeyRecord, password: Bytes, p: Primitives): (res: Result<KeyRecord, Error>)
    ensures !r.IsEncrypted() ==> res == Failure(NotEncrypted)
    ensures r.IsEncrypted() && |StoredSalt(p, r)| < SaltLen ==> res == Failure(SliceOutOfRange)
    ensures res.Success? <==>
      r.IsEncrypted() && |StoredSalt(p, r)| >= SaltLen && TagVerifies(p, r, password)
    ensures res.Failure? && r.IsEncrypted() && |StoredSalt(p, r)| >= SaltLen ==> res.error == WrongPassword
    ensures res.Success? ==> res.value == r.(rawKey := res.value.rawKey)
    ensures res.Success? && Base58Lawful(p) ==>
      p.decode58(res.value.rawKey)
        == Ctr(p, CipherKey(StoredKey(p, r, password)), StoredSalt(p, r)[SeedLen..SaltLen],
               p.decode58(r.encryptedKey))
  {
    if !r.IsEncrypted() then Failure(NotEncrypted)
    else
      var salt := p.decode58(r.salt);
      if |salt| < SaltLen then Failure(SliceOutOfRange)
      else
        var key := DeriveKey(p, password, salt[..SeedLen]);
        var inText := p.decode58(r.encryptedKey);
        var outText := Ctr(p, CipherKey(key), salt[SeedLen..SaltLen], inText);
        var mac := Tag(p, MacKey(key), inText);
        if mac != p.decode58(r.mac) then Failure(WrongPassword)
        else Success(r.(rawKey := p.encode58(outText)))
  }

  /** After Encrypt the stored salt is the random seed followed by a zero CTR nonce. */
  lemma EncryptedSaltLayout(r: KeyRecord, password: Bytes, seed: SaltSeed, p: Primitives)
    requires Base58Lawful(p)
    requires !r.IsEncrypted()
    ensures var e := EncryptRecord(r, password, seed, p).value;
      && |StoredSalt(p, e)| == SaltLen
      && StoredSalt(p, e)[..SeedLen] == seed
      && StoredSalt(p, e)[SeedLen..] == Zeros(16)
  {
    var e := EncryptRecord(r, password, seed, p).value;
    assert StoredSalt(p, e) == p.decode58(p.encode58(FreshSalt(seed)));
  }

  /**
   * Decrypt re-derives the key Encrypt used: from the same password and the
   * stored salt it obtains the same scrypt key, and the stored tag is the tag
   * under that key of the raw key's CTR image with the stored nonce.
   */
  lemma DecryptRederivesEncryptionKey(r: KeyRecord, password: Bytes, seed: SaltSeed, p: Primitives)
    requires Base58Lawful(p)
    requires !r.IsEncrypted()
    ensures var e := EncryptRecord(r, password, seed, p).value;
      && |StoredSalt(p, e)| == SaltLen
      && StoredKey(p, e, password) == DeriveKey(p, password, seed)
      && p.decode58(e.mac)
           == Tag(p, MacKey(StoredKey(p, e, password)),
                  Ctr(p, CipherKey(StoredKey(p, e, password)), StoredSalt(p, e)[SeedLen..SaltLen],
                      p.decode58(r.rawKey)))
  {
    var e := EncryptRecord(r, password, seed, p).value;
    EncryptedSaltLayout(r, password, seed, p);
    assert StoredSalt(p, e)[SeedLen..SaltLen] == Zeros(16);
    assert p.decode58(e.mac) == EncryptionTag(p, password, seed, r.rawKey);
  }

  /**
   * Encrypt then Decrypt with the same password, as the code is written.
   * Decrypt reads the ciphertext from EncryptedKey, which Encrypt left empty,
   * so it tags the empty ciphertext: it succeeds only when that tag equals
   * the tag of the real ciphertext, and even then it writes back an empty
   * RawKey. The original raw key never comes back.
   */
  lemma EncryptThenDecrypt(r: KeyRecord, password: Bytes, seed: SaltSeed, p: Primitives)
    requires Base58Lawful(p)
    requires !r.IsEncrypted()
    ensures var e := EncryptRecord(r, password, seed, p).value;
      var key := DeriveKey(p, password, seed);
      && DecryptRecord(e, password, p)
           == (if Tag(p, MacKey(key), []) == EncryptionTag(p, password, seed, r.rawKey)
               then Success(e) else Failure(WrongPassword))
      && (DecryptRecord(e, password, p).Success? ==> DecryptRecord(e, password, p).value.rawKey != r.rawKey)
  {
    var e := EncryptRecord(r, password, seed, p).value;
    EncryptedSaltLayout(r, password, seed, p);
    DecodeEmpty(p);
    assert e.encryptedKey == "";
    assert StoredKey(p, e, password) == DeriveKey(p, password, seed);
    assert p.decode58(e.mac) == EncryptionTag(p, password, seed, r.rawKey);
    var key := DeriveKey(p, password, seed);
    assert Ctr(p, CipherKey(key), Zeros(16), []) == [];
  }

  /**
   * Decryption is repeatable: it leaves the ciphertext, salt and tag in
   * place, so a decrypted record decrypts again to itself.
   */
  lemma DecryptIdempotent(r: KeyRecord, password: Bytes, p: Primitives)
    requires Base58Lawful(p)
    requires DecryptRecord(r, password, p).Success?
    ensures DecryptRecord(DecryptRecord(r, password, p).value, password, p) == DecryptRecord(r, password, p)
  {
    var d := DecryptRecord(r, password, p).value;
    if r.encryptedKey == "" {
      DecodeEmpty(p);
      assert Ctr(p, CipherKey(StoredKey(p, r, password)), StoredSalt(p, r)[SeedLen..SaltLen], []) == [];
      assert d.rawKey == p.encode58([]);
    }
    assert d.IsEncrypted();
    assert StoredSalt(p, d) == StoredSalt(p, r);
  }

  /**
   * The record Decrypt is designed for: ciphertext, full salt and tag
   * stored as Encrypt computes them. Decrypt with the same password
   * verifies the tag and writes back the original plaintext bytes, the
   * empty plaintext included. An empty ciphertext marks the record encrypted
   * only together with an empty RawKey (kp.go:62), hence `requires r.IsEncrypted()`.
   * (The Encrypt of kp.go never produces such a record; see EncryptThenDecrypt.)
   */
  lemma DecryptOpensSealedRecord(r: KeyRecord, plaintext: Bytes, password: Bytes, salt: Bytes, p: Primitives)
    requires Base58Lawful(p)
    requires |salt| == SaltLen
    requires r.IsEncrypted()
    requires var key := DeriveKey(p, password, salt[..SeedLen]);
      var ct := Ctr(p, CipherKey(key), salt[SeedLen..], plaintext);
      && r.encryptedKey == p.encode58(ct)
      && r.salt == p.encode58(salt)
      && r.mac == p.encode58(Tag(p, MacKey(key), ct))
    ensures DecryptRecord(r, password, p).Success?
    ensures p.decode58(DecryptRecord(r, password, p).value.rawKey) == plaintext
  {
    var key := DeriveKey(p, password, salt[..SeedLen]);
    var ct := Ctr(p, CipherKey(key), salt[SeedLen..], plaintext);
    assert p.decode58(r.encryptedKey) == ct;
    assert StoredSalt(p, r) == salt;
    assert salt[SeedLen..SaltLen] == salt[SeedLen..];
    CtrSelfInverse(p, CipherKey(key), salt[SeedLen..], plaintext);
    assert p.decode58(p.encode58(plaintext)) == plaintext;
  }

  /** The in-place record: a KeyPairInfo reached through a pointer. */
  class KeyPairInfo {
    var id: string
    var rawKey: string
    var keyType: string
    var pubKey: string
    var salt: string
    var encryptedKey: string
    var mac: string

    /** Allocates a record holding the given field values. */
    constructor (r: KeyRecord)
      ensures Value() == r
    {
      id, rawKey, keyType, pubKey := r.id, r.rawKey, r.keyType, r.pubKey;
      salt, encryptedKey, mac := r.salt, r.encryptedKey, r.mac;
    }

    /** The current field values. */
    function Value(): KeyRecord
      reads this
    {
      KeyRecord(id, rawKey, keyType, pubKey, salt, encryptedKey, mac)
    }

    /** IsEncrypted (kp.go:61-63) of the current fields. */
    predicate IsEncrypted(): (b: bool)
      reads this
      ensures !b ==> rawKey != "" && encryptedKey == ""
      ensures b <==> encryptedKey != "" || Value().ToKeyPair().Failure?
    {
      Value().IsEncrypted()
    }

    /** Encrypt (kp.go:65-88); `seed` is what the random source writes into salt[0:32]. */
    method Encrypt(password: Bytes, seed: SaltSeed, p: Primitives) returns (err: Option<Error>)
      modifies this
      ensures match EncryptRecord(old(Value()), password, seed, p)
        case Success(v) => err == None && Value() == v
        case Failure(e) => err == Some(e) && Value() == old(Value())
    {
      if IsEncrypted() {
        return Some(AlreadyEncrypted);
      }
      var s := FreshSalt(seed);
      var key := DeriveKey(p, password, s[..SeedLen]);
      var inText := p.decode58(rawKey);
      var outText := Ctr(p, CipherKey(key), s[SeedLen..SaltLen], inText);
      var tag := Tag(p, MacKey(key), outText);
      salt := p.encode58(s);
      mac := p.encode58(tag);
      rawKey := "";
      return None;
    }

    /** Decrypt (kp.go:90-114): on any error no field changes; on success only RawKey is written. */
    method Decrypt(password: Bytes, p: Primitives) returns (err: Option<Error>)
      modifies this
      ensures match DecryptRecord(old(Value()), password, p)
        case Success(v) => err == None && Value() == v
        case Failure(e) => err == Some(e) && Value() == old(Value())
    {
      if !IsEncrypted() {
        return Some(NotEncrypted);
      }
      var s := p.decode58(salt);
      if |s| < SaltLen {
        return Some(SliceOutOfRange);
      }
      var key := DeriveKey(p, password, s[..SeedLen]);
      var inText := p.decode58(encryptedKey);
      var outText := Ctr(p, CipherKey(key), s[SeedLen..SaltLen], inText);
      var tag := Tag(p, MacKey(key), inText);
      if tag != p.decode58(mac) {
        return Some(WrongPassword);
      }
      rawKey := p.encode58(outText);
      return None;
    }
  }
}
