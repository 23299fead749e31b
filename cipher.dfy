/**
 * The cipher engine of the keystore: password-based key derivation with
 * scrypt (RFC 7914), AES in counter mode (section 6.5 of NIST SP 800-38A)
 * and a Sha3 tag over the ciphertext, with Base58 as the text encoding of
 * every binary field.
 *
 * The four algorithms are library code and stay opaque: they are fields of
 * `Primitives`, a record of function values. What the model knows of them is
 * their output lengths (given by subset types) and, where a lemma needs it,
 * two hypotheses on the Base58 codec (`Base58Lawful`): decoding undoes
 * encoding, and the empty byte string encodes to the empty text, so that
 * decoding "" gives the empty byte string. Counter mode is
 * modelled by its keystream, one byte per position, so that the XOR step and
 * its properties are stated exactly.
 */
module Cipher {

  type byte = bv8
  type Bytes = seq<byte>

  /** Parameters of the scrypt call: cost N, block size r, parallelism p, output length. */
  datatype ScryptParams = ScryptParams(n: nat, r: nat, p: nat, keyLen: nat)

  /** The constants used by both Encrypt and Decrypt (kp.go:71, kp.go:95). */
  const KdfParams := ScryptParams(32768, 8, 1, 32)

  /** Length of the random part of the salt, which is the scrypt salt. */
  const SeedLen := 32
  /** Length of the whole stored salt: scrypt salt followed by the CTR nonce. */
  const SaltLen := 48

  /** The 32 bytes scrypt returns for `KdfParams`. */
  type DerivedKey = k: Bytes | |k| == 32 witness seq(32, _ => 0)

  /** A Sha3-256 digest. */
  type Digest = d: Bytes | |d| == 32 witness seq(32, _ => 0)

  /** The 32 random bytes that fill the front of a fresh salt. */
  type SaltSeed = s: Bytes | |s| == SeedLen witness seq(32, _ => 0)

  /**
   * The library primitives the keystore calls.
   * - scrypt(password, salt, params): the derived key;
   * - keystream(key, iv, i): byte i of the AES-CTR keystream for that key and
   *   initial counter block;
   * - sha3(data): the digest of data;
   * - encode58 / decode58: the Base58 text encoding and its decoder.
   */
  datatype Primitives = Primitives(
    scrypt: (Bytes, Bytes, ScryptParams) -> DerivedKey,
    keystream: (Bytes, Bytes, nat) -> byte,
    sha3: Bytes -> Digest,
    encode58: Bytes -> string,
    decode58: string -> Bytes)

  /**
   * What a correct Base58 codec guarantees; a hypothesis of the lemmas that
   * need it. The second clause does not follow from the first: it is what
   * makes the empty text decode to the empty byte string.
   */
  ghost predicate Base58Lawful(p: Primitives)
  {
    && (forall b :: p.decode58(p.encode58(b)) == b)
    && p.encode58([]) == ""
  }

  function Zeros(n: nat): (z: Bytes)
    ensures |z| == n
  {
    seq(n, _ => 0)
  }

  /** The key material for a password and a 32-byte scrypt salt. */
  function DeriveKey(p: Primitives, password: Bytes, kdfSalt: Bytes): DerivedKey
  {
    p.scrypt(password, kdfSalt, KdfParams)
  }

  /** Bytes [0, 16) of the derived key: the AES-128 key. */
  function CipherKey(key: DerivedKey): (ck: Bytes)
    ensures |ck| == 16
    ensures ck + MacKey(key) == key
  {
    key[..16]
  }

  /** Bytes [16, 32) of the derived key: the key prepended to the ciphertext before hashing. */
  function MacKey(key: DerivedKey): (mk: Bytes)
    ensures |mk| == 16
  {
    key[16..]
  }

  /** A fresh salt: 32 random bytes, then 16 bytes left at zero (kp.go:69-70). */
  function FreshSalt(seed: SaltSeed): (salt: Bytes)
    ensures |salt| == SaltLen
    ensures salt[..SeedLen] == seed
    ensures salt[SeedLen..] == Zeros(16)
  {
    seed + Zeros(16)
  }

  /** The CTR step: every byte of the input is XOR-ed with the keystream byte at its position. */
  function Ctr(p: Primitives, key: Bytes, iv: Bytes, data: Bytes): (out: Bytes)
    ensures |out| == |data|
  {
    seq(|data|, i requires 0 <= i < |data| => data[i] ^ p.keystream(key, iv, i))
  }

  /** The integrity tag: Sha3 of the MAC key followed by the ciphertext. */
  function Tag(p: Primitives, macKey: Bytes, ciphertext: Bytes): Digest
  {
    p.sha3(macKey + ciphertext)
  }

  /** XOR-ing twice with the same keystream gives the input back: CTR decryption is CTR encryption. */
  lemma CtrSelfInverse(p: Primitives, key: Bytes, iv: Bytes, data: Bytes)
    ensures Ctr(p, key, iv, Ctr(p, key, iv, data)) == data
  {
    var once := Ctr(p, key, iv, data);
    var twice := Ctr(p, key, iv, once);
    forall i | 0 <= i < |data|
      ensures twice[i] == data[i]
    {
      var k := p.keystream(key, iv, i);
      assert twice[i] == (data[i] ^ k) ^ k;
    }
  }

  /** Different inputs give different outputs under one keystream. */
  lemma CtrInjective(p: Primitives, key: Bytes, iv: Bytes, a: Bytes, b: Bytes)
    requires Ctr(p, key, iv, a) == Ctr(p, key, iv, b)
    ensures a == b
  {
    CtrSelfInverse(p, key, iv, a);
    CtrSelfInverse(p, key, iv, b);
  }

  /** Decoding the encoding of the empty byte string gives the empty byte string. */
  lemma DecodeEmpty(p: Primitives)
    requires Base58Lawful(p)
    ensures p.decode58("") == []
  {
    assert p.decode58(p.encode58([])) == [];
  }
}
