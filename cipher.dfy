/** The block-cipher and CMAC adapters the handshake calls (`DES`,
    `TripleDES`, `AES`, `CMAC`). Their implementations are not part of this
    model: they are supplied as function values, and the only facts used
    about them are the hypotheses stated below. */
module Cipher {
  import opened Bytes
  import opened Wrappers
  import opened Keys

  /** The adapter class a key type is dispatched to by `send`/`recv` and
      `encrypt`/`decrypt`: 2-key and 3-key 3DES share `TripleDES`. */
  datatype Family = SingleDes | TripleDes | Aes

  function FamilyOf(t: KeyType): (f: Family)
    ensures f == TripleDes <==> (t == TDES || t == TKTDES)
    ensures f == Aes <==> t == AES
  {
    match t
    case DES => SingleDes
    case TDES => TripleDes
    case TKTDES => TripleDes
    case AES => Aes
  }

  /** `CMAC.Type`. */
  datatype CmacType = CmacAes | CmacTktdes

  /** CBC encryption and decryption as `(family, iv, key, data)` to result,
      None when the adapter returns null or fails; and the CMAC tag of a
      message as `(type, key, message)`. A missing (null) IV is passed as
      None and makes the cipher call fail. */
  datatype BlockCipher = BlockCipher(
    encrypt: (Family, seq<byte>, seq<byte>, seq<byte>) -> Option<seq<byte>>,
    decrypt: (Family, seq<byte>, seq<byte>, seq<byte>) -> Option<seq<byte>>,
    cmac: (CmacType, seq<byte>, seq<byte>) -> seq<byte>)

  /** CBC decryption inverts CBC encryption under the same key and IV
      (section 6.2 of NIST SP 800-38A). */
  ghost predicate CbcInverse(c: BlockCipher) {
    forall f, iv, key, p :: c.encrypt(f, iv, key, p).Some? ==>
      c.decrypt(f, iv, key, c.encrypt(f, iv, key, p).value) == Some(p)
  }

  /** An AES CMAC tag is one 16-byte block. */
  ghost predicate AesTagsAre16(c: BlockCipher) {
    forall key, m :: |c.cmac(CmacAes, key, m)| == 16
  }

  /** `new SecureRandom().nextBytes` on a fresh array of n bytes, as a
      function from n to the n bytes it yields. */
  type Random = f: nat -> seq<byte> | forall n: nat :: |f(n)| == n
    witness Zeros

  /** A CBC call with a possibly missing IV. */
  function Encrypt(c: BlockCipher, t: KeyType, iv: Option<seq<byte>>, key: seq<byte>, data: seq<byte>): Option<seq<byte>> {
    if iv.None? then None else c.encrypt(FamilyOf(t), iv.value, key, data)
  }

  function Decrypt(c: BlockCipher, t: KeyType, iv: Option<seq<byte>>, key: seq<byte>, data: seq<byte>): Option<seq<byte>> {
    if iv.None? then None else c.decrypt(FamilyOf(t), iv.value, key, data)
  }

  /** What `Decrypt` gives back from the output of `Encrypt`. */
  lemma EncryptDecrypt(c: BlockCipher, t: KeyType, iv: Option<seq<byte>>, key: seq<byte>, p: seq<byte>)
    requires CbcInverse(c) && Encrypt(c, t, iv, key, p).Some?
    ensures Decrypt(c, t, iv, key, Encrypt(c, t, iv, key, p).value) == Some(p)
  {
  }
}
