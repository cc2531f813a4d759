/** Key types and the byte helpers both authentication implementations share:
    key validation, key-version bits, and the one-byte rotation of the
    handshake challenges. */
module Keys {
  import opened Bytes
  import opened Wrappers

  /** The four cipher suites of a DESFire EV1 key. */
  datatype KeyType = DES | TDES | TKTDES | AES

  /** `getKeyLength`: the length of a key of each type. */
  function KeyLength(t: KeyType): (n: nat)
    ensures n == 8 || n == 16 || n == 24
    ensures (n == 24) == (t == TKTDES) && (n == 8) == (t == DES)
  {
    match t
    case DES => 8
    case TDES => 16
    case TKTDES => 24
    case AES => 16
  }

  /** The length of the all-zero IV a handshake starts from: one cipher block. */
  function BlockLength(t: KeyType): (n: nat)
    ensures n == (if t == AES then 16 else 8)
  {
    if t == AES then 16 else 8
  }

  /** `validateKey`: a key is usable when it is present and has the length
      of its type. */
  function ValidateKey(key: Option<seq<byte>>, t: KeyType): (ok: bool)
    ensures ok <==> key.Some? && |key.value| == KeyLength(t)
  {
    match key
    case None => false
    case Some(k) =>
      match t
      case DES => |k| == 8
      case TDES => |k| == 16
      case TKTDES => |k| == 24
      case AES => |k| == 16
  }

  /** The instruction byte of the first handshake frame: DES and 2-key 3DES
      share 0x0A, 3-key 3DES uses 0x1A and AES 0xAA. */
  function AuthInstruction(t: KeyType): (ins: byte)
    ensures ins == 0x0A <==> (t == DES || t == TDES)
    ensures ins == 0x1A <==> t == TKTDES
    ensures ins == 0xAA <==> t == AES
  {
    match t
    case DES => 0x0A
    case TDES => 0x0A
    case TKTDES => 0x1A
    case AES => 0xAA
  }

  // ---------------------------------------------------------------------
  // Key-version bits

  /** Byte `j` of a key is the last byte of one of the 8-byte groups that
      `setKeyVersion(key, offset, length, v)` visits. */
  predicate IsVersionByte(j: int, offset: nat, length: int) {
    j >= offset + 7 && (j - offset - 7) % 8 == 0 && j - 7 < offset + length
  }

  /** `(byte) (b & 0xFE | version & 0x01)`: bit 0 of `b` replaced by bit 0 of
      the version. */
  function SetLowBit(b: byte, version: sbyte): (r: byte)
    ensures r / 2 == b / 2 && r % 2 == version % 2
  {
    b - b % 2 + version % 2
  }

  /** The key after `setKeyVersion(key, offset, length, version)`. */
  function WithKeyVersion(k: seq<byte>, offset: nat, length: int, version: sbyte): (r: seq<byte>)
    ensures |r| == |k|
  {
    seq(|k|, j requires 0 <= j < |k| =>
      if IsVersionByte(j, offset, length) then SetLowBit(k[j], version) else k[j])
  }

  /** `setKeyVersion`: for every 8-byte group starting at offset, offset+8,
      ... below offset+length whose last byte lies inside the key, set bit 0
      of that byte to bit 0 of `version`. The caller's array is changed in
      place. */
  method SetKeyVersion(key: array<byte>, offset: nat, length: int, version: sbyte)
    modifies key
    ensures key[..] == WithKeyVersion(old(key[..]), offset, length, version)
  {
    var i := offset;
    while i < offset + length
      invariant i >= offset && (i - offset) % 8 == 0
      invariant forall j :: 0 <= j < key.Length ==>
        key[j] == if IsVersionByte(j, offset, length) && j - 7 < i
                  then SetLowBit(old(key[j]), version) else old(key[j])
    {
      if i + 7 < key.Length {
        key[i + 7] := SetLowBit(key[i + 7], version);
      }
      i := i + 8;
    }
  }

  /** The key the handshake encrypts with: non-AES keys have their version
      bits cleared first (`setKeyVersion(key, 0, key.length, 0)`). */
  function EffectiveKey(key: seq<byte>, t: KeyType): (r: seq<byte>)
    ensures |r| == |key|
  {
    if t == AES then key else WithKeyVersion(key, 0, |key|, 0)
  }

  /** Clearing the version of a whole key clears bit 0 of bytes 7, 15, 23, ...
      and leaves every other byte alone. */
  lemma ClearedVersionBits(k: seq<byte>, j: nat)
    requires j < |k|
    ensures WithKeyVersion(k, 0, |k|, 0)[j] == if j % 8 == 7 then k[j] - k[j] % 2 else k[j]
    ensures j % 8 == 7 ==> WithKeyVersion(k, 0, |k|, 0)[j] % 2 == 0
  {
    assert IsVersionByte(j, 0, |k|) <==> j % 8 == 7;
  }

  /** Clearing the version bits twice is clearing them once. */
  lemma ClearVersionIdempotent(k: seq<byte>)
    ensures WithKeyVersion(WithKeyVersion(k, 0, |k|, 0), 0, |k|, 0) == WithKeyVersion(k, 0, |k|, 0)
  {
    var once := WithKeyVersion(k, 0, |k|, 0);
    forall j | 0 <= j < |k|
      ensures WithKeyVersion(once, 0, |k|, 0)[j] == once[j]
    {
      ClearedVersionBits(k, j);
      ClearedVersionBits(once, j);
    }
  }

  // ---------------------------------------------------------------------
  // Challenge rotation

  /** `rotateLeft`: byte 0 moves to the end; an empty array is returned as is. */
  function RotateLeft(data: seq<byte>): (r: seq<byte>)
    ensures |r| == |data|
    ensures forall i :: 0 <= i < |data| - 1 ==> r[i] == data[i + 1]
    ensures |data| > 0 ==> r[|data| - 1] == data[0]
  {
    if |data| == 0 then data else data[1..] + [data[0]]
  }

  /** k successive rotations. */
  function Rotations(data: seq<byte>, k: nat): seq<byte> {
    if k == 0 then data else RotateLeft(Rotations(data, k - 1))
  }

  /** After k rotations (k at most the length) the first k bytes have moved
      to the end, in order. */
  lemma {:induction false} RotationsSplit(data: seq<byte>, k: nat)
    requires k <= |data|
    ensures Rotations(data, k) == data[k..] + data[..k]
  {
    if k > 0 {
      RotationsSplit(data, k - 1);
      var prev := data[k - 1..] + data[..k - 1];
      assert Rotations(data, k) == RotateLeft(prev);
      assert prev[1..] + [prev[0]] == data[k..] + data[..k];
    }
  }

  /** Rotating a challenge once per byte gives it back, so rotation is a
      bijection on challenges of a fixed length. */
  lemma RotationsFullCircle(data: seq<byte>)
    ensures Rotations(data, |data|) == data
  {
    RotationsSplit(data, |data|);
  }

  /** Rotation loses nothing: equal rotations come from equal challenges. */
  lemma RotateLeftInjective(a: seq<byte>, b: seq<byte>)
    requires RotateLeft(a) == RotateLeft(b)
    ensures a == b
  {
    assert |a| == |b|;
    if |a| > 0 {
      assert a[0] == RotateLeft(a)[|a| - 1];
      forall i | 1 <= i < |a| ensures a[i] == b[i] {
        assert RotateLeft(a)[i - 1] == a[i];
      }
    }
  }
}
