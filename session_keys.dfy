/** How the two authentication implementations derive the session key from
    the host's random number A and the card's random number B. */
module SessionKeys {
  import opened Bytes
  import opened Wrappers
  import opened Keys

  /** How many bytes of each random number `DESFireEV1.generateSessionKey`
      copies from, per key type. */
  function Ev1Span(t: KeyType): nat {
    match t
    case DES => 4
    case TDES => 8
    case TKTDES => 16
    case AES => 16
  }

  /** `DESFireEV1.generateSessionKey`: four-byte slices of A and B taken
      alternately; None where a slice reaches past the end of an array. */
  function Ev1SessionKey(randA: seq<byte>, randB: seq<byte>, t: KeyType): (r: Option<seq<byte>>)
    ensures r.Some? <==> |randA| >= Ev1Span(t) && |randB| >= Ev1Span(t)
    ensures r.Some? ==> |r.value| == KeyLength(t)
    ensures r.Some? ==> r.value[..4] == randA[..4] && r.value[4..8] == randB[..4]
  {
    if |randA| < Ev1Span(t) || |randB| < Ev1Span(t) then None
    else
      match t
      case DES => Some(randA[..4] + randB[..4])
      case TDES => Some(randA[..4] + randB[..4] + randA[4..8] + randB[4..8])
      case TKTDES => Some(randA[..4] + randB[..4] + randA[6..10] + randB[6..10] + randA[12..16] + randB[12..16])
      case AES => Some(randA[..4] + randB[..4] + randA[12..16] + randB[12..16])
  }

  /** Where the pairs of four-byte slices of a `DESFireEV1` session key
      start: pair j is A[o..o+4] followed by B[o..o+4] with o the j-th
      offset. */
  function Ev1Offsets(t: KeyType): seq<nat> {
    match t
    case DES => [0]
    case TDES => [0, 4]
    case TKTDES => [0, 6, 12]
    case AES => [0, 12]
  }

  /** Pair j of a `DESFireEV1` session key, its bytes 8j to 8j + 8, is
      A[o..o+4] followed by B[o..o+4], with o the j-th offset of its key
      type; the pairs fill the whole key. */
  lemma Ev1SessionKeyBytes(randA: seq<byte>, randB: seq<byte>, t: KeyType)
    requires |randA| >= Ev1Span(t) && |randB| >= Ev1Span(t)
    ensures |Ev1SessionKey(randA, randB, t).value| == 8 * |Ev1Offsets(t)|
    ensures forall j :: 0 <= j < |Ev1Offsets(t)| ==>
      Ev1Offsets(t)[j] + 4 <= Ev1Span(t)
      && Ev1SessionKey(randA, randB, t).value[8 * j..8 * j + 4] == randA[Ev1Offsets(t)[j]..Ev1Offsets(t)[j] + 4]
      && Ev1SessionKey(randA, randB, t).value[8 * j + 4..8 * j + 8] == randB[Ev1Offsets(t)[j]..Ev1Offsets(t)[j] + 4]
  {
    var k := Ev1SessionKey(randA, randB, t).value;
    assert k[0..4] == randA[0..4] && k[4..8] == randB[0..4];
    match t
    case DES =>
    case TDES =>
      assert k[8..12] == randA[4..8] && k[12..16] == randB[4..8];
    case TKTDES =>
      assert k[8..12] == randA[6..10] && k[12..16] == randB[6..10];
      assert k[16..20] == randA[12..16] && k[20..24] == randB[12..16];
    case AES =>
      assert k[8..12] == randA[12..16] && k[12..16] == randB[12..16];
  }

  /** `DESFireAuthService.generateSessionKey`: an AES key is built as in
      `DESFireEV1`; every other key type gets the 8 bytes A[0..4] B[0..4]. */
  function AuthServiceSessionKey(t: KeyType, randA: seq<byte>, randB: seq<byte>): (r: Option<seq<byte>>)
    ensures r.Some? <==> |randA| >= (if t == AES then 16 else 4) && |randB| >= (if t == AES then 16 else 4)
    ensures r.Some? ==> |r.value| == BlockLength(t)
  {
    var span := if t == AES then 16 else 4;
    if |randA| < span || |randB| < span then None
    else if t == AES then Some(randA[..4] + randB[..4] + randA[12..16] + randB[12..16])
    else Some(randA[..4] + randB[..4])
  }

  /** The two derivations agree on DES and AES keys; for 2-key and 3-key
      3DES the authentication service keeps only the first 8 of the 16 or
      24 bytes `DESFireEV1` derives, and it accepts random numbers too short
      for `DESFireEV1`. */
  lemma SessionKeysAgree(t: KeyType, randA: seq<byte>, randB: seq<byte>)
    ensures Ev1SessionKey(randA, randB, t).Some? ==>
              AuthServiceSessionKey(t, randA, randB) == Some(Ev1SessionKey(randA, randB, t).value[..BlockLength(t)])
    ensures t == DES || t == AES ==> AuthServiceSessionKey(t, randA, randB) == Ev1SessionKey(randA, randB, t)
    ensures t != AES ==> (AuthServiceSessionKey(t, randA, randB).Some? <==> |randA| >= 4 && |randB| >= 4)
  {
    var e := Ev1SessionKey(randA, randB, t);
    if e.Some? {
      assert e.value[..BlockLength(t)] == AuthServiceSessionKey(t, randA, randB).value;
    }
  }

  /** A session key is the same for the same random numbers, and for a DES
      key it changes whenever the first four bytes of either number do. */
  lemma DesSessionKeyDetermined(a1: seq<byte>, b1: seq<byte>, a2: seq<byte>, b2: seq<byte>)
    requires |a1| >= 4 && |b1| >= 4 && |a2| >= 4 && |b2| >= 4
    ensures Ev1SessionKey(a1, b1, DES) == Ev1SessionKey(a2, b2, DES) <==> a1[..4] == a2[..4] && b1[..4] == b2[..4]
  {
    var k1 := Ev1SessionKey(a1, b1, DES).value;
    var k2 := Ev1SessionKey(a2, b2, DES).value;
    if k1 == k2 {
      assert a1[..4] == k1[..4] == a2[..4];
      assert b1[..4] == k1[4..8] == b2[..4];
    }
  }
}
