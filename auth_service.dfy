/** `DESFireAuthService`: the mutual authentication split into three calls
    the host application drives one at a time, relaying the frames to the
    card itself. Unlike `DESFireEV1.authenticate`, every step uses the zero
    IV installed by step 1 (no IV chaining) and the session key of a
    non-AES key is 8 bytes. */
module AuthService {
  import opened Bytes
  import opened Wrappers
  import opened Keys
  import opened Cipher
  import opened Frames
  import opened DesfireUtils
  import opened SessionKeys
  import opened ApduService

  const NotInProgress: string := "Authentication not in progress"
  const Step2Failed: string := "Authentication step 2 failed"
  const NotAuthenticated: string := "Not authenticated"

  /** The authentication fields of a `DesfireAuthService`, as one value. */
  datatype AuthState = AuthState(
    currentKey: Option<seq<byte>>,
    keyType: Option<KeyType>,
    keyNo: sbyte,
    sessionKey: Option<seq<byte>>,
    iv: Option<seq<byte>>,
    randA: Option<seq<byte>>,
    randB: Option<seq<byte>>,
    inProgress: bool)

  /** What `resetAuthState` leaves. */
  const Cleared: AuthState := AuthState(None, None, -1, None, None, None, None, false)

  /** The values step 2 computes: random number A, the card's random number
      B, and the cryptogram of A followed by B rotated left by one byte. */
  datatype Answer = Answer(randA: seq<byte>, randB: seq<byte>, cryptogram: seq<byte>)

  /** Step 2's computation under the IV in force: B decrypted from the
      card's challenge, A drawn with as many bytes, and A + rotate(B)
      encrypted. None when either cipher call fails. */
  function Respond(c: BlockCipher, random: Random, t: KeyType, iv: Option<seq<byte>>, key: seq<byte>, challenge: seq<byte>): (r: Option<Answer>)
    ensures r.Some? ==> Decrypt(c, t, iv, key, challenge) == Some(r.value.randB)
    ensures r.Some? ==> |r.value.randA| == |r.value.randB| && r.value.randA == random(|r.value.randB|)
    ensures r.Some? && CbcInverse(c) ==>
              Decrypt(c, t, iv, key, r.value.cryptogram) == Some(r.value.randA + RotateLeft(r.value.randB))
    ensures Decrypt(c, t, iv, key, challenge).None? ==> r.None?
  {
    var b := Decrypt(c, t, iv, key, challenge);
    if b.None? then None
    else
      var a := random(|b.value|);
      var ct := Encrypt(c, t, iv, key, a + RotateLeft(b.value));
      if ct.None? then None
      else
        assert CbcInverse(c) ==> Decrypt(c, t, iv, key, ct.value) == Some(a + RotateLeft(b.value)) by {
          if CbcInverse(c) {
            EncryptDecrypt(c, t, iv, key, a + RotateLeft(b.value));
          }
        }
        Some(Answer(a, b.value, ct.value))
  }

  class DesfireAuthService {
    /** The `DESFireApduService` part of the object. */
    const base: DesfireApduService
    var currentKey: Option<seq<byte>>
    var currentAuthKeyType: Option<KeyType>
    var currentAuthKeyNo: sbyte
    var sessionKey: Option<seq<byte>>
    var iv: Option<seq<byte>>
    var randA: Option<seq<byte>>
    var randB: Option<seq<byte>>
    var authenticationInProgress: bool

    function Fields(): AuthState
      reads this
    {
      AuthState(currentKey, currentAuthKeyType, currentAuthKeyNo, sessionKey, iv, randA, randB, authenticationInProgress)
    }

    /** A handshake in progress has a key type; authenticated means a
      session key and a key type are present; a session key is one block;
      the IV is a block of zeros. */
    ghost predicate Valid()
      reads this, base
    {
      base.Valid()
      && (authenticationInProgress ==> currentAuthKeyType.Some?)
      && (base.authenticated ==> sessionKey.Some? && currentAuthKeyType.Some?)
      && (sessionKey.Some? ==> |sessionKey.value| == 8 || |sessionKey.value| == 16)
      && (iv.Some? ==> iv.value == Zeros(8) || iv.value == Zeros(16))
    }

    /** The base constructor's call to `reset()` reaches the override, so a
      new service starts with key number -1 and nothing else set. */
    constructor()
      ensures Valid() && fresh(base)
      ensures base.Fields() == ApduState(None, -1, [0, 0, 0], false)
      ensures Fields() == Cleared
    {
      base := new DesfireApduService();
      currentKey := None;
      currentAuthKeyType := None;
      currentAuthKeyNo := -1;
      sessionKey := None;
      iv := None;
      randA := None;
      randB := None;
      authenticationInProgress := false;
    }

    /** `resetAuthState`: forgets the whole handshake and the base class's
      authenticated flag. */
    method ResetAuthState()
      requires Valid()
      modifies this, base
      ensures Valid()
      ensures Fields() == Cleared
      ensures base.Fields() == old(base.Fields()).(authenticated := false)
    {
      currentKey := None;
      currentAuthKeyType := None;
      currentAuthKeyNo := -1;
      sessionKey := None;
      iv := None;
      randA := None;
      randB := None;
      authenticationInProgress := false;
      base.authenticated := false;
    }

    /** `reset`: the base reset, then `resetAuthState`. */
    method Reset()
      requires Valid()
      modifies this, base
      ensures Valid()
      ensures Fields() == Cleared
      ensures base.Fields() == old(base.Fields()).(keyType := None, keyNo := -1, authenticated := false)
    {
      base.Reset();
      ResetAuthState();
    }

    /** `selectApplication`, inherited: its call to `reset()` dispatches to
      the override, so a selection also ends any handshake. */
    method SelectApplication(aid: seq<byte>) returns (r: Outcome<string>)
      requires Valid()
      modifies this, base
      ensures Valid()
      ensures r.Raised? <==> |aid| != 3
      ensures r.Raised? ==> r.reason == AidLengthError && Fields() == old(Fields()) && base.Fields() == old(base.Fields())
      ensures r.Returned? ==>
                Encodes(r.value, AidFrame(0x5A, aid)) && Fields() == Cleared
                && base.Fields() == ApduState(None, -1, aid, false)
    {
      r := base.SelectApplication(aid);
      if r.Returned? {
        ResetAuthState();
      }
    }

    /** `authenticateComplete`: with a key of the right length for its type,
      keeps a copy of it with the DES version bits cleared (an AES key as
      is) and marks a handshake in progress; otherwise resets. */
    method AuthenticateComplete(keyNo: sbyte, t: KeyType, key: Option<seq<byte>>) returns (ok: bool)
      requires Valid()
      modifies this, base
      ensures Valid()
      ensures ok <==> ValidateKey(key, t)
      ensures ok ==>
                Fields() == old(Fields()).(currentKey := Some(EffectiveKey(key.value, t)), keyType := Some(t),
                                           keyNo := keyNo, inProgress := true)
                && base.Fields() == old(base.Fields())
      ensures !ok ==> Fields() == Cleared && base.Fields() == old(base.Fields()).(authenticated := false)
    {
      if !ValidateKey(key, t) {
        ResetAuthState();
        return false;
      }
      var k := key.value;
      var copy := new byte[|k|](i requires 0 <= i < |k| => k[i]);
      assert copy[..] == k;
      if t != AES {
        SetKeyVersion(copy, 0, copy.Length, 0);
      }
      currentKey := Some(copy[..]);
      currentAuthKeyType := Some(t);
      currentAuthKeyNo := keyNo;
      authenticationInProgress := true;
      return true;
    }

    /** `authenticate1`: records the key, starts a handshake with a zero IV of
      one block, and returns the step-1 frame. The base class's fields are
      not touched. */
    method Authenticate1(keyNo: sbyte, t: KeyType) returns (r: string)
      requires Valid()
      modifies this
      ensures Valid()
      ensures Encodes(r, AuthFrame(t, keyNo))
      ensures Fields() == old(Fields()).(keyNo := keyNo, keyType := Some(t), inProgress := true,
                                         iv := Some(Zeros(BlockLength(t))))
    {
      currentAuthKeyNo := keyNo;
      currentAuthKeyType := Some(t);
      authenticationInProgress := true;
      iv := Some(Zeros(BlockLength(t)));
      assert Valid();
      r := HexOf(AuthFrame(t, keyNo));
    }

    /** `authenticate2`: outside a handshake it throws and changes nothing.
      Inside, it decrypts the card's challenge into B, draws A, and returns
      the frame `[90, AF, 00, 00, Lc, E(A + rotate(B))]`; a failing cipher
      call resets the state and throws. The IV is not advanced. */
    method Authenticate2(c: BlockCipher, random: Random, key: seq<byte>, keyNo: sbyte, t: KeyType, randBEncrypted: seq<byte>)
      returns (r: Outcome<string>)
      requires Valid()
      modifies this, base
      ensures Valid()
      ensures !old(authenticationInProgress) ==>
                r == Raised(NotInProgress) && Fields() == old(Fields()) && base.Fields() == old(base.Fields())
      ensures old(authenticationInProgress) ==>
                var answer := Respond(c, random, t, old(iv), key, randBEncrypted);
                && (r.Returned? <==> answer.Some?)
                && (r.Returned? ==>
                      Encodes(r.value, DataFrame(0xAF, answer.value.cryptogram))
                      && Fields() == old(Fields()).(currentKey := Some(key), randA := Some(answer.value.randA),
                                                    randB := Some(answer.value.randB))
                      && base.Fields() == old(base.Fields()))
                && (r.Raised? ==>
                      r.reason == Step2Failed && Fields() == Cleared
                      && base.Fields() == old(base.Fields()).(authenticated := false))
    {
      if !authenticationInProgress {
        return Raised(NotInProgress);
      }
      currentKey := Some(key);
      var answer := Respond(c, random, t, iv, key, randBEncrypted);
      if answer.None? {
        ResetAuthState();
        return Raised(Step2Failed);
      }
      randB := Some(answer.value.randB);
      randA := Some(answer.value.randA);
      assert Valid();
      assert Fields() == old(Fields()).(currentKey := Some(key), randA := Some(answer.value.randA),
                                        randB := Some(answer.value.randB));
      r := Returned(HexOf(DataFrame(0xAF, answer.value.cryptogram)));
    }

    /** `authenticate3`: outside a handshake it throws. Inside, it succeeds
      exactly when the card's answer decrypts, under the same IV, to A
      rotated left by one byte and the session key can be cut from A and B;
      then the session key is set, the base class is marked authenticated
      and the handshake ends. Every failure resets the state and returns
      false. */
    method Authenticate3(c: BlockCipher, key: seq<byte>, keyNo: sbyte, t: KeyType, cardResponse: seq<byte>)
      returns (r: Outcome<bool>)
      requires Valid()
      modifies this, base
      ensures Valid()
      ensures !old(authenticationInProgress) ==>
                r == Raised(NotInProgress) && Fields() == old(Fields()) && base.Fields() == old(base.Fields())
      ensures old(authenticationInProgress) ==>
                r.Returned?
                && (r.value <==>
                      old(randA).Some? && old(randB).Some?
                      && Decrypt(c, t, old(iv), key, cardResponse) == Some(RotateLeft(old(randA).value))
                      && AuthServiceSessionKey(t, old(randA).value, old(randB).value).Some?)
                && (r.value ==>
                      Fields() == old(Fields()).(sessionKey := AuthServiceSessionKey(t, old(randA).value, old(randB).value),
                                                 inProgress := false)
                      && base.Fields() == old(base.Fields()).(authenticated := true))
                && (!r.value ==> Fields() == Cleared && base.Fields() == old(base.Fields()).(authenticated := false))
    {
      if !authenticationInProgress {
        return Raised(NotInProgress);
      }
      var d := Decrypt(c, t, iv, key, cardResponse);
      if d.None? || randA.None? || d.value != RotateLeft(randA.value) || randB.None? {
        ResetAuthState();
        return Returned(false);
      }
      var sk := AuthServiceSessionKey(t, randA.value, randB.value);
      if sk.None? {
        ResetAuthState();
        return Returned(false);
      }
      sessionKey := sk;
      base.authenticated := true;
      authenticationInProgress := false;
      return Returned(true);
    }

    /** `encryptData`: CBC encryption under the session key, the key type of
      the handshake and the zero IV; throws when not authenticated. */
    function EncryptData(c: BlockCipher, data: seq<byte>): (r: Outcome<Option<seq<byte>>>)
      reads this, base
      ensures Valid() ==> (r.Raised? <==> !base.authenticated)
      ensures !base.authenticated ==> r == Raised(NotAuthenticated)
    {
      if !base.authenticated || sessionKey.None? then Raised(NotAuthenticated)
      else if currentAuthKeyType.None? then Raised(NullPointer)
      else Returned(Encrypt(c, currentAuthKeyType.value, iv, sessionKey.value, data))
    }

    /** `decryptData`: the inverse of `encryptData`. */
    function DecryptData(c: BlockCipher, data: seq<byte>): (r: Outcome<Option<seq<byte>>>)
      reads this, base
      ensures Valid() ==> (r.Raised? <==> !base.authenticated)
      ensures !base.authenticated ==> r == Raised(NotAuthenticated)
    {
      if !base.authenticated || sessionKey.None? then Raised(NotAuthenticated)
      else if currentAuthKeyType.None? then Raised(NullPointer)
      else Returned(Decrypt(c, currentAuthKeyType.value, iv, sessionKey.value, data))
    }

    /** `generateCmac`: an AES CMAC for an AES handshake, a 3K3DES CMAC for
      any other; throws when not authenticated. */
    function GenerateCmac(c: BlockCipher, data: seq<byte>): (r: Outcome<seq<byte>>)
      reads this, base
      ensures r.Raised? <==> !base.authenticated || sessionKey.None?
      ensures r.Raised? ==> r == Raised(NotAuthenticated)
      ensures r.Returned? && currentAuthKeyType == Some(AES) && AesTagsAre16(c) ==> |r.value| == 16
    {
      if !base.authenticated || sessionKey.None? then Raised(NotAuthenticated)
      else
        var kind := if currentAuthKeyType == Some(AES) then CmacAes else CmacTktdes;
        Returned(c.cmac(kind, sessionKey.value, data))
    }

    /** What `encryptData` produces, `decryptData` turns back into the
      plaintext. */
    lemma SessionRoundTrip(c: BlockCipher, data: seq<byte>)
      requires Valid() && CbcInverse(c)
      requires EncryptData(c, data).Returned? && EncryptData(c, data).value.Some?
      ensures DecryptData(c, EncryptData(c, data).value.value) == Returned(Some(data))
    {
      EncryptDecrypt(c, currentAuthKeyType.value, iv, sessionKey.value, data);
    }
  }

  /** A whole handshake against a card that holds the same key and answers
      honestly: the card encrypts B under the zero IV, reads A back out of
      the step-2 frame and answers with A rotated. When every cipher call
      succeeds and B is long enough, step 3 accepts and the session key is
      cut from A and B. */
  method HonestHandshake(c: BlockCipher, random: Random, key: seq<byte>, keyNo: sbyte, t: KeyType, randB: seq<byte>)
    returns (accepted: Outcome<bool>, sessionKey: Option<seq<byte>>)
    requires CbcInverse(c)
    requires |randB| >= (if t == AES then 16 else 4)
    requires Encrypt(c, t, Some(Zeros(BlockLength(t))), key, randB).Some?
    requires Encrypt(c, t, Some(Zeros(BlockLength(t))), key, random(|randB|) + RotateLeft(randB)).Some?
    requires Encrypt(c, t, Some(Zeros(BlockLength(t))), key, RotateLeft(random(|randB|))).Some?
    ensures accepted == Returned(true)
    ensures sessionKey == AuthServiceSessionKey(t, random(|randB|), randB) && sessionKey.Some?
  {
    var iv0 := Some(Zeros(BlockLength(t)));
    var service := new DesfireAuthService();
    var step1 := service.Authenticate1(keyNo, t);
    // The card: its challenge is B encrypted under the zero IV.
    var challenge := Encrypt(c, t, iv0, key, randB).value;
    EncryptDecrypt(c, t, iv0, key, randB);
    var step2 := service.Authenticate2(c, random, key, keyNo, t, challenge);
    // The card: reads the cryptogram out of the hex frame, recovers A and
    // answers with A rotated left under the same IV.
    var frame := ParseHexString(Some(step2.value)).value.value;
    var plain := Decrypt(c, t, iv0, key, frame[5..]).value;
    var a := plain[..|randB|];
    assert a == random(|randB|);
    var response := Encrypt(c, t, iv0, key, RotateLeft(a)).value;
    EncryptDecrypt(c, t, iv0, key, RotateLeft(a));
    accepted := service.Authenticate3(c, key, keyNo, t, response);
    sessionKey := service.sessionKey;
  }
}
