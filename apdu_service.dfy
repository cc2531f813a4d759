/** `DESFireApduService`: builds each command as the upper-case hex text of
    its frame, and keeps the selected application and the key of the last
    authentication request. */
module ApduService {
  import opened Bytes
  import opened Wrappers
  import opened Keys
  import opened Frames
  import opened DesfireUtils

  const AidLengthError: string := "AID must be 3 bytes"

  /** The hex text of a frame: upper-case hex digits only, two per byte,
      reading back as that frame. */
  function HexOf(f: seq<byte>): (r: string)
    ensures Encodes(r, f) && |r| == 2 * |f|
    ensures forall k :: 0 <= k < |r| ==> r[k] in HexDigits
  {
    HexRoundTrip(f);
    UpperHexOnly(f);
    ToHex(f)
  }

  lemma UpperHexOnly(f: seq<byte>)
    ensures forall k :: 0 <= k < |ToHex(f)| ==> ToHex(f)[k] in HexDigits
  {
    forall k | 0 <= k < |ToHex(f)| ensures ToHex(f)[k] in HexDigits {
      ToHexAt(f, k / 2);
    }
  }

  // ---------------------------------------------------------------------
  // Commands without data: `[90, INS, 00, 00, 00]`

  function GetVersion(): (r: string)
    ensures Encodes(r, NoDataFrame(0x60))
  {
    HexOf(NoDataFrame(0x60))
  }

  function GetFreeMemory(): (r: string)
    ensures Encodes(r, NoDataFrame(0x6E))
  {
    HexOf(NoDataFrame(0x6E))
  }

  function FormatPicc(): (r: string)
    ensures Encodes(r, NoDataFrame(0xFC))
  {
    HexOf(NoDataFrame(0xFC))
  }

  function GetApplicationIds(): (r: string)
    ensures Encodes(r, NoDataFrame(0x6A))
  {
    HexOf(NoDataFrame(0x6A))
  }

  function GetFileIds(): (r: string)
    ensures Encodes(r, NoDataFrame(0x6F))
  {
    HexOf(NoDataFrame(0x6F))
  }

  function GetAdditionalFrame(): (r: string)
    ensures Encodes(r, MoreFrame)
  {
    HexOf(MoreFrame)
  }

  function GetCardUid(): (r: string)
    ensures Encodes(r, NoDataFrame(0x51))
  {
    HexOf(NoDataFrame(0x51))
  }

  /** A data-less command is the ten characters "90", the instruction in
      two upper-case hex digits, then "000000". */
  lemma NoDataText(ins: byte)
    ensures HexOf(NoDataFrame(ins)) == ['9', '0', HexDigits[ins / 16], HexDigits[ins % 16], '0', '0', '0', '0', '0', '0']
  {
    var f := NoDataFrame(ins);
    NoDataHex(f, ins);
    assert HexOf(f) == ToHex(f);
  }

  lemma NoDataHex(f: seq<byte>, ins: byte)
    requires f == [0x90, ins, 0, 0, 0]
    ensures ToHex(f) == ['9', '0', HexDigits[ins / 16], HexDigits[ins % 16], '0', '0', '0', '0', '0', '0']
  {
    ToHexAt(f, 0);
    ToHexAt(f, 1);
    ToHexAt(f, 2);
    ToHexAt(f, 3);
    ToHexAt(f, 4);
  }

  /** `getVersion` is the text "9060000000". */
  lemma GetVersionText()
    ensures GetVersion() == "9060000000"
  {
    var f := NoDataFrame(0x60);
    GetVersionHex(f);
    assert HexOf(f) == ToHex(f);
  }

  lemma GetVersionHex(f: seq<byte>)
    requires f == [0x90, 0x60, 0, 0, 0]
    ensures ToHex(f) == "9060000000"
  {
    var h := ToHex(f);
    assert h[0] == '9' && h[1] == '0' by { ToHexAt(f, 0); }
    assert h[2] == '6' && h[3] == '0' by { ToHexAt(f, 1); }
    assert h[4] == '0' && h[5] == '0' by { ToHexAt(f, 2); }
    assert h[6] == '0' && h[7] == '0' by { ToHexAt(f, 3); }
    assert h[8] == '0' && h[9] == '0' by { ToHexAt(f, 4); }
  }

  // ---------------------------------------------------------------------
  // Commands with data

  /** `createApplication`: rejects an AID that is not 3 bytes. */
  function CreateApplication(aid: seq<byte>, keySettings: sbyte, numberOfKeys: sbyte): (r: Outcome<string>)
    ensures r.Raised? <==> |aid| != 3
    ensures r.Raised? ==> r.reason == AidLengthError
    ensures r.Returned? ==> |aid| == 3 && Encodes(r.value, CreateApplicationFrame(aid, keySettings, numberOfKeys))
  {
    if |aid| != 3 then Raised(AidLengthError)
    else Returned(HexOf(CreateApplicationFrame(aid, keySettings, numberOfKeys)))
  }

  /** `deleteApplication`. */
  function DeleteApplication(aid: seq<byte>): (r: Outcome<string>)
    ensures r.Raised? <==> |aid| != 3
    ensures r.Raised? ==> r.reason == AidLengthError
    ensures r.Returned? ==> |aid| == 3 && Encodes(r.value, AidFrame(0xDA, aid))
  {
    if |aid| != 3 then Raised(AidLengthError) else Returned(HexOf(AidFrame(0xDA, aid)))
  }

  /** `getFileSettings`: `[90, F5, 00, 00, 01, fileNo]`. */
  function GetFileSettings(fileNo: sbyte): (r: string)
    ensures Encodes(r, OneByteFrame(0xF5, fileNo))
  {
    HexOf(OneByteFrame(0xF5, fileNo))
  }

  /** `createStdDataFile`: copying two access-right bytes out of a shorter
      array throws. */
  function CreateStdDataFile(fileNo: sbyte, commSettings: sbyte, accessRights: seq<byte>, fileSize: int32): (r: Outcome<string>)
    ensures r.Raised? <==> |accessRights| < 2
    ensures r.Returned? ==> |accessRights| >= 2 && Encodes(r.value, FileFrame(0xCD, fileNo, commSettings, accessRights, fileSize))
  {
    if |accessRights| < 2 then Raised(IndexOutOfBounds)
    else Returned(HexOf(FileFrame(0xCD, fileNo, commSettings, accessRights, fileSize)))
  }

  /** `readData`. */
  function ReadData(fileNo: sbyte, offset: int32, length: int32): (r: string)
    ensures Encodes(r, ReadDataFrame(fileNo, offset, length))
  {
    HexOf(ReadDataFrame(fileNo, offset, length))
  }

  /** `writeData`. */
  function WriteData(fileNo: sbyte, offset: int32, data: seq<byte>): (r: string)
    ensures Encodes(r, WriteDataFrame(fileNo, offset, data))
  {
    HexOf(WriteDataFrame(fileNo, offset, data))
  }

  /** `changeKey`: the new key must hold at least the key length of its
      type; the old key is not used. */
  function ChangeKey(keyNo: sbyte, keyVersion: sbyte, t: KeyType, newKey: seq<byte>, oldKey: seq<byte>): (r: Outcome<string>)
    ensures r.Raised? <==> |newKey| < KeyLength(t)
    ensures r.Returned? ==> KeyLength(t) <= |newKey| && Encodes(r.value, ChangeKeyFrame(keyNo, keyVersion, KeyLength(t), newKey))
  {
    if |newKey| < KeyLength(t) then Raised(IndexOutOfBounds)
    else Returned(HexOf(ChangeKeyFrame(keyNo, keyVersion, KeyLength(t), newKey)))
  }

  // ---------------------------------------------------------------------
  // The service's state

  /** The fields of a `DesfireApduService`, as one value. */
  datatype ApduState = ApduState(keyType: Option<KeyType>, keyNo: sbyte, aid: seq<byte>, authenticated: bool)

  class DesfireApduService {
    var currentKeyType: Option<KeyType>
    var currentKeyNo: sbyte
    var currentAid: seq<byte>
    var authenticated: bool

    /** The selected application is always 3 bytes. */
    ghost predicate Valid()
      reads this
    {
      |currentAid| == 3
    }

    /** A fresh service: no key, key number -1, AID 00 00 00. */
    constructor()
      ensures Valid()
      ensures currentKeyType == None && currentKeyNo == -1 && !authenticated
      ensures currentAid == [0, 0, 0]
    {
      currentAid := [0, 0, 0];
      currentKeyType := None;
      currentKeyNo := -1;
      authenticated := false;
    }

    function IsAuthenticated(): bool
      reads this
    {
      authenticated
    }

    function Fields(): ApduState
      reads this
    {
      ApduState(currentKeyType, currentKeyNo, currentAid, authenticated)
    }

    /** `reset`: forgets the key and the authentication, keeps the AID. */
    method Reset()
      modifies this
      ensures currentKeyType == None && currentKeyNo == -1 && !authenticated
      ensures currentAid == old(currentAid)
    {
      currentKeyType := None;
      currentKeyNo := -1;
      authenticated := false;
    }

    /** `selectApplication`: an AID of the wrong length throws before any
      field changes; otherwise the AID is stored, the authentication state
      reset, and the select frame returned. */
    method SelectApplication(aid: seq<byte>) returns (r: Outcome<string>)
      requires Valid()
      modifies this
      ensures Valid()
      ensures r.Raised? <==> |aid| != 3
      ensures r.Raised? ==>
                r.reason == AidLengthError
                && currentKeyType == old(currentKeyType) && currentKeyNo == old(currentKeyNo)
                && authenticated == old(authenticated) && currentAid == old(currentAid)
      ensures r.Returned? ==>
                Encodes(r.value, AidFrame(0x5A, aid)) && currentAid == aid
                && currentKeyType == None && currentKeyNo == -1 && !authenticated
    {
      if |aid| != 3 {
        return Raised(AidLengthError);
      }
      var f := AidFrame(0x5A, aid);
      currentAid := aid;
      Reset();
      return Returned(HexOf(f));
    }

    /** `authenticate`: records the key number and type, leaves the
      authentication flag as it is, and returns the step-1 frame. */
    method Authenticate(keyNo: sbyte, t: KeyType) returns (r: string)
      modifies this
      ensures Encodes(r, AuthFrame(t, keyNo))
      ensures currentKeyNo == keyNo && currentKeyType == Some(t)
      ensures authenticated == old(authenticated) && currentAid == old(currentAid)
    {
      currentKeyNo := keyNo;
      currentKeyType := Some(t);
      return HexOf(AuthFrame(t, keyNo));
    }
  }
}
