/** The command frames the services build: a DESFire native command wrapped
    as an ISO/IEC 7816-4 command APDU, `[CLA=0x90, INS, P1=0, P2=0, Lc,
    data..., optional Le=0]`. Each builder states its byte layout and what
    the command-APDU parser reads it as. */
module Frames {
  import opened Bytes
  import opened Wrappers
  import opened Iso7816
  import opened Keys

  /** The wrapping class byte. */
  const Cla: byte := 0x90

  /** `[90, INS, 00, 00, 00]`: no data, and a response of up to 256 bytes
      expected (a short Le byte of 0x00). */
  function NoDataFrame(ins: byte): (f: seq<byte>)
    ensures |f| == 5 && f[1] == ins
    ensures Decode(f) == Some(Command(Cla, ins, 0, 0, [], 0x100))
  {
    [Cla, ins, 0, 0, 0]
  }

  /** `[90, INS, 00, 00, Lc, data...]` with Lc the data length cast to a
      byte, and no Le. */
  function DataFrame(ins: byte, data: seq<byte>): (f: seq<byte>)
    ensures |f| == 5 + |data| && f[..4] == [Cla, ins, 0, 0]
    ensures f[4] == |data| % 0x100 && f[5..] == data
    ensures 0 < |data| <= 0xFF ==> Decode(f) == Some(Command(Cla, ins, 0, 0, data, 0))
  {
    var f := [Cla, ins, 0, 0, Octet(|data|)] + data;
    if 0 < |data| <= 0xFF then
      var c := Command(Cla, ins, 0, 0, data, 0);
      assert EncodeShort(c) == f;
      DecodeEncodeShort(c);
      f
    else f
  }

  /** A data frame followed by a zero Le byte. */
  function DataFrameLe(ins: byte, data: seq<byte>): (f: seq<byte>)
    ensures |f| == 6 + |data| && f[..4] == [Cla, ins, 0, 0]
    ensures f[4] == |data| % 0x100 && f[5..5 + |data|] == data && f[5 + |data|] == 0
    ensures 0 < |data| <= 0xFF ==> Decode(f) == Some(Command(Cla, ins, 0, 0, data, 0x100))
  {
    var f := DataFrame(ins, data) + [0];
    if 0 < |data| <= 0xFF then
      var c := Command(Cla, ins, 0, 0, data, 0x100);
      assert EncodeShort(c) == f;
      DecodeEncodeShort(c);
      f
    else f
  }

  /** A frame with Le is read back as its own data exactly when the data
      fits a one-byte Lc and is not empty; otherwise the parser rejects it
      or reads something else. */
  lemma DataFrameLeParses(ins: byte, data: seq<byte>)
    ensures Decode(DataFrameLe(ins, data)) == Some(Command(Cla, ins, 0, 0, data, 0x100))
            <==> 0 < |data| <= 0xFF
  {
    var f := DataFrameLe(ins, data);
    if Decode(f) == Some(Command(Cla, ins, 0, 0, data, 0x100)) {
      ShortFormData(f, Decode(f).value);
    }
  }

  /** The same for a frame without Le. */
  lemma DataFrameParses(ins: byte, data: seq<byte>)
    ensures Decode(DataFrame(ins, data)) == Some(Command(Cla, ins, 0, 0, data, 0))
            <==> 0 < |data| <= 0xFF
  {
    var f := DataFrame(ins, data);
    if Decode(f) == Some(Command(Cla, ins, 0, 0, data, 0)) && |f| >= 6 {
      ShortFormData(f, Decode(f).value);
    }
  }

  // ---------------------------------------------------------------------
  // The frames of the individual commands

  /** The "continue" frame sent while the card answers 0xAF. */
  const MoreFrame: seq<byte> := NoDataFrame(0xAF)

  /** Step 1 of the mutual authentication:
      `[90, 0A|1A|AA, 00, 00, 01, keyNo, 00]`. */
  function AuthFrame(t: KeyType, keyNo: sbyte): (f: seq<byte>)
    ensures f == [Cla, AuthInstruction(t), 0, 0, 1, Octet(keyNo), 0]
    ensures Decode(f) == Some(Command(Cla, AuthInstruction(t), 0, 0, [Octet(keyNo)], 0x100))
  {
    var f := DataFrameLe(AuthInstruction(t), [Octet(keyNo)]);
    assert f == f[..4] + [f[4]] + f[5..6] + [f[6]];
    f
  }

  /** A frame whose data is one Java byte (`getFileSettings`, `deleteFile`,
      `changeKeySettings`): `[90, INS, 00, 00, 01, b]`. */
  function OneByteFrame(ins: byte, b: sbyte): (f: seq<byte>)
    ensures f == [Cla, ins, 0, 0, 1, Octet(b)]
    ensures Decode(f) == Some(Command(Cla, ins, 0, 0, [Octet(b)], 0))
  {
    var f := DataFrame(ins, [Octet(b)]);
    assert f == f[..4] + [f[4]] + f[5..];
    f
  }

  /** `selectApplication` (0x5A) and `deleteApplication` (0xDA):
      `[90, INS, 00, 00, 03, aid]`. */
  function AidFrame(ins: byte, aid: seq<byte>): (f: seq<byte>)
    requires |aid| == 3
    ensures |f| == 8 && f[4] == 3 && f[5..] == aid
    ensures Decode(f) == Some(Command(Cla, ins, 0, 0, aid, 0))
  {
    DataFrame(ins, aid)
  }

  /** `createApplication`: `[90, CA, 00, 00, 05, aid, keySettings,
      numberOfKeys]`. */
  function CreateApplicationFrame(aid: seq<byte>, keySettings: sbyte, numberOfKeys: sbyte): (f: seq<byte>)
    requires |aid| == 3
    ensures |f| == 10 && f[4] == 5 && f[5..8] == aid
    ensures f[8] == Octet(keySettings) && f[9] == Octet(numberOfKeys)
    ensures Decode(f) == Some(Command(Cla, 0xCA, 0, 0, aid + [Octet(keySettings), Octet(numberOfKeys)], 0))
  {
    var data := aid + [Octet(keySettings), Octet(numberOfKeys)];
    var f := DataFrame(0xCA, data);
    assert f[5..8] == data[..3];
    f
  }

  /** `createStdDataFile` (0xCD) and `createBackupDataFile` (0xCB):
      `[90, INS, 00, 00, 07, fileNo, commSettings, accessRights[0..2],
      fileSize as 3 little-endian bytes]`. */
  function FileFrame(ins: byte, fileNo: sbyte, commSettings: sbyte, accessRights: seq<byte>, fileSize: int32): (f: seq<byte>)
    requires |accessRights| >= 2
    ensures |f| == 12 && f[4] == 7 && f[5] == Octet(fileNo) && f[6] == Octet(commSettings)
    ensures f[7..9] == accessRights[..2]
    ensures Le3Value(f[9..12]) == fileSize % 0x100_0000
    ensures Decode(f) == Some(Command(Cla, ins, 0, 0, f[5..], 0))
  {
    var data := [Octet(fileNo), Octet(commSettings)] + accessRights[..2] + Le3(fileSize);
    var f := DataFrame(ins, data);
    assert f[9..12] == Le3(fileSize);
    Le3RoundTrip(fileSize);
    f
  }

  /** `readData`: `[90, BD, 00, 00, 07, fileNo, offset, length]`, offset
      and length as 3 little-endian bytes each. */
  function ReadDataFrame(fileNo: sbyte, offset: int32, length: int32): (f: seq<byte>)
    ensures |f| == 12 && f[1] == 0xBD && f[4] == 7 && f[5] == Octet(fileNo)
    ensures Le3Value(f[6..9]) == offset % 0x100_0000
    ensures Le3Value(f[9..12]) == length % 0x100_0000
    ensures Decode(f) == Some(Command(Cla, 0xBD, 0, 0, f[5..], 0))
  {
    var data := [Octet(fileNo)] + Le3(offset) + Le3(length);
    var f := DataFrame(0xBD, data);
    assert f[6..9] == Le3(offset) && f[9..12] == Le3(length);
    Le3RoundTrip(offset);
    Le3RoundTrip(length);
    f
  }

  /** `writeData`: `[90, 3D, 00, 00, (byte)(7 + n), fileNo, offset, n,
      data]` for n data bytes; offset and n as 3 little-endian bytes. */
  function WriteDataFrame(fileNo: sbyte, offset: int32, data: seq<byte>): (f: seq<byte>)
    ensures |f| == 12 + |data| && f[0] == Cla && f[1] == 0x3D && f[2] == 0 && f[3] == 0 && f[4] == (7 + |data|) % 0x100
    ensures f[5] == Octet(fileNo) && f[12..] == data
    ensures Le3Value(f[6..9]) == offset % 0x100_0000
    ensures Le3Value(f[9..12]) == |data| % 0x100_0000
  {
    var body := [Octet(fileNo)] + Le3(offset) + Le3(|data|) + data;
    var f := DataFrame(0x3D, body);
    assert f[6..9] == Le3(offset) && f[9..12] == Le3(|data|) && f[12..] == data;
    Le3RoundTrip(offset);
    Le3RoundTrip(|data|);
    f
  }

  /** A write frame is a well-formed command APDU carrying its 7 + n bytes
      exactly when n is at most 248; beyond that the Lc byte wraps. */
  lemma WriteDataFrameParses(fileNo: sbyte, offset: int32, data: seq<byte>)
    ensures var f := WriteDataFrame(fileNo, offset, data);
      Decode(f) == Some(Command(Cla, 0x3D, 0, 0, f[5..], 0)) <==> |data| <= 248
  {
    var f := WriteDataFrame(fileNo, offset, data);
    DataFrameParses(0x3D, f[5..]);
    assert f == DataFrame(0x3D, f[5..]);
  }

  /** `changeKey`: `[90, C4, 00, 00, (byte)(kl + 1), keyNo, newKey[0..kl],
      keyVersion, 00]` for a key of length kl; the frame is kl + 8 bytes. */
  function ChangeKeyFrame(keyNo: sbyte, keyVersion: sbyte, keyLength: nat, newKey: seq<byte>): (f: seq<byte>)
    requires keyLength <= |newKey|
    ensures |f| == keyLength + 8 && f[0] == Cla && f[1] == 0xC4 && f[2] == 0 && f[3] == 0 && f[4] == (keyLength + 1) % 0x100
    ensures f[5] == Octet(keyNo) && f[6..6 + keyLength] == newKey[..keyLength]
    ensures f[6 + keyLength] == Octet(keyVersion) && f[7 + keyLength] == 0
  {
    [Cla, 0xC4, 0, 0, Octet(keyLength + 1), Octet(keyNo)] + newKey[..keyLength] + [Octet(keyVersion), 0]
  }

  /** The change-key frame counts one byte fewer in Lc than it carries
      before the trailing 00, so the command-APDU parser rejects it for every
      key length. */
  lemma ChangeKeyFrameRejected(keyNo: sbyte, keyVersion: sbyte, t: KeyType, newKey: seq<byte>)
    requires KeyLength(t) <= |newKey|
    ensures Decode(ChangeKeyFrame(keyNo, keyVersion, KeyLength(t), newKey)).None?
  {
    var f := ChangeKeyFrame(keyNo, keyVersion, KeyLength(t), newKey);
    assert f[4] as int == KeyLength(t) + 1;
  }

  /** `changeFileSettings`: `[90, 5F, 00, 00, 03, fileNo, commSettings,
      accessRights[0]]`. */
  function ChangeFileSettingsFrame(fileNo: sbyte, commSettings: sbyte, accessRight: byte): (f: seq<byte>)
    ensures f == [Cla, 0x5F, 0, 0, 3, Octet(fileNo), Octet(commSettings), accessRight]
    ensures Decode(f) == Some(Command(Cla, 0x5F, 0, 0, f[5..], 0))
  {
    var f := DataFrame(0x5F, [Octet(fileNo), Octet(commSettings), accessRight]);
    assert f == f[..4] + [f[4]] + f[5..];
    f
  }
}
