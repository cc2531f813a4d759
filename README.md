# DESFire EV1 host protocol, modelled in Dafny

This project models the host side of the esup-desfire-apdu-lib library. That is the code a reader application runs to talk to a MIFARE DESFire EV1 card. The model covers five parts:

- the command frames the library builds, both as bytes and as hex text;
- how it reads card replies;
- its two mutual-authentication implementations;
- its status-code table;
- its hex codec.

Each Java class keeps its own shape:

- **Pure code** becomes functions and lemmas: frame builders, key helpers, session-key derivation, the status classifier and the hex codec.
- **Code that updates fields** becomes Dafny classes whose methods carry `modifies` clauses and state the object's whole new state. These are `DESFireEV1` (`Ev1.DesfireEV1`), `DESFireApduService` (`ApduService.DesfireApduService`), `DESFireAuthService` (`AuthService.DesfireAuthService`) and `DESFireCompleteService` (`Complete.DesfireCompleteService`).
- **Loops** stay loops: the chained read, `setKeyVersion`, the response comparison, and the two hex conversions. Each loop is proved equal to a specification function.

Java inheritance becomes composition. `DESFireCompleteService` holds its `DESFireEV1` part as `card`. `DESFireAuthService` holds its `DESFireApduService` part as `base`. Java exceptions become `Outcome.Raised(reason)` and Java `null` becomes `Option.None`.

## Modules

| file | module | what it holds |
|---|---|---|
| wrappers.dfy | Wrappers | `Option` and `Outcome` (a returned value or a thrown exception with its message) |
| bytes.dfy | Bytes | octets, Java signed bytes and ints, `(byte)` truncation, three-byte little-endian fields |
| commands.dfy | Commands | the DESFire instruction codes (`ApduCommand`, `DESFireEV1.Command`) |
| status.dfy | ApduResponse | the 22 status codes, `isSuccess`, `hasMoreData`, `getDescription`, `DESFireEV1.Response.getResponse` |
| iso7816.dfy | Iso7816 | command APDUs of ISO/IEC 7816-4 section 5.1 and the parser `new CommandAPDU(byte[])` applies |
| keys.dfy | Keys | key types, `getKeyLength`, `validateKey`, `setKeyVersion`, `rotateLeft` |
| cipher.dfy | Cipher | the block ciphers and CMAC as function values; `SecureRandom` as a byte source |
| session_keys.dfy | SessionKeys | both `generateSessionKey` implementations |
| frames.dfy | Frames | every byte frame the library sends |
| hex.dfy | DesfireUtils | `DesfireUtils` and the ASCII upper-casing `getApduString` applies |
| transport.dfy | Transport | the card link: a scripted list of replies and a log of the frames sent |
| apdu_service.dfy | ApduService | the hex-text builders and the state of `DESFireApduService` |
| auth_service.dfy | AuthService | the three-call authentication of `DESFireAuthService` |
| desfire_ev1.dfy | Ev1 | `DESFireEV1`: chained reads, status commands, and the sequential authentication with IV chaining |
| complete_service.dfy | Complete | `DESFireCompleteService`: the `91 00` check, the workflows, the version text, `getApduString` |

## Modelling choices

**Collaborators.**

- The card is a `Transport.Link`: the replies the card will give, in order, and the frames the host has sent. An exhausted script stands for a transport failure.
- `transmit(byte[])` sends a frame unparsed; it is modelled as `Transport.TransmitRaw`. `transmit(CommandAPDU)` first parses the frame and splits off the two status bytes; it is modelled as `Transport.Transmit`.
- The ciphers are a `Cipher.BlockCipher` of function values. Two facts about them are stated as named hypotheses, never as axioms: CBC decryption inverts encryption under the same key and IV (`CbcInverse`), and an AES CMAC tag is 16 bytes (`AesTagsAre16`). Only the lemmas that need a fact take it as a hypothesis.
- `SecureRandom.nextBytes` is `Cipher.Random`, a caller-supplied function from a length to that many bytes.

**The two handshakes are modelled separately, as written.**

- `DESFireEV1.authenticate` chains the IV. It encrypts under the last block of the card's challenge and decrypts the card's proof under the last block of its own cryptogram.
- `DESFireAuthService` uses the same zero IV in all three calls.
- For 2-key and 3-key 3DES, `DESFireAuthService` keeps an 8-byte session key, where `DESFireEV1` derives 16 or 24 bytes (`SessionKeys.SessionKeysAgree`).
- Against an honest card, each handshake is proved to accept and to derive the expected key: `Ev1.HonestCardAuthenticates` and `AuthService.HonestHandshake`.

**Two consequences of the code as written.**

- `readFileComplete` and `writeFileComplete` authenticate only when `isAuthenticated()` is false. A successful `selectApplication` has just cleared the session key, so that test is always true where it is made and the authentication always runs. `Complete.SelectAndAuthenticate` states this, and `Complete.DesfireCompleteService.Open` keeps the Java test and still proves the same run.
- The change-key frame of `DESFireCompleteService.changeKey` announces `Lc = keyLength + 1` but carries two bytes more: the key version and a trailing zero. No command-APDU parser accepts it (`Frames.ChangeKeyFrameRejected`). The service sends it with the raw transmit, which does not parse, so the frame reaches the card unchanged.

## Model

| member | source | states |
|---|---|---|
| Bytes.Octet | src/main/java/org/esupportail/desfire/core/DESFireEV1.java:259 | `(byte) b` keeps b modulo 256: the octet agrees with b in its low eight bits |
| Bytes.Signed | src/main/java/org/esupportail/desfire/core/DESFireEV1.java:255 | the signed Java byte read from an octet has that octet as its bit pattern |
| Bytes.SignedOctet | src/main/java/org/esupportail/desfire/core/DESFireEV1.java:255 | reading a Java byte's octet back as a signed byte gives the byte again |
| Bytes.Le3 | src/main/java/org/esupportail/desfire/service/DESFireApduService.java:183-188 | the three `(n >> 8k) & 0xFF` bytes of an int: always three octets |
| Bytes.Le3Value | src/main/java/org/esupportail/desfire/core/DESFireEV1.java:305-307 | the little-endian value of three octets lies in 0 .. 2^24-1 |
| Bytes.Le3RoundTrip | src/main/java/org/esupportail/desfire/service/DESFireApduService.java:163-165 | reading back the three encoded bytes gives the int modulo 2^24 (negative sizes wrap) |
| Bytes.Le3ValueRoundTrip | src/main/java/org/esupportail/desfire/core/DESFireEV1.java:305-307 | encoding the decoded value of three octets gives the octets back |
| Bytes.Reverse | src/main/java/org/esupportail/desfire/service/DesfireUtils.java:74 | the reversed sequence: same length, element i is element n-1-i |
| Bytes.Zeros | src/main/java/org/esupportail/desfire/service/DESFireCompleteService.java:47 | `new byte[n]`: n octets, all zero |
| Commands.InstructionOfCode | src/main/java/org/esupportail/desfire/service/ApduCommand.java:9-52 | every DESFire instruction is recovered from its code byte |
| Commands.CodesDistinct | src/main/java/org/esupportail/desfire/core/DESFireEV1.java:41-76 | no two instructions share a code |
| ApduResponse.CodesDistinct | src/main/java/org/esupportail/desfire/service/ApduResponse.java:9-30 | the 22 status constants are pairwise distinct |
| ApduResponse.IsSuccess | src/main/java/org/esupportail/desfire/service/ApduResponse.java:39-41 | `isSuccess` holds exactly for 0x00 |
| ApduResponse.HasMoreData | src/main/java/org/esupportail/desfire/service/ApduResponse.java:46-48 | `hasMoreData` holds exactly for 0xAF |
| ApduResponse.SuccessExcludesMoreData | src/main/java/org/esupportail/desfire/service/ApduResponse.java:39-48 | no status is both success and more-data |
| ApduResponse.LowerHex | src/main/java/org/esupportail/desfire/service/ApduResponse.java:77 | `Integer.toHexString` of a non-negative value: non-empty, no leading zero |
| ApduResponse.LowerHexRoundTrip | src/main/java/org/esupportail/desfire/service/ApduResponse.java:77 | the lower-case hex numeral reads back as the number |
| ApduResponse.Description | src/main/java/org/esupportail/desfire/service/ApduResponse.java:53-79 | an unlisted code is described as "Unknown error code: 0x" followed by its hex text |
| ApduResponse.KnownDescription | src/main/java/org/esupportail/desfire/service/ApduResponse.java:55-76 | each listed code has a non-empty text that is not the unknown-code text |
| ApduResponse.DescriptionClassifies | src/main/java/org/esupportail/desfire/service/ApduResponse.java:53-79 | a description is the unknown-code text if and only if the code is not listed |
| ApduResponse.UnknownDescriptionNamesCode | src/main/java/org/esupportail/desfire/service/ApduResponse.java:77 | the unknown-code text names the code: its suffix reads back as the code as an unsigned 32-bit value |
| ApduResponse.StatusesMatchCodes | src/main/java/org/esupportail/desfire/core/DESFireEV1.java:90-112 | the `Response` enumeration lists the same 22 codes in the same order as the constants |
| ApduResponse.GetResponse | src/main/java/org/esupportail/desfire/core/DESFireEV1.java:124-131 | `getResponse` finds a status exactly when the code is listed, and that status carries the code |
| Iso7816.EncodeShort | src/main/java/org/esupportail/desfire/core/DESFireEV1.java:210 | the short-form frame of a command: its length is header + Lc and data + Le |
| Iso7816.Decode | src/main/java/org/esupportail/desfire/core/DESFireEV1.java:210 | a frame `new CommandAPDU` accepts has the four header bytes, and the command keeps CLA, INS, P1 and P2 |
| Iso7816.DecodeEncodeShort | src/main/java/org/esupportail/desfire/core/DESFireEV1.java:210 | every short-form command survives encoding and parsing |
| Iso7816.EncodeDecodeShort | src/main/java/org/esupportail/desfire/core/DESFireEV1.java:210 | every accepted short-form frame is the encoding of its parse |
| Iso7816.ShortFormData | src/main/java/org/esupportail/desfire/core/DESFireEV1.java:210 | a parse carrying all but six bytes as data has Lc at byte 4 equal to the data length |
| Transport.TransmitRaw | src/main/java/org/esupportail/desfire/service/DESFireCompleteService.java:267 | the raw transmit: fails exactly when no reply is left; otherwise returns the next reply and logs the frame |
| Transport.Transmit | src/main/java/org/esupportail/desfire/core/DESFireEV1.java:210-211 | a frame the parser rejects throws before anything is sent; a received reply splits into data and the two status bytes |
| Transport.ReplyData | src/main/java/org/esupportail/desfire/core/DESFireEV1.java:211-213 | the data part of a reply of two or more bytes is the reply without its two trailing status bytes |
| Transport.TransmitReadsReply | src/main/java/org/esupportail/desfire/core/DESFireEV1.java:211-213 | every reply of two or more bytes is read back as its data and status bytes |
| Keys.KeyLength | src/main/java/org/esupportail/desfire/service/DESFireCompleteService.java:483-491 | `getKeyLength`: 24 exactly for 3K3DES, 8 exactly for DES, 16 for 2K3DES and AES |
| Keys.BlockLength | src/main/java/org/esupportail/desfire/core/DESFireEV1.java:186 | the zero IV is 16 bytes for AES and 8 otherwise |
| Keys.ValidateKey | src/main/java/org/esupportail/desfire/core/DESFireEV1.java:503-512 | a key is valid if and only if it is present and has the length of its type |
| Keys.AuthInstruction | src/main/java/org/esupportail/desfire/core/DESFireEV1.java:192-206 | the step-1 instruction is 0x0A for DES and 2K3DES, 0x1A for 3K3DES, 0xAA for AES |
| Keys.SetLowBit | src/main/java/org/esupportail/desfire/core/DESFireEV1.java:517 | bit 0 of the byte is replaced by bit 0 of the version and the other bits are kept |
| Keys.WithKeyVersion | src/main/java/org/esupportail/desfire/core/DESFireEV1.java:514-520 | setting the version keeps the key length |
| Keys.SetKeyVersion | src/main/java/org/esupportail/desfire/core/DESFireEV1.java:514-520 | the loop writes exactly the key the version function describes |
| Keys.EffectiveKey | src/main/java/org/esupportail/desfire/core/DESFireEV1.java:182-184 | the key the handshake uses has the length of the key passed in |
| Keys.ClearedVersionBits | src/main/java/org/esupportail/desfire/core/DESFireEV1.java:514-520 | clearing the version clears bit 0 of bytes 7, 15, 23 and leaves every other byte unchanged |
| Keys.ClearVersionIdempotent | src/main/java/org/esupportail/desfire/core/DESFireEV1.java:182-184 | clearing the version bits twice is clearing them once |
| Keys.RotateLeft | src/main/java/org/esupportail/desfire/core/DESFireEV1.java:522-528 | byte 0 moves to the end, the others shift down by one, and the length is kept |
| Keys.RotationsSplit | src/main/java/org/esupportail/desfire/core/DESFireEV1.java:522-528 | k rotations move the first k bytes to the end |
| Keys.RotationsFullCircle | src/main/java/org/esupportail/desfire/core/DESFireEV1.java:522-528 | one rotation per byte gives the data back |
| Keys.RotateLeftInjective | src/main/java/org/esupportail/desfire/core/DESFireEV1.java:522-528 | equal rotations come from equal inputs |
| Cipher.FamilyOf | src/main/java/org/esupportail/desfire/core/DESFireEV1.java:569-597 | `send`/`recv` dispatch to TripleDES for 2K3DES and 3K3DES, AES for AES, DES for DES |
| Cipher.EncryptDecrypt | src/main/java/org/esupportail/desfire/core/DESFireEV1.java:569-597 | for an inverse cipher pair, decrypting the encryption under the same key and IV gives the plaintext |
| SessionKeys.Ev1SessionKey | src/main/java/org/esupportail/desfire/core/DESFireEV1.java:530-567 | EV1 derivation: defined exactly when both randoms are long enough; has the key length of the type; starts A[0..4] then B[0..4] |
| SessionKeys.Ev1SessionKeyBytes | src/main/java/org/esupportail/desfire/core/DESFireEV1.java:530-567 | the key is a run of 8-byte pairs, pair j being A[o..o+4] then B[o..o+4] with o the j-th offset: 0 for DES; 0, 4 for 2K3DES; 0, 6, 12 for 3K3DES; 0, 12 for AES |
| SessionKeys.AuthServiceSessionKey | src/main/java/org/esupportail/desfire/service/DESFireAuthService.java:296-320 | auth-service derivation: defined exactly when both randoms are long enough; one block long |
| SessionKeys.SessionKeysAgree | src/main/java/org/esupportail/desfire/service/DESFireAuthService.java:296-320 | the two derivations agree for DES and AES and differ in length for 2K3DES and 3K3DES |
| SessionKeys.DesSessionKeyDetermined | src/main/java/org/esupportail/desfire/core/DESFireEV1.java:533-537 | two DES session keys are equal if and only if the first four bytes of A and of B agree |
| Frames.NoDataFrame | src/main/java/org/esupportail/desfire/core/DESFireEV1.java:276 | `[90, INS, 00, 00, 00]` parses as a command with no data and Ne 256 |
| Frames.DataFrame | src/main/java/org/esupportail/desfire/service/DESFireApduService.java:196-213 | header, Lc as the data length modulo 256, then the data; parses when there are 1..255 data bytes |
| Frames.DataFrameLe | src/main/java/org/esupportail/desfire/core/DESFireEV1.java:237-241 | header, Lc, data, then a zero Le byte; parses with Ne 256 when there are 1..255 data bytes |
| Frames.DataFrameLeParses | src/main/java/org/esupportail/desfire/core/DESFireEV1.java:237-241 | a frame with Le parses to its own data when there are 1..255 data bytes |
| Frames.DataFrameParses | src/main/java/org/esupportail/desfire/service/DESFireApduService.java:196-213 | a frame without Le parses to its own data when there are 1..255 data bytes |
| Frames.AuthFrame | src/main/java/org/esupportail/desfire/service/DESFireApduService.java:220-249 | the step-1 frame `[90, ins, 00, 00, 01, keyNo, 00]` parses with the key number as its only data |
| Frames.OneByteFrame | src/main/java/org/esupportail/desfire/service/DESFireApduService.java:144-147 | `[90, INS, 00, 00, 01, b]` parses with b as its only data |
| Frames.AidFrame | src/main/java/org/esupportail/desfire/service/DESFireApduService.java:114-131 | an 8-byte frame with Lc 3 and the AID as its data |
| Frames.CreateApplicationFrame | src/main/java/org/esupportail/desfire/service/DESFireApduService.java:72-88 | a 10-byte frame: the AID, then the key settings and number of keys as data |
| Frames.FileFrame | src/main/java/org/esupportail/desfire/service/DESFireApduService.java:152-168 | a 12-byte frame: file number, comm settings, two access-right bytes, size as 3 little-endian bytes |
| Frames.ReadDataFrame | src/main/java/org/esupportail/desfire/service/DESFireApduService.java:175-191 | a 12-byte frame whose offset and length read back modulo 2^24 |
| Frames.WriteDataFrame | src/main/java/org/esupportail/desfire/service/DESFireApduService.java:196-213 | the header is 90 3D 00 00 for every input; Lc is (7 + n) modulo 256; offset and length read back modulo 2^24; the data follows unchanged |
| Frames.WriteDataFrameParses | src/main/java/org/esupportail/desfire/core/DESFireEV1.java:445-466 | a write frame parses as the command carrying its own header and data bytes exactly when \|data\| <= 248, so that its 7 + n bytes fit in one Lc byte |
| Frames.ChangeKeyFrame | src/main/java/org/esupportail/desfire/service/DESFireApduService.java:254-269 | the header is 90 C4 00 00 for every input; Lc is key length + 1 (mod 256), followed by key number, the key bytes, the version and a trailing zero: two bytes more than Lc announces |
| Frames.ChangeKeyFrameRejected | src/main/java/org/esupportail/desfire/service/DESFireCompleteService.java:240-250 | the change-key frame is never a valid command APDU, so only the raw transmit can send it |
| Frames.ChangeFileSettingsFrame | src/main/java/org/esupportail/desfire/service/DESFireCompleteService.java:353-361 | `[90, 5F, 00, 00, 03, fileNo, comm, ar0]`, parsed with the three bytes as data |
| DesfireUtils.ToHex | src/main/java/org/esupportail/desfire/service/DesfireUtils.java:57-68 | two characters per byte |
| DesfireUtils.ToHexAt | src/main/java/org/esupportail/desfire/service/DesfireUtils.java:62-64 | characters 2j and 2j+1 are the high and low nibble of byte j |
| DesfireUtils.ToHexAlphabet | src/main/java/org/esupportail/desfire/service/DesfireUtils.java:30 | hex text contains hex digits only |
| DesfireUtils.ToHexAppend | src/main/java/org/esupportail/desfire/service/DesfireUtils.java:57-68 | the hex text of a concatenation is the concatenation of the texts |
| DesfireUtils.ByteArrayToHexString | src/main/java/org/esupportail/desfire/service/DesfireUtils.java:57-68 | `byteArrayToHexString` (loop over a char array) yields exactly the hex text |
| DesfireUtils.Digit | src/main/java/org/esupportail/desfire/service/DesfireUtils.java:41-42 | `Character.digit(c, 16)` on ASCII: -1 exactly for characters other than the ASCII hex digits 0-9, a-f, A-F, and their value 0..15 otherwise |
| DesfireUtils.UpperAscii | src/main/java/org/esupportail/desfire/service/DESFireCompleteService.java:450 | lower-case letters shift down by 32 and other characters are unchanged |
| DesfireUtils.UpperString | src/main/java/org/esupportail/desfire/service/DESFireCompleteService.java:450 | the upper-cased text maps each character through the ASCII upper-casing |
| DesfireUtils.DigitIndexesHexArray | src/main/java/org/esupportail/desfire/service/DesfireUtils.java:30 | a hex digit's value indexes its upper-case form in `hexArray` |
| DesfireUtils.HexArrayDigit | src/main/java/org/esupportail/desfire/service/DesfireUtils.java:30 | `hexArray[d]` reads back as d |
| DesfireUtils.RemoveSpaces | src/main/java/org/esupportail/desfire/service/DesfireUtils.java:37 | the result has no spaces, is not longer, and a text without spaces is unchanged |
| DesfireUtils.PairValue | src/main/java/org/esupportail/desfire/service/DesfireUtils.java:41-42 | a pair of hex digits is stored as 16·hi + lo |
| DesfireUtils.DecodePairs | src/main/java/org/esupportail/desfire/service/DesfireUtils.java:39-43 | one byte per pair |
| DesfireUtils.ParseHexString | src/main/java/org/esupportail/desfire/service/DesfireUtils.java:35-45 | null gives null; an odd count after removing spaces throws; otherwise half as many bytes |
| DesfireUtils.HexStringToByteArray | src/main/java/org/esupportail/desfire/service/DesfireUtils.java:35-45 | the loop computes exactly the parse function, including its exception |
| DesfireUtils.PairOfHex | src/main/java/org/esupportail/desfire/service/DesfireUtils.java:41-42 | the two hex characters of an octet decode to that octet |
| DesfireUtils.ToHexHasNoSpaces | src/main/java/org/esupportail/desfire/service/DesfireUtils.java:37 | space removal does nothing to hex text |
| DesfireUtils.DecodeHexAt | src/main/java/org/esupportail/desfire/service/DesfireUtils.java:40-43 | pair j of the hex text decodes to byte j |
| DesfireUtils.DecodeHex | src/main/java/org/esupportail/desfire/service/DesfireUtils.java:35-68 | decoding the pairs of the hex text gives the bytes |
| DesfireUtils.HexRoundTrip | src/main/java/org/esupportail/desfire/service/DesfireUtils.java:35-68 | `hexStringToByteArray(byteArrayToHexString(b)) == b` for every b |
| DesfireUtils.NibblesOfPair | src/main/java/org/esupportail/desfire/service/DesfireUtils.java:62-64 | the high and low nibble of 16·h + l are h and l |
| DesfireUtils.EncodeDecodedPair | src/main/java/org/esupportail/desfire/service/DesfireUtils.java:35-68 | decoding then encoding one pair gives that pair upper-cased |
| DesfireUtils.HexRoundTripBack | src/main/java/org/esupportail/desfire/service/DesfireUtils.java:35-68 | valid hex text decodes, and re-encoding gives it without spaces, upper-cased |
| DesfireUtils.SwapPairs | src/main/java/org/esupportail/desfire/service/DesfireUtils.java:73-89 | swapping the pairs of the reversed text is the hex text of the reversed bytes |
| DesfireUtils.SwapPairsByte | src/main/java/org/esupportail/desfire/service/DesfireUtils.java:94-97 | `swapPairsByte` reverses the byte order |
| DesfireUtils.DigitsValue | src/main/java/org/esupportail/desfire/service/DesfireUtils.java:51 | the value of a string of hex digits is not negative |
| DesfireUtils.ParseInt16 | src/main/java/org/esupportail/desfire/service/DesfireUtils.java:51 | `Integer.parseInt(s, 16)` succeeds only on non-empty text |
| DesfireUtils.HexStringToByte | src/main/java/org/esupportail/desfire/service/DesfireUtils.java:50-52 | throws exactly when the parse fails; otherwise keeps the low eight bits of the value |
| DesfireUtils.HexStringToByteFF | src/main/java/org/esupportail/desfire/service/DesfireUtils.java:50-52 | "FF" gives the byte -1 |
| DesfireUtils.HexStringToByteOfHex | src/main/java/org/esupportail/desfire/service/DesfireUtils.java:50-52 | parsing an octet's hex text gives the signed byte with that bit pattern |
| ApduService.HexOf | src/main/java/org/esupportail/desfire/service/DESFireApduService.java:40-43 | the hex text of a frame reads back as that frame, has two characters per byte and uses only the upper-case digits 0-9, A-F |
| ApduService.GetVersion | src/main/java/org/esupportail/desfire/service/DESFireApduService.java:40-43 | hex text decoding to `[90, 60, 00, 00, 00]` |
| ApduService.GetFreeMemory | src/main/java/org/esupportail/desfire/service/DESFireApduService.java:48-51 | hex text decoding to `[90, 6E, 00, 00, 00]` |
| ApduService.FormatPicc | src/main/java/org/esupportail/desfire/service/DESFireApduService.java:56-59 | hex text decoding to `[90, FC, 00, 00, 00]` |
| ApduService.GetApplicationIds | src/main/java/org/esupportail/desfire/service/DESFireApduService.java:64-67 | hex text decoding to `[90, 6A, 00, 00, 00]` |
| ApduService.GetFileIds | src/main/java/org/esupportail/desfire/service/DESFireApduService.java:136-139 | hex text decoding to `[90, 6F, 00, 00, 00]` |
| ApduService.GetAdditionalFrame | src/main/java/org/esupportail/desfire/service/DESFireApduService.java:276-279 | hex text decoding to `[90, AF, 00, 00, 00]` |
| ApduService.GetCardUid | src/main/java/org/esupportail/desfire/service/DESFireApduService.java:284-287 | hex text decoding to `[90, 51, 00, 00, 00]` |
| ApduService.NoDataText | src/main/java/org/esupportail/desfire/service/DESFireApduService.java:40-43 | a data-less command is "90", the instruction's two hex digits, then "000000" |
| ApduService.GetVersionText | src/main/java/org/esupportail/desfire/service/DESFireApduService.java:40-43 | `getVersion()` is "9060000000" |
| ApduService.CreateApplication | src/main/java/org/esupportail/desfire/service/DESFireApduService.java:72-88 | throws "AID must be 3 bytes" exactly when the AID is not 3 bytes; otherwise hex text decoding to the create frame |
| ApduService.DeleteApplication | src/main/java/org/esupportail/desfire/service/DESFireApduService.java:93-107 | throws exactly when the AID is not 3 bytes; otherwise hex text decoding to the 0xDA frame |
| ApduService.GetFileSettings | src/main/java/org/esupportail/desfire/service/DESFireApduService.java:144-147 | hex text decoding to `[90, F5, 00, 00, 01, fileNo]` |
| ApduService.CreateStdDataFile | src/main/java/org/esupportail/desfire/service/DESFireApduService.java:152-168 | throws exactly when there are fewer than two access-right bytes; otherwise the 0xCD file frame |
| ApduService.ReadData | src/main/java/org/esupportail/desfire/service/DESFireApduService.java:175-191 | hex text decoding to the read frame |
| ApduService.WriteData | src/main/java/org/esupportail/desfire/service/DESFireApduService.java:196-213 | hex text decoding to the write frame |
| ApduService.ChangeKey | src/main/java/org/esupportail/desfire/service/DESFireApduService.java:254-269 | throws exactly when the new key is shorter than its type's length; otherwise the change-key frame |
| ApduService.DesfireApduService.constructor | src/main/java/org/esupportail/desfire/service/DESFireApduService.java:22-27 | no key, key number -1, not authenticated, AID 00 00 00 |
| ApduService.DesfireApduService.Reset | src/main/java/org/esupportail/desfire/service/DESFireApduService.java:29-33 | forgets the key and the authentication and keeps the AID |
| ApduService.DesfireApduService.SelectApplication | src/main/java/org/esupportail/desfire/service/DESFireApduService.java:114-131 | throws exactly for a wrong-length AID, changing nothing; otherwise stores the AID, resets, and returns the select frame |
| ApduService.DesfireApduService.Authenticate | src/main/java/org/esupportail/desfire/service/DESFireApduService.java:220-249 | returns the step-1 frame and records the key number and type; the flag and the AID are unchanged |
| AuthService.Respond | src/main/java/org/esupportail/desfire/service/DESFireAuthService.java:117-141 | B is the decryption of the challenge; A is \|B\| random bytes; with an inverse cipher the cryptogram decrypts to A followed by rotate(B) |
| AuthService.DesfireAuthService.constructor | src/main/java/org/esupportail/desfire/service/DESFireAuthService.java:29-31 | the base constructor's `reset()` reaches the override: all handshake state cleared, base state fresh |
| AuthService.DesfireAuthService.ResetAuthState | src/main/java/org/esupportail/desfire/service/DESFireAuthService.java:322-332 | clears the handshake state and the base's authenticated flag only |
| AuthService.DesfireAuthService.Reset | src/main/java/org/esupportail/desfire/service/DESFireAuthService.java:334-338 | the base reset, then the handshake state cleared |
| AuthService.DesfireAuthService.SelectApplication | src/main/java/org/esupportail/desfire/service/DESFireApduService.java:114-131 | the inherited select: its `reset()` dispatches to the override, so a successful select also clears the handshake |
| AuthService.DesfireAuthService.AuthenticateComplete | src/main/java/org/esupportail/desfire/service/DESFireAuthService.java:40-64 | succeeds exactly when the key is valid for its type; then records the version-cleared key, its type and number and starts a handshake (authentication in progress), leaving the session key and the authenticated flag as they were; an invalid key clears the authentication state |
| AuthService.DesfireAuthService.Authenticate1 | src/main/java/org/esupportail/desfire/service/DESFireAuthService.java:69-103 | records the key, starts a handshake with a zero IV of one block, returns the step-1 frame |
| AuthService.DesfireAuthService.Authenticate2 | src/main/java/org/esupportail/desfire/service/DESFireAuthService.java:108-157 | outside a handshake throws and changes nothing; inside, returns the AF frame with the host's cryptogram or throws after resetting |
| AuthService.DesfireAuthService.Authenticate3 | src/main/java/org/esupportail/desfire/service/DESFireAuthService.java:162-201 | outside a handshake throws; inside, accepts exactly when the card's proof decrypts to rotate(A), then derives the session key |
| AuthService.DesfireAuthService.EncryptData | src/main/java/org/esupportail/desfire/service/DESFireAuthService.java:206-212 | throws exactly when not authenticated |
| AuthService.DesfireAuthService.DecryptData | src/main/java/org/esupportail/desfire/service/DESFireAuthService.java:217-223 | throws exactly when not authenticated |
| AuthService.DesfireAuthService.GenerateCmac | src/main/java/org/esupportail/desfire/service/DESFireAuthService.java:228-235 | throws exactly when not authenticated or without session key; an AES tag is 16 bytes |
| AuthService.DesfireAuthService.SessionRoundTrip | src/main/java/org/esupportail/desfire/service/DESFireAuthService.java:206-223 | what `encryptData` produces, `decryptData` turns back into the data |
| AuthService.HonestHandshake | src/main/java/org/esupportail/desfire/service/DESFireAuthService.java:69-201 | against a card holding the same key, the three steps accept and derive the expected session key |
| Ev1.PrependPrepend | src/main/java/org/esupportail/desfire/core/DESFireEV1.java:483-494 | collecting b then a before a run is collecting a + b |
| Ev1.ReadChainStatus | src/main/java/org/esupportail/desfire/core/DESFireEV1.java:475-501 | a chained read that returns data ended with status 0x00; one that returns null ended with neither 0x00 nor 0xAF; replies are only consumed |
| Ev1.ChainScript | src/main/java/org/esupportail/desfire/core/DESFireEV1.java:483-489 | one 0xAF reply per payload, then the last reply |
| Ev1.MoreFrames | src/main/java/org/esupportail/desfire/core/DESFireEV1.java:486 | n continue frames |
| Ev1.ReadChainCollects | src/main/java/org/esupportail/desfire/core/DESFireEV1.java:475-501 | against 0xAF replies and a final status, the read returns all payloads concatenated (status 0x00) or null, and sends the frame then one continue frame per 0xAF |
| Ev1.ReadChainExhausts | src/main/java/org/esupportail/desfire/core/DESFireEV1.java:483-489 | a card that answers 0xAF until no reply is left makes the read throw |
| Ev1.StatusCommand | src/main/java/org/esupportail/desfire/core/DESFireEV1.java:283-294 | success exactly when the recorded code is 0; a malformed frame throws and changes nothing; a success used one reply and logged the frame |
| Ev1.FreeMemoryRun | src/main/java/org/esupportail/desfire/core/DESFireEV1.java:299-310 | the answer is -1 or a 24-bit value, and a value means status 0x00 |
| Ev1.FreeMemoryRoundTrip | src/main/java/org/esupportail/desfire/core/DESFireEV1.java:299-310 | a card reporting n as three little-endian bytes with status 0x00 is read as n |
| Ev1.Compare | src/main/java/org/esupportail/desfire/core/DESFireEV1.java:255-257 | true exactly when the answer starts with rotate(A); an answer that is a strict prefix of it throws out of bounds |
| Ev1.AuthConfirm | src/main/java/org/esupportail/desfire/core/DESFireEV1.java:248-267 | an accepted proof yields the EV1 session key of A and B |
| Ev1.AuthConfirmAccepts | src/main/java/org/esupportail/desfire/core/DESFireEV1.java:248-267 | a key is returned exactly when the card's proof, decrypted with the cryptogram's last block as IV, starts with rotate(A) (and the type cuts a key from A and B) |
| Ev1.Answer | src/main/java/org/esupportail/desfire/core/DESFireEV1.java:217-233 | B is the decryption of the challenge under the zero IV; A is \|B\| random bytes; the cryptogram encrypts A + rotate(B) under the challenge's last block; a challenge shorter than a block throws |
| Ev1.AuthRespond | src/main/java/org/esupportail/desfire/core/DESFireEV1.java:217-267 | a session key from the rest of the handshake means code 0, exactly one more reply used and exactly one more frame sent |
| Ev1.AuthRespondAccepts | src/main/java/org/esupportail/desfire/core/DESFireEV1.java:217-267 | a session key from the rest of the handshake means the host decrypted B under the zero IV, sent A + rotate(B) encrypted under the challenge's last block, found rotate(A) at the start of the card's decrypted proof, and returns the key of A and B |
| Ev1.Ev1Authenticate | src/main/java/org/esupportail/desfire/core/DESFireEV1.java:179-268 | an invalid key returns null without sending anything |
| Ev1.Ev1AuthenticateSuccess | src/main/java/org/esupportail/desfire/core/DESFireEV1.java:179-268 | a success recorded code 0, used two replies, sent two frames (the first the step-1 frame) and yields a key of the type's length |
| Ev1.Ev1AuthenticateAccepts | src/main/java/org/esupportail/desfire/core/DESFireEV1.java:179-268 | a success means the key was valid, B is the card's first reply decrypted under the zero IV with the version-cleared key, A + rotate(B) went out encrypted in the second frame, the card's second reply decrypts to rotate(A) at its start, and the key returned is the session key of A and B |
| Ev1.HonestAnswer | src/main/java/org/esupportail/desfire/core/DESFireEV1.java:217-233 | against a card that encrypted B under the zero IV, the host decrypts B and answers with its cryptogram |
| Ev1.HonestConfirm | src/main/java/org/esupportail/desfire/core/DESFireEV1.java:248-267 | a card's proof that encrypts rotate(A) under the last cryptogram block is accepted with the session key |
| Ev1.HonestSecondExchange | src/main/java/org/esupportail/desfire/core/DESFireEV1.java:235-247 | with status 0x00 the second exchange hands the card's proof to the final check |
| Ev1.HonestRespond | src/main/java/org/esupportail/desfire/core/DESFireEV1.java:217-267 | after an honest card's challenge, the rest of the handshake returns the session key of A and B, records code 0 and uses up exactly the card's second reply |
| Ev1.HonestCardAuthenticates | src/main/java/org/esupportail/desfire/core/DESFireEV1.java:179-268 | against a card holding the same key, `authenticate` returns the session key of A and B, records code 0 and uses up exactly the card's two replies |
| Ev1.DesfireEV1.constructor | src/main/java/org/esupportail/desfire/core/DESFireEV1.java:151-154 | no session, key and file numbers -1, AID 00 00 00 |
| Ev1.DesfireEV1.TransmitRaw | src/main/java/org/esupportail/desfire/service/DESFireCompleteService.java:267 | the raw transmit on the object's connection, no session field changed |
| Ev1.DesfireEV1.Transmit | src/main/java/org/esupportail/desfire/core/DESFireEV1.java:210-211 | one exchange on the object's connection, no session field changed |
| Ev1.DesfireEV1.Reset | src/main/java/org/esupportail/desfire/core/DESFireEV1.java:165-172 | forgets key type, key number, IV, session key and file, keeps the AID |
| Ev1.DesfireEV1.ReadDataFromCard | src/main/java/org/esupportail/desfire/core/DESFireEV1.java:475-501 | the loop performs exactly the chained read, and records each reply's SW2 |
| Ev1.DesfireEV1.Command | src/main/java/org/esupportail/desfire/core/DESFireEV1.java:283-294 | exactly the status command; no session field changed |
| Ev1.DesfireEV1.GetVersion | src/main/java/org/esupportail/desfire/core/DESFireEV1.java:275-278 | a chained read of `[90, 60, 00, 00, 00]` |
| Ev1.DesfireEV1.GetApplicationIds | src/main/java/org/esupportail/desfire/core/DESFireEV1.java:315-317 | a chained read of `[90, 6A, 00, 00, 00]` |
| Ev1.DesfireEV1.FormatPicc | src/main/java/org/esupportail/desfire/core/DESFireEV1.java:283-294 | on status 0x00 the session is reset, otherwise kept |
| Ev1.DesfireEV1.GetFreeMemory | src/main/java/org/esupportail/desfire/core/DESFireEV1.java:299-310 | exactly the free-memory run |
| Ev1.DesfireEV1.CreateApplication | src/main/java/org/esupportail/desfire/core/DESFireEV1.java:322-342 | a wrong-length AID throws before sending; otherwise the create frame as a status command |
| Ev1.DesfireEV1.DeleteApplication | src/main/java/org/esupportail/desfire/core/DESFireEV1.java:347-365 | a wrong-length AID throws before sending; otherwise the 0xDA frame as a status command |
| Ev1.DesfireEV1.SelectApplication | src/main/java/org/esupportail/desfire/core/DESFireEV1.java:370-393 | a wrong-length AID throws; on success the AID is stored and the session reset |
| Ev1.DesfireEV1.CreateStdDataFile | src/main/java/org/esupportail/desfire/core/DESFireEV1.java:400-419 | fewer than two access-right bytes throw before sending; otherwise the file frame |
| Ev1.DesfireEV1.ReadData | src/main/java/org/esupportail/desfire/core/DESFireEV1.java:424-440 | a chained read of the read frame |
| Ev1.DesfireEV1.WriteData | src/main/java/org/esupportail/desfire/core/DESFireEV1.java:445-466 | the write frame as a status command |
| Ev1.DesfireEV1.Authenticate | src/main/java/org/esupportail/desfire/core/DESFireEV1.java:179-268 | a valid key is rewritten in place with its version bits cleared; an invalid or null key returns null without sending; otherwise the run is the handshake; on success key type, number, zero IV and session key are recorded, otherwise kept |
| Ev1.DesfireEV1.Remember | src/main/java/org/esupportail/desfire/core/DESFireEV1.java:262-265 | records key type, key number, zero IV and session key, nothing else |
| Ev1.DesfireEV1.Exchange1 | src/main/java/org/esupportail/desfire/core/DESFireEV1.java:191-215 | performs exactly the handshake run, session fields unchanged |
| Ev1.DesfireEV1.Respond | src/main/java/org/esupportail/desfire/core/DESFireEV1.java:217-233 | performs exactly the rest of the handshake after the challenge |
| Ev1.DesfireEV1.Exchange2 | src/main/java/org/esupportail/desfire/core/DESFireEV1.java:235-267 | performs exactly the second exchange and the final check |
| Ev1.ClearVersion | src/main/java/org/esupportail/desfire/core/DESFireEV1.java:182-184 | the key is updated in place to its version-cleared form |
| Ev1.Confirm | src/main/java/org/esupportail/desfire/core/DESFireEV1.java:248-267 | the final check computes exactly the confirmation function |
| Ev1.CompareAnswer | src/main/java/org/esupportail/desfire/core/DESFireEV1.java:255-257 | the comparison loop computes exactly the comparison function, including its out-of-bounds exception |
| Complete.Payload | src/main/java/org/esupportail/desfire/service/DESFireCompleteService.java:269-275 | a payload exists if and only if the reply ends in 91 00, and the reply is the payload followed by 91 00 |
| Complete.PayloadRoundTrip | src/main/java/org/esupportail/desfire/service/DESFireCompleteService.java:269-275 | any payload followed by 91 00 is read back unchanged |
| Complete.OtherStatusRefused | src/main/java/org/esupportail/desfire/service/DESFireCompleteService.java:269-276 | a reply ending in any other status is refused |
| Complete.StatusExchange | src/main/java/org/esupportail/desfire/service/DESFireCompleteService.java:287-300 | true if and only if a reply arrives and ends in 91 00 |
| Complete.QueryExchange | src/main/java/org/esupportail/desfire/service/DESFireCompleteService.java:264-282 | a payload if and only if a reply arrives and ends in 91 00, and the reply is the payload plus 91 00 |
| Complete.QueryRoundTrip | src/main/java/org/esupportail/desfire/service/DESFireCompleteService.java:264-282 | a card answering payload + 91 00 has the payload read back, with the query the one frame sent |
| Complete.ChangeKeyExchange | src/main/java/org/esupportail/desfire/service/DESFireCompleteService.java:235-259 | true exactly when the new key is present and at least a key length long and the card's reply ends in 91 00; a missing or short new key sends nothing, otherwise the change-key frame is the one frame sent |
| Complete.ReplaceDefaultKeySends | src/main/java/org/esupportail/desfire/service/DESFireCompleteService.java:44-66 | a successful key replacement sent exactly three frames, the first the step-1 frame for key 0 and the third the change-key frame with the new key |
| Complete.ReplaceDefaultKeySession | src/main/java/org/esupportail/desfire/service/DESFireCompleteService.java:44-66 | after a successful replacement the session is key 0 of the type, the zero IV, a session key of the type's length and status 0; the AID and file fields are those from before |
| Complete.CreateApplicationSteps | src/main/java/org/esupportail/desfire/service/DESFireCompleteService.java:75-97 | a successful creation had its create and select commands accepted, sent those two frames first, and then ran the default-key replacement |
| Complete.CreateApplicationSends | src/main/java/org/esupportail/desfire/service/DESFireCompleteService.java:71-106 | a successful creation sent exactly five frames: create, select, step 1 for key 0, one more handshake frame and the change-key frame |
| Complete.CreateApplicationSession | src/main/java/org/esupportail/desfire/service/DESFireCompleteService.java:71-106 | after a successful creation the object is in the new AID, authenticated with key 0 of the type: zero IV, a session key of the type's length, no file, status 0 |
| Complete.SelectAndAuthenticateSteps | src/main/java/org/esupportail/desfire/service/DESFireCompleteService.java:113-126 | a successful start had its select accepted and sent first, then an accepted authentication on the connection the select left, opened on the freshly reset session of the AID |
| Complete.SelectAndAuthenticateSends | src/main/java/org/esupportail/desfire/service/DESFireCompleteService.java:113-126 | a successful start sent exactly three frames, the select frame then the step-1 frame first |
| Complete.SelectAndAuthenticateSession | src/main/java/org/esupportail/desfire/service/DESFireCompleteService.java:113-126 | after a successful start the object is in the AID, authenticated with the given key number and type: zero IV, a session key of the type's length, no file, status 0 |
| Complete.ReadFileRun | src/main/java/org/esupportail/desfire/service/DESFireCompleteService.java:111-135 | data is returned only after a successful select and authentication; a failed start returns null with the connection and session it left; the read changes no session field but the status code |
| Complete.ReadFileRunReads | src/main/java/org/esupportail/desfire/service/DESFireCompleteService.java:128-129 | after a successful start, a card answering the read frame with 0xAF frames and then a 0x00 frame has all their data read back in order, with the read frame and one continue frame per 0xAF reply sent |
| Complete.WriteFileRun | src/main/java/org/esupportail/desfire/service/DESFireCompleteService.java:140-164 | true only after a successful select and authentication and a write with status 0x00; a failed start returns false with the connection and session it left; the write changes no session field but the status code |
| Complete.WriteFileRunWrites | src/main/java/org/esupportail/desfire/service/DESFireCompleteService.java:157-158 | after a successful start the write frame of at most 248 data bytes is the one frame sent, and the answer is true exactly when the reply's SW2 is 0x00, which becomes the status code |
| Complete.FailedSelectStops | src/main/java/org/esupportail/desfire/service/DESFireCompleteService.java:115-118 | a refused select ends both workflows with null or false, having sent at most the select frame |
| Complete.DecimalString | src/main/java/org/esupportail/desfire/service/DESFireCompleteService.java:189 | the decimal text of a number: digits only, no leading zero, and it reads back as the number |
| Complete.ParseVersionData | src/main/java/org/esupportail/desfire/service/DESFireCompleteService.java:187-230 | a report if and only if there are at least 28 bytes; otherwise "Invalid version data (length: n)" with n the length (0 for null) |
| Complete.InvalidVersionTexts | src/main/java/org/esupportail/desfire/service/DESFireCompleteService.java:188-190 | the texts for no data and for 3 bytes |
| Complete.VersionReport | src/main/java/org/esupportail/desfire/service/DESFireCompleteService.java:171-182 | a thrown exception gives "Error getting version: " and its message; a null read gives "Failed to get version"; data gives the `parseVersionData` text, which is a report exactly when 28 or more bytes were read |
| Complete.BytesParam | src/main/java/org/esupportail/desfire/service/DESFireCompleteService.java:460 | `(byte[]) params[i]`: an array or null; too few arguments are out of bounds |
| Complete.ByteParam | src/main/java/org/esupportail/desfire/service/DESFireCompleteService.java:462 | `(Byte) params[i]` unboxed: only a Byte succeeds |
| Complete.IntParam | src/main/java/org/esupportail/desfire/service/DESFireCompleteService.java:473 | `(Integer) params[i]` unboxed: only an Integer succeeds |
| Complete.KeyTypeParam | src/main/java/org/esupportail/desfire/service/DESFireCompleteService.java:466 | `(KeyType) params[i]`: only a key type reaches the builder |
| Complete.CreateApplicationCall | src/main/java/org/esupportail/desfire/service/DESFireCompleteService.java:461-462 | the CREATE_APPLICATION branch builds from the cast arguments; no arguments are out of bounds; a null AID throws |
| Complete.DeleteApplicationCall | src/main/java/org/esupportail/desfire/service/DESFireCompleteService.java:463-464 | the DELETE_APPLICATION branch builds from the cast AID; a null AID throws |
| Complete.CreateStdDataFileCall | src/main/java/org/esupportail/desfire/service/DESFireCompleteService.java:469-471 | the CREATE_STD_DATA_FILE branch builds from the four cast arguments |
| Complete.ReadDataCall | src/main/java/org/esupportail/desfire/service/DESFireCompleteService.java:472-473 | the READ_DATA branch succeeds exactly with a Byte and two Integers |
| Complete.WriteDataCall | src/main/java/org/esupportail/desfire/service/DESFireCompleteService.java:474-475 | the WRITE_DATA branch succeeds exactly with a Byte, an Integer and an array; a null array throws |
| Complete.Build | src/main/java/org/esupportail/desfire/service/DESFireCompleteService.java:449-479 | the stateless builders cover exactly the ten stateless command names |
| Complete.CreateFrameHex | src/main/java/org/esupportail/desfire/service/DESFireApduService.java:72-88 | the creation frame for AID 12 34 56, settings 0F and one key is the hex text "90CA0000051234560F01" |
| Complete.CreateApplicationText | src/main/java/org/esupportail/desfire/service/DESFireApduService.java:72-88 | AID 12 34 56, settings 0F, one key gives "90CA0000051234560F01" |
| Complete.BuildGetVersion | src/main/java/org/esupportail/desfire/service/DESFireCompleteService.java:451-452 | "GET_VERSION" gives "9060000000" |
| Complete.BuildCreateApplication | src/main/java/org/esupportail/desfire/service/DESFireCompleteService.java:461-462 | "CREATE_APPLICATION" with AID 12 34 56, 0F, 01 gives "90CA0000051234560F01" |
| Complete.DesfireCompleteService.constructor | src/main/java/org/esupportail/desfire/service/DESFireCompleteService.java:20-24 | a fresh EV1 session and a fresh builder |
| Complete.DesfireCompleteService.Status | src/main/java/org/esupportail/desfire/service/DESFireCompleteService.java:287-300 | a direct status command on the connection, session unchanged |
| Complete.DesfireCompleteService.Query | src/main/java/org/esupportail/desfire/service/DESFireCompleteService.java:264-282 | a direct query on the connection, session unchanged |
| Complete.DesfireCompleteService.ChangeKey | src/main/java/org/esupportail/desfire/service/DESFireCompleteService.java:235-259 | the change-key exchange on the connection; the current key is not used and the session is unchanged |
| Complete.DesfireCompleteService.GetKeySettings | src/main/java/org/esupportail/desfire/service/DESFireCompleteService.java:264-282 | the query `[90, 45, 00, 00, 00]` |
| Complete.DesfireCompleteService.ChangeKeySettings | src/main/java/org/esupportail/desfire/service/DESFireCompleteService.java:287-300 | the status command `[90, 54, 00, 00, 01, keySettings]` |
| Complete.DesfireCompleteService.GetFileIds | src/main/java/org/esupportail/desfire/service/DESFireCompleteService.java:305-323 | the query `[90, 6F, 00, 00, 00]` |
| Complete.DesfireCompleteService.GetFileSettings | src/main/java/org/esupportail/desfire/service/DESFireCompleteService.java:328-346 | the query `[90, F5, 00, 00, 01, fileNo]` |
| Complete.DesfireCompleteService.ChangeFileSettings | src/main/java/org/esupportail/desfire/service/DESFireCompleteService.java:351-372 | null or empty access rights give false without sending; otherwise the status command with the first access-right byte |
| Complete.DesfireCompleteService.DeleteFile | src/main/java/org/esupportail/desfire/service/DESFireCompleteService.java:377-390 | the status command `[90, DF, 00, 00, 01, fileNo]` |
| Complete.DesfireCompleteService.CreateBackupDataFile | src/main/java/org/esupportail/desfire/service/DESFireCompleteService.java:395-419 | fewer than two access-right bytes give false without sending; otherwise the 0xCB file frame |
| Complete.DesfireCompleteService.GetCardUid | src/main/java/org/esupportail/desfire/service/DESFireCompleteService.java:424-442 | the query `[90, 51, 00, 00, 00]` |
| Complete.DesfireCompleteService.AuthenticateWithCard | src/main/java/org/esupportail/desfire/service/DESFireCompleteService.java:31-39 | true exactly when EV1 `authenticate` returns a session key; then the key type and number, the zero IV and the session key become the session, otherwise only the status code changes; a valid non-AES key is left with its version bits cleared in the caller's array |
| Complete.DesfireCompleteService.InitializeCard | src/main/java/org/esupportail/desfire/service/DESFireCompleteService.java:44-66 | answer, connection and every session field exactly as the default-key replacement run gives them |
| Complete.DesfireCompleteService.CreateApplicationComplete | src/main/java/org/esupportail/desfire/service/DESFireCompleteService.java:71-106 | answer, connection and every session field exactly as the creation run gives them; on success the new AID is selected and the card authenticated |
| Complete.DesfireCompleteService.Open | src/main/java/org/esupportail/desfire/service/DESFireCompleteService.java:113-126 | answer, connection and every session field exactly as select-then-authenticate gives them; the caller's key array is cleared of version bits only when the select succeeded and the key is valid |
| Complete.DesfireCompleteService.ReadFileComplete | src/main/java/org/esupportail/desfire/service/DESFireCompleteService.java:111-135 | answer, connection and every session field exactly as the read-file run gives them; the key array as in Open; data implies the AID is selected and the card authenticated |
| Complete.DesfireCompleteService.WriteFileComplete | src/main/java/org/esupportail/desfire/service/DESFireCompleteService.java:140-164 | answer, connection and every session field exactly as the write-file run gives them; the key array as in Open; success implies the AID is selected and the card authenticated |
| Complete.DesfireCompleteService.GetVersionComplete | src/main/java/org/esupportail/desfire/service/DESFireCompleteService.java:171-182 | the version text of the chained read of `[90, 60, 00, 00, 00]`; only the connection and the status code change |
| Complete.DesfireCompleteService.SelectByName | src/main/java/org/esupportail/desfire/service/DESFireCompleteService.java:459-460 | SELECT_APPLICATION: cast failures and a null AID throw with no change; otherwise the builder's select |
| Complete.DesfireCompleteService.AuthenticateByName | src/main/java/org/esupportail/desfire/service/DESFireCompleteService.java:465-466 | AUTHENTICATE: cast failures throw with no change; otherwise the step-1 frame, with key number and type recorded |
| Complete.DesfireCompleteService.GetApduString | src/main/java/org/esupportail/desfire/service/DESFireCompleteService.java:449-479 | upper-cased name dispatch: stateless names build, the two stateful names update the builder, any other name throws "Unknown command: " and the name as given |

## Left out

**Outside the model.**

- `PcscUsbService`, `App` and the `model` data holders are not part of this model. They are terminal I/O, a demo driver and getter/setter records.
- `SimpleSCR` is not part of this model. `connect`, `disconnect` and the PC/SC transmit become the scripted `Transport.Link`.
- The DES, 3DES and AES ciphers, CMAC and CRC are not part of this model. They are parameters. Only inverse CBC decryption and the 16-byte AES tag are assumed, and only as hypotheses of the lemmas that need them. A cipher exception becomes the `None` result of the cipher function.
- Logging is left out, and so is every logged message.

**Simplifications.**

- `SecureRandom` is a function of the requested length, so two draws of the same length give the same bytes in the model. Nothing proved depends on two draws differing.
- The getters (`getCurrentKeyType`, `getSessionKey`, `isAuthenticationInProgress` and the like) are not modelled as members; the fields they return are read directly.
- The unused `authService` field of `DESFireCompleteService` is not modelled.
- `DESFireEV1.disconnect` is left out with the transport.
- Key types are a closed datatype. The `default: throw "Unknown key type"` branches of the `getKeyLength` switches only fire on a `null` key type. A null key type is modelled only where a cast in `getApduString` can produce it.
- `Ev1.DesfireEV1` holds its AID as a value sequence, not a shared array. An AID array the caller modifies after `selectApplication` is not tracked.

**Java details not modelled.**

- Null arguments to methods other than the `getApduString` dispatch (a null `command` string, a null AID or null data passed straight to a builder) are not modelled. The parameters are sequences, and a `NullPointerException` there is not represented.
- Array sizes beyond `Integer.MAX_VALUE` and negative array sizes are not modelled. Sequence lengths are unbounded.
- DesfireUtils.Digit: only the ASCII hex digits 0-9, a-f and A-F are recognised. `Character.digit(c, 16)` also accepts other Unicode decimal digits and the fullwidth Latin letters; those characters read as -1 in the model. `Integer.parseInt` behind `DesfireUtils.ParseInt16` is modelled with the same ASCII digits.
- `String.toUpperCase` is modelled on ASCII letters only. Locale rules and letters outside ASCII are not.
- `e.getMessage()` is modelled as the exception's reason text. A null message (which Java prints as "null") is not distinguished.
- `Iso7816.Decode` parses the extended-length forms of ISO/IEC 7816-4, but only short-form frames are proved to round-trip. The library never means to build an extended-length frame. A write of 249 or more data bytes wraps its Lc byte, though (`Frames.WriteDataFrameParses`): with 249 bytes Lc becomes 00, and the parser can then read the next two bytes as an extended Lc and accept the frame as an extended APDU. The model does not exclude that reading; it only proves the frame is then not the intended short command.

**Contracts stated weaker than the source.**

- Complete.ParseVersionData: states the 28-byte guard and the exact "Invalid version data (length: n)" text. The multi-line report built from 28 or more bytes is returned as its data, not formatted.
- DesfireUtils.ParseInt16: its contract states only that a parse needs non-empty text. The sign, hex-digit and 32-bit range rules of `Integer.parseInt(s, 16)` are in its body. `HexStringToByteFF` and `HexStringToByteOfHex` prove the cases the library relies on.
