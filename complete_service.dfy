/** `DESFireCompleteService`: high-level workflows over `DESFireEV1`, a set
    of direct commands that check the raw reply for a trailing `91 00`
    themselves, and a dispatcher from command names to the hex builders of
    `DESFireApduService`. The workflows and direct commands catch every
    exception and answer false or null instead. */
module Complete {
  import opened Bytes
  import opened Wrappers
  import opened Keys
  import opened Cipher
  import opened Frames
  import opened Transport
  import opened DesfireUtils
  import Ev1
  import ApduService

  // ---------------------------------------------------------------------
  // The `91 00` check of the direct commands

  /** SW1 0x91 (a DESFire native status) followed by SW2 0x00 (operation
      ok): the only ending a direct command accepts. */
  const SuccessStatus: seq<byte> := [0x91, 0x00]

  predicate Succeeded(response: seq<byte>) {
    |response| >= 2 && response[|response| - 2] == 0x91 && response[|response| - 1] == 0x00
  }

  /** What a successful direct query hands back: the reply without its two
      status bytes. */
  function Payload(response: seq<byte>): (p: Option<seq<byte>>)
    ensures p.Some? <==> Succeeded(response)
    ensures p.Some? ==> response == p.value + SuccessStatus
  {
    if Succeeded(response) then Some(response[..|response| - 2]) else None
  }

  /** Any payload followed by `91 00` is accepted and read back unchanged. */
  lemma PayloadRoundTrip(payload: seq<byte>)
    ensures Payload(payload + SuccessStatus) == Some(payload)
  {
    var response := payload + SuccessStatus;
    assert response[..|response| - 2] == payload;
  }

  /** A reply ending in any other status is refused. */
  lemma OtherStatusRefused(payload: seq<byte>, sw1: byte, sw2: byte)
    requires sw1 != 0x91 || sw2 != 0x00
    ensures Payload(payload + [sw1, sw2]) == None
  {
    var response := payload + [sw1, sw2];
    assert response[|response| - 2] == sw1 && response[|response| - 1] == sw2;
  }

  /** A direct command answered by a status only: true when a reply arrives
      and ends in `91 00`; a failed transmission is caught and gives false. */
  function StatusExchange(frame: seq<byte>, link: Link): (r: (bool, Link))
    ensures r.0 <==> link.replies != [] && Succeeded(link.replies[0])
    ensures r.1 == TransmitRaw(frame, link).1
  {
    var (res, next) := TransmitRaw(frame, link);
    (res.Returned? && Succeeded(res.value), next)
  }

  /** A direct query: the reply's payload when it ends in `91 00`, null
      otherwise or when the transmission fails. */
  function QueryExchange(frame: seq<byte>, link: Link): (r: (Option<seq<byte>>, Link))
    ensures r.0.Some? <==> link.replies != [] && Succeeded(link.replies[0])
    ensures r.0.Some? ==> link.replies[0] == r.0.value + SuccessStatus
    ensures r.1 == TransmitRaw(frame, link).1
  {
    var (res, next) := TransmitRaw(frame, link);
    (if res.Raised? then None else Payload(res.value), next)
  }

  /** A card answering a query with a payload and `91 00` has that payload
      read back, and the query is the one frame sent. */
  lemma QueryRoundTrip(frame: seq<byte>, payload: seq<byte>, rest: seq<seq<byte>>, sent: seq<seq<byte>>)
    ensures QueryExchange(frame, Link([payload + SuccessStatus] + rest, sent)) == (Some(payload), Link(rest, sent + [frame]))
  {
    PayloadRoundTrip(payload);
    assert ([payload + SuccessStatus] + rest)[1..] == rest;
  }

  /** `changeKey`: copying the first key-length bytes out of a missing or
      shorter new key throws before anything is sent; otherwise the frame
      goes out as a direct command. The current key is not used. */
  function ChangeKeyExchange(keyNo: sbyte, keyVersion: sbyte, t: KeyType, newKey: Option<seq<byte>>, link: Link)
    : (r: (bool, Link))
    ensures newKey.None? || |newKey.value| < KeyLength(t) ==> r == (false, link)
    ensures r.0 <==> newKey.Some? && KeyLength(t) <= |newKey.value| && link.replies != [] && Succeeded(link.replies[0])
    ensures newKey.Some? && KeyLength(t) <= |newKey.value| ==>
              r.1 == TransmitRaw(ChangeKeyFrame(keyNo, keyVersion, KeyLength(t), newKey.value), link).1
    ensures r.0 ==>
              newKey.Some? && KeyLength(t) <= |newKey.value| && link.replies != []
              && r.1 == Link(link.replies[1..], link.sent + [ChangeKeyFrame(keyNo, keyVersion, KeyLength(t), newKey.value)])
  {
    if newKey.None? || |newKey.value| < KeyLength(t) then (false, link)
    else StatusExchange(ChangeKeyFrame(keyNo, keyVersion, KeyLength(t), newKey.value), link)
  }

  // ---------------------------------------------------------------------
  // The workflows

  /** Whether a run of `DESFireEV1.authenticate` returned a session key. */
  predicate Accepted(run: Ev1.Run<Option<seq<byte>>>) {
    run.result.Returned? && run.result.value.Some?
  }

  /** What a workflow does: its answer, the connection afterwards and the
      session fields of `DESFireEV1` afterwards, the last status code among
      them. */
  datatype Call<T> = Call(value: T, link: Link, session: Ev1.Session)

  /** The session after `authenticate` ran as `run`: a returned session key
      brings the key type and number, the zero IV and that key; any other
      outcome changes only the recorded status code. */
  function AfterAuthenticate(s: Ev1.Session, run: Ev1.Run<Option<seq<byte>>>, keyNo: sbyte, t: KeyType): Ev1.Session {
    if Accepted(run) then
      s.(ktype := Some(t), kno := keyNo, iv := Some(Zeros(BlockLength(t))), skey := run.result.value, code := run.code)
    else s.(code := run.code)
  }

  /** The session after `selectApplication` of a 3-byte AID ran as `run`: a
      success stores the AID and forgets the session and the file; any other
      outcome changes only the recorded status code. */
  function AfterSelect(s: Ev1.Session, aid: seq<byte>, run: Ev1.Run<bool>): Ev1.Session {
    if run.result == Returned(true) then Ev1.Session(None, -1, aid, None, None, -1, None, run.code)
    else s.(code := run.code)
  }

  /** The second half of `initializeCard` and `createApplicationComplete`:
      authenticate key 0 with the all-zero default key of the type, then
      change key 0 (version 0) to `newKey`. */
  function ReplaceDefaultKey(c: BlockCipher, random: Random, newKey: Option<seq<byte>>, t: KeyType, link: Link, s: Ev1.Session)
    : Call<bool>
  {
    var auth := Ev1.Ev1Authenticate(c, random, Some(Zeros(KeyLength(t))), 0, t, link, s.code);
    var after := AfterAuthenticate(s, auth, 0, t);
    if !Accepted(auth) then Call(false, auth.link, after)
    else
      var (ok, next) := ChangeKeyExchange(0, 0, t, newKey, auth.link);
      Call(ok, next, after)
  }

  /** A successful key replacement sent exactly three frames: the step-1
      authentication frame for key 0, the second handshake frame, and the
      change-key frame carrying the new key. */
  lemma ReplaceDefaultKeySends(c: BlockCipher, random: Random, newKey: Option<seq<byte>>, t: KeyType, link: Link, s: Ev1.Session)
    requires ReplaceDefaultKey(c, random, newKey, t, link, s).value
    ensures var r := ReplaceDefaultKey(c, random, newKey, t, link, s);
      && newKey.Some? && KeyLength(t) <= |newKey.value|
      && |r.link.sent| == |link.sent| + 3 && r.link.sent[..|link.sent|] == link.sent
      && r.link.sent[|link.sent|] == AuthFrame(t, 0)
      && r.link.sent[|link.sent| + 2] == ChangeKeyFrame(0, 0, KeyLength(t), newKey.value)
      && |r.link.replies| + 3 == |link.replies|
  {
    var auth := Ev1.Ev1Authenticate(c, random, Some(Zeros(KeyLength(t))), 0, t, link, s.code);
    Ev1.Ev1AuthenticateSuccess(c, random, Some(Zeros(KeyLength(t))), 0, t, link, s.code);
    var (ok, next) := ChangeKeyExchange(0, 0, t, newKey, auth.link);
    assert next.sent == auth.link.sent + [ChangeKeyFrame(0, 0, KeyLength(t), newKey.value)];
    assert next.sent[..|link.sent|] == auth.link.sent[..|link.sent|];
  }

  /** After a successful key replacement the object holds the session the
      default-key authentication entered: key 0 of the type, the zero IV, a
      session key of the type's length and status 0; the AID and the file
      fields are those from before. */
  lemma ReplaceDefaultKeySession(c: BlockCipher, random: Random, newKey: Option<seq<byte>>, t: KeyType, link: Link, s: Ev1.Session)
    requires ReplaceDefaultKey(c, random, newKey, t, link, s).value
    ensures var r := ReplaceDefaultKey(c, random, newKey, t, link, s);
      && r.session.skey.Some? && |r.session.skey.value| == KeyLength(t)
      && r.session == s.(ktype := Some(t), kno := 0, iv := Some(Zeros(BlockLength(t))), skey := r.session.skey, code := 0)
  {
    Ev1.Ev1AuthenticateSuccess(c, random, Some(Zeros(KeyLength(t))), 0, t, link, s.code);
  }

  /** `createApplicationComplete`: create the application, select it, then
      replace its default key 0; the first failure ends it with false. An
      AID that is not 3 bytes throws inside and gives false at once. */
  function CreateApplicationRun(c: BlockCipher, random: Random, aid: seq<byte>, keySettings: sbyte, numberOfKeys: sbyte,
                                masterKey: Option<seq<byte>>, t: KeyType, link: Link, s: Ev1.Session): Call<bool>
  {
    if |aid| != 3 then Call(false, link, s)
    else
      var created := Ev1.StatusCommand(CreateApplicationFrame(aid, keySettings, numberOfKeys), link, s.code);
      if created.result != Returned(true) then Call(false, created.link, s.(code := created.code))
      else
        var selected := Ev1.StatusCommand(AidFrame(0x5A, aid), created.link, created.code);
        var entered := AfterSelect(s, aid, selected);
        if selected.result != Returned(true) then Call(false, selected.link, entered)
        else ReplaceDefaultKey(c, random, masterKey, t, selected.link, entered)
  }

  /** A successful creation got past its create and select commands and
      then replaced the default key in the newly selected application. */
  lemma CreateApplicationSteps(c: BlockCipher, random: Random, aid: seq<byte>, keySettings: sbyte, numberOfKeys: sbyte,
                               masterKey: Option<seq<byte>>, t: KeyType, link: Link, s: Ev1.Session)
    requires CreateApplicationRun(c, random, aid, keySettings, numberOfKeys, masterKey, t, link, s).value
    ensures |aid| == 3
    ensures var created := Ev1.StatusCommand(CreateApplicationFrame(aid, keySettings, numberOfKeys), link, s.code);
      var selected := Ev1.StatusCommand(AidFrame(0x5A, aid), created.link, created.code);
      && created.result == Returned(true) && selected.result == Returned(true)
      && selected.link.sent == link.sent + [CreateApplicationFrame(aid, keySettings, numberOfKeys), AidFrame(0x5A, aid)]
      && CreateApplicationRun(c, random, aid, keySettings, numberOfKeys, masterKey, t, link, s)
         == ReplaceDefaultKey(c, random, masterKey, t, selected.link, Ev1.Session(None, -1, aid, None, None, -1, None, selected.code))
  {
    var created := Ev1.StatusCommand(CreateApplicationFrame(aid, keySettings, numberOfKeys), link, s.code);
    assert created.result == Returned(true);
    var selected := Ev1.StatusCommand(AidFrame(0x5A, aid), created.link, created.code);
    assert selected.result == Returned(true);
  }

  /** A successful creation sent, in order, the create frame, the select
      frame, the step-1 frame for key 0, the second handshake frame and the
      change-key frame; nothing else. */
  lemma CreateApplicationSends(c: BlockCipher, random: Random, aid: seq<byte>, keySettings: sbyte, numberOfKeys: sbyte,
                               masterKey: Option<seq<byte>>, t: KeyType, link: Link, s: Ev1.Session)
    requires CreateApplicationRun(c, random, aid, keySettings, numberOfKeys, masterKey, t, link, s).value
    ensures var r := CreateApplicationRun(c, random, aid, keySettings, numberOfKeys, masterKey, t, link, s);
      var n := |link.sent|;
      && |aid| == 3 && masterKey.Some? && KeyLength(t) <= |masterKey.value|
      && |r.link.sent| == n + 5 && r.link.sent[..n] == link.sent
      && r.link.sent[n] == CreateApplicationFrame(aid, keySettings, numberOfKeys)
      && r.link.sent[n + 1] == AidFrame(0x5A, aid)
      && r.link.sent[n + 2] == AuthFrame(t, 0)
      && r.link.sent[n + 4] == ChangeKeyFrame(0, 0, KeyLength(t), masterKey.value)
  {
    CreateApplicationSteps(c, random, aid, keySettings, numberOfKeys, masterKey, t, link, s);
    var created := Ev1.StatusCommand(CreateApplicationFrame(aid, keySettings, numberOfKeys), link, s.code);
    var selected := Ev1.StatusCommand(AidFrame(0x5A, aid), created.link, created.code);
    var entered := Ev1.Session(None, -1, aid, None, None, -1, None, selected.code);
    ReplaceDefaultKeySends(c, random, masterKey, t, selected.link, entered);
    var r := ReplaceDefaultKey(c, random, masterKey, t, selected.link, entered);
    SentAfter(r.link.sent, link.sent, CreateApplicationFrame(aid, keySettings, numberOfKeys), AidFrame(0x5A, aid));
  }

  /** After a successful creation the object is in the new application,
      authenticated with its key 0 under the type: the zero IV, a session
      key of the type's length, no file, status 0. */
  lemma CreateApplicationSession(c: BlockCipher, random: Random, aid: seq<byte>, keySettings: sbyte, numberOfKeys: sbyte,
                                 masterKey: Option<seq<byte>>, t: KeyType, link: Link, s: Ev1.Session)
    requires CreateApplicationRun(c, random, aid, keySettings, numberOfKeys, masterKey, t, link, s).value
    ensures var r := CreateApplicationRun(c, random, aid, keySettings, numberOfKeys, masterKey, t, link, s);
      && r.session.skey.Some? && |r.session.skey.value| == KeyLength(t)
      && r.session == Ev1.Session(Some(t), 0, aid, Some(Zeros(BlockLength(t))), r.session.skey, -1, None, 0)
  {
    CreateApplicationSteps(c, random, aid, keySettings, numberOfKeys, masterKey, t, link, s);
    var created := Ev1.StatusCommand(CreateApplicationFrame(aid, keySettings, numberOfKeys), link, s.code);
    var selected := Ev1.StatusCommand(AidFrame(0x5A, aid), created.link, created.code);
    ReplaceDefaultKeySession(c, random, masterKey, t, selected.link, Ev1.Session(None, -1, aid, None, None, -1, None, selected.code));
  }

  /** A log that starts with `sent` and two more frames starts with `sent`,
      and holds those two frames right after it. */
  lemma SentAfter(log: seq<seq<byte>>, sent: seq<seq<byte>>, first: seq<byte>, second: seq<byte>)
    requires |sent| + 2 <= |log| && log[..|sent| + 2] == sent + [first, second]
    ensures log[..|sent|] == sent && log[|sent|] == first && log[|sent| + 1] == second
  {
    assert log[..|sent|] == log[..|sent| + 2][..|sent|];
  }

  /** A log that starts with `sent` and one more frame starts with `sent`,
      and holds that frame right after it. */
  lemma SentThen(log: seq<seq<byte>>, sent: seq<seq<byte>>, frame: seq<byte>)
    requires |sent| + 1 <= |log| && log[..|sent| + 1] == sent + [frame]
    ensures log[..|sent|] == sent && log[|sent|] == frame
  {
    assert log[..|sent|] == log[..|sent| + 1][..|sent|];
  }

  /** The start of `readFileComplete` and `writeFileComplete`: select the
      application, then authenticate. A successful select always forgets
      the session, so `isAuthenticated()` is false at that point and the
      authentication is never skipped. */
  function SelectAndAuthenticate(c: BlockCipher, random: Random, aid: seq<byte>, keyNo: sbyte, t: KeyType,
                                 key: Option<seq<byte>>, link: Link, s: Ev1.Session): Call<bool>
  {
    if |aid| != 3 then Call(false, link, s)
    else
      var selected := Ev1.StatusCommand(AidFrame(0x5A, aid), link, s.code);
      var entered := AfterSelect(s, aid, selected);
      if selected.result != Returned(true) then Call(false, selected.link, entered)
      else
        var auth := Ev1.Ev1Authenticate(c, random, key, keyNo, t, selected.link, selected.code);
        Call(Accepted(auth), auth.link, AfterAuthenticate(entered, auth, keyNo, t))
  }

  /** Whether `selectApplication(aid)` succeeds on this connection. */
  predicate SelectSucceeds(aid: seq<byte>, link: Link, code: int) {
    |aid| == 3 && Ev1.StatusCommand(AidFrame(0x5A, aid), link, code).result == Returned(true)
  }

  /** A successful start selected the application and then authenticated
      in it: the select frame went out first, and the authentication ran on
      the connection and status the select left. */
  lemma SelectAndAuthenticateSteps(c: BlockCipher, random: Random, aid: seq<byte>, keyNo: sbyte, t: KeyType,
                                   key: Option<seq<byte>>, link: Link, s: Ev1.Session)
    requires SelectAndAuthenticate(c, random, aid, keyNo, t, key, link, s).value
    ensures |aid| == 3
    ensures var selected := Ev1.StatusCommand(AidFrame(0x5A, aid), link, s.code);
      var auth := Ev1.Ev1Authenticate(c, random, key, keyNo, t, selected.link, selected.code);
      var r := SelectAndAuthenticate(c, random, aid, keyNo, t, key, link, s);
      && selected.result == Returned(true) && selected.link.sent == link.sent + [AidFrame(0x5A, aid)]
      && Accepted(auth) && r.link == auth.link
      && r.session == AfterAuthenticate(Ev1.Session(None, -1, aid, None, None, -1, None, selected.code), auth, keyNo, t)
  {
    var selected := Ev1.StatusCommand(AidFrame(0x5A, aid), link, s.code);
    assert selected.result == Returned(true);
  }

  /** When the select and the authentication both succeed, the select
      frame and then the step-1 frame of the authentication were sent, and
      two more frames after them. */
  lemma SelectAndAuthenticateSends(c: BlockCipher, random: Random, aid: seq<byte>, keyNo: sbyte, t: KeyType,
                                   key: Option<seq<byte>>, link: Link, s: Ev1.Session)
    requires SelectAndAuthenticate(c, random, aid, keyNo, t, key, link, s).value
    ensures var r := SelectAndAuthenticate(c, random, aid, keyNo, t, key, link, s);
      var n := |link.sent|;
      && |aid| == 3 && |r.link.sent| == n + 3 && r.link.sent[..n] == link.sent
      && r.link.sent[n] == AidFrame(0x5A, aid) && r.link.sent[n + 1] == AuthFrame(t, keyNo)
  {
    SelectAndAuthenticateSteps(c, random, aid, keyNo, t, key, link, s);
    var selected := Ev1.StatusCommand(AidFrame(0x5A, aid), link, s.code);
    var auth := Ev1.Ev1Authenticate(c, random, key, keyNo, t, selected.link, selected.code);
    Ev1.Ev1AuthenticateSuccess(c, random, key, keyNo, t, selected.link, selected.code);
    SentThen(auth.link.sent, link.sent, AidFrame(0x5A, aid));
  }

  /** After a successful start the object is in the selected application,
      authenticated with the given key number and type: the zero IV, a
      session key of the type's length, no file, status 0. */
  lemma SelectAndAuthenticateSession(c: BlockCipher, random: Random, aid: seq<byte>, keyNo: sbyte, t: KeyType,
                                     key: Option<seq<byte>>, link: Link, s: Ev1.Session)
    requires SelectAndAuthenticate(c, random, aid, keyNo, t, key, link, s).value
    ensures var r := SelectAndAuthenticate(c, random, aid, keyNo, t, key, link, s);
      && r.session.skey.Some? && |r.session.skey.value| == KeyLength(t)
      && r.session == Ev1.Session(Some(t), keyNo, aid, Some(Zeros(BlockLength(t))), r.session.skey, -1, None, 0)
  {
    SelectAndAuthenticateSteps(c, random, aid, keyNo, t, key, link, s);
    var selected := Ev1.StatusCommand(AidFrame(0x5A, aid), link, s.code);
    Ev1.Ev1AuthenticateSuccess(c, random, key, keyNo, t, selected.link, selected.code);
  }

  /** `readFileComplete`: after the select and the authentication, a
      chained read of the file; every failure, thrown or not, gives null.
      A failed start leaves the connection and session as it left them;
      the read itself changes no session field but the status code. */
  function ReadFileRun(c: BlockCipher, random: Random, aid: seq<byte>, keyNo: sbyte, t: KeyType, key: Option<seq<byte>>,
                       fileNo: sbyte, offset: int32, length: int32, link: Link, s: Ev1.Session): (r: Call<Option<seq<byte>>>)
    ensures var started := SelectAndAuthenticate(c, random, aid, keyNo, t, key, link, s);
      && (r.value.Some? ==> started.value)
      && (!started.value ==> r == Call(None, started.link, started.session))
      && r.session == started.session.(code := r.session.code)
  {
    var started := SelectAndAuthenticate(c, random, aid, keyNo, t, key, link, s);
    if !started.value then Call(None, started.link, started.session)
    else
      var data := Ev1.ReadChain(ReadDataFrame(fileNo, offset, length), started.link, started.session.code);
      Call(if data.result.Returned? then data.result.value else None, data.link, started.session.(code := data.code))
  }

  /** After a successful start, a card that answers the read frame with
      `payloads` under 0xAF and then `last` under 0x00 has the payloads and
      `last` read back in order; the read frame and one continue frame per
      0xAF reply are sent, and the status code becomes 0. */
  lemma ReadFileRunReads(c: BlockCipher, random: Random, aid: seq<byte>, keyNo: sbyte, t: KeyType, key: Option<seq<byte>>,
                         fileNo: sbyte, offset: int32, length: int32, link: Link, s: Ev1.Session,
                         payloads: seq<seq<byte>>, last: seq<byte>, sw1: byte, rest: seq<seq<byte>>)
    requires var started := SelectAndAuthenticate(c, random, aid, keyNo, t, key, link, s);
      started.value && started.link.replies == Ev1.ChainScript(payloads, last, sw1, 0x00) + rest
    ensures var started := SelectAndAuthenticate(c, random, aid, keyNo, t, key, link, s);
      ReadFileRun(c, random, aid, keyNo, t, key, fileNo, offset, length, link, s)
      == Call(Some(Ev1.Concat(payloads) + last),
              Link(rest, started.link.sent + [ReadDataFrame(fileNo, offset, length)] + Ev1.MoreFrames(|payloads|)),
              started.session.(code := 0))
  {
    var started := SelectAndAuthenticate(c, random, aid, keyNo, t, key, link, s);
    Ev1.ReadChainCollects(ReadDataFrame(fileNo, offset, length), payloads, last, sw1, 0x00, rest, started.link.sent,
                          started.session.code);
  }

  /** `writeFileComplete`: after the select and the authentication, one
      write command; every failure, thrown or not, gives false. A failed
      start leaves the connection and session as it left them; the write
      itself changes no session field but the status code. */
  function WriteFileRun(c: BlockCipher, random: Random, aid: seq<byte>, keyNo: sbyte, t: KeyType, key: Option<seq<byte>>,
                        fileNo: sbyte, offset: int32, data: seq<byte>, link: Link, s: Ev1.Session): (r: Call<bool>)
    ensures var started := SelectAndAuthenticate(c, random, aid, keyNo, t, key, link, s);
      && (r.value ==> started.value && r.session.code == 0)
      && (!started.value ==> r == Call(false, started.link, started.session))
      && r.session == started.session.(code := r.session.code)
  {
    var started := SelectAndAuthenticate(c, random, aid, keyNo, t, key, link, s);
    if !started.value then Call(false, started.link, started.session)
    else
      var written := Ev1.StatusCommand(WriteDataFrame(fileNo, offset, data), started.link, started.session.code);
      Call(written.result == Returned(true), written.link, started.session.(code := written.code))
  }

  /** After a successful start, the write frame of at most 248 data bytes
      is sent, and the card's reply decides: true exactly when its status
      SW2 is 0x00 (as in `91 00`), which also becomes the status code. */
  lemma WriteFileRunWrites(c: BlockCipher, random: Random, aid: seq<byte>, keyNo: sbyte, t: KeyType, key: Option<seq<byte>>,
                           fileNo: sbyte, offset: int32, data: seq<byte>, link: Link, s: Ev1.Session,
                           payload: seq<byte>, sw1: byte, sw2: byte, rest: seq<seq<byte>>)
    requires |data| <= 248
    requires var started := SelectAndAuthenticate(c, random, aid, keyNo, t, key, link, s);
      started.value && started.link.replies == [RawReply(payload, sw1, sw2)] + rest
    ensures var started := SelectAndAuthenticate(c, random, aid, keyNo, t, key, link, s);
      WriteFileRun(c, random, aid, keyNo, t, key, fileNo, offset, data, link, s)
      == Call(sw2 == 0x00, Link(rest, started.link.sent + [WriteDataFrame(fileNo, offset, data)]), started.session.(code := sw2 as int))
  {
    var started := SelectAndAuthenticate(c, random, aid, keyNo, t, key, link, s);
    WriteDataFrameParses(fileNo, offset, data);
    TransmitReadsReply(WriteDataFrame(fileNo, offset, data), payload, sw1, sw2, rest, started.link.sent);
  }

  /** When the select is refused, `readFileComplete` and
      `writeFileComplete` stop there: no authentication frame, read or
      write follows the select frame. */
  lemma FailedSelectStops(c: BlockCipher, random: Random, aid: seq<byte>, keyNo: sbyte, t: KeyType, key: Option<seq<byte>>,
                          fileNo: sbyte, offset: int32, length: int32, data: seq<byte>, link: Link, s: Ev1.Session)
    requires |aid| == 3 && Ev1.StatusCommand(AidFrame(0x5A, aid), link, s.code).result != Returned(true)
    ensures var read := ReadFileRun(c, random, aid, keyNo, t, key, fileNo, offset, length, link, s);
      read.value.None? && (read.link.sent == link.sent || read.link.sent == link.sent + [AidFrame(0x5A, aid)])
    ensures var written := WriteFileRun(c, random, aid, keyNo, t, key, fileNo, offset, data, link, s);
      !written.value && (written.link.sent == link.sent || written.link.sent == link.sent + [AidFrame(0x5A, aid)])
  {
  }

  // ---------------------------------------------------------------------
  // Version text

  const VersionFailed: string := "Failed to get version"
  const VersionError: string := "Error getting version: "
  const InvalidVersion: string := "Invalid version data (length: "

  /** The decimal digits of `Integer.toString`. */
  const DecimalDigits: string := "0123456789"

  /** The value of a string of decimal digits. */
  function DecimalValue(s: string): int {
    if s == [] then 0 else 10 * DecimalValue(s[..|s| - 1]) + (s[|s| - 1] as int - '0' as int)
  }

  /** A natural number in decimal, as string concatenation writes an int:
      digits only, no leading zero, and reading back as the number. */
  function DecimalString(n: nat): (s: string)
    ensures |s| >= 1 && (|s| > 1 ==> s[0] != '0')
    ensures forall k :: 0 <= k < |s| ==> '0' <= s[k] <= '9'
    ensures DecimalValue(s) == n
    decreases n
  {
    if n < 10 then [DecimalDigits[n]]
    else
      var s := DecimalString(n / 10) + [DecimalDigits[n % 10]];
      assert s[..|s| - 1] == DecimalString(n / 10);
      s
  }

  /** The text `getVersionComplete` answers with; the layout of the full
      report is not part of this model, so a report is kept as the bytes it
      is built from. */
  datatype VersionText = Message(text: string) | Report(data: seq<byte>)

  /** `parseVersionData`: null or fewer than 28 bytes gives the
      invalid-length message with the length (0 for null). */
  function ParseVersionData(data: Option<seq<byte>>): (r: VersionText)
    ensures r.Report? <==> data.Some? && |data.value| >= 28
    ensures r.Report? ==> r.data == data.value
    ensures r.Message? ==>
              |r.text| > |InvalidVersion| + 1 && r.text[..|InvalidVersion|] == InvalidVersion && r.text[|r.text| - 1] == ')'
              && DecimalValue(r.text[|InvalidVersion|..|r.text| - 1]) == if data.Some? then |data.value| else 0
  {
    if data.None? || |data.value| < 28 then
      var digits := DecimalString(if data.Some? then |data.value| else 0);
      var text := InvalidVersion + digits + ")";
      assert text[..|InvalidVersion|] == InvalidVersion;
      assert text[|InvalidVersion|..|text| - 1] == digits;
      Message(text)
    else Report(data.value)
  }

  /** The texts for a missing and a 3-byte version. */
  lemma InvalidVersionTexts()
    ensures ParseVersionData(None) == Message("Invalid version data (length: 0)")
    ensures ParseVersionData(Some([4, 1, 1])) == Message("Invalid version data (length: 3)")
  {
    InvalidVersionText(None, 0, '0');
    InvalidVersionText(Some([4, 1, 1]), 3, '3');
  }

  lemma InvalidVersionText(data: Option<seq<byte>>, n: nat, digit: char)
    requires n < 10 && digit == DecimalDigits[n]
    requires n == if data.Some? then |data.value| else 0
    ensures ParseVersionData(data) == Message(InvalidVersion + [digit] + ")")
  {
    assert DecimalString(n) == [digit];
  }

  /** `getVersionComplete` from the outcome of `getVersion`: a thrown
      exception gives the error message, null gives the failure message,
      data is parsed. */
  function VersionReport(data: Outcome<Option<seq<byte>>>): (r: VersionText)
    ensures r.Report? ==> data == Returned(Some(r.data)) && |r.data| >= 28
    ensures r.Report? <==> data.Returned? && data.value.Some? && |data.value.value| >= 28
    ensures data.Raised? ==> r == Message(VersionError + data.reason)
    ensures data == Returned(None) ==> r == Message(VersionFailed)
    ensures data.Returned? && data.value.Some? ==> r == ParseVersionData(data.value)
  {
    match data
    case Raised(e) => Message(VersionError + e)
    case Returned(None) => Message(VersionFailed)
    case Returned(Some(d)) => ParseVersionData(Some(d))
  }

  // ---------------------------------------------------------------------
  // `getApduString`

  const UnknownCommand: string := "Unknown command: "

  /** An argument of `getApduString`, as the `Object` it is passed as. */
  datatype Param = Null | Bytes(bytes: seq<byte>) | AByte(b: sbyte) | AnInt(i: int32) | AKeyType(t: KeyType) | Other

  /** `(byte[]) params[i]`: an array or null. */
  function BytesParam(params: seq<Param>, i: nat): (r: Outcome<Option<seq<byte>>>)
    ensures r.Returned? <==> i < |params| && (params[i].Null? || params[i].Bytes?)
    ensures r.Returned? ==> r.value == if params[i].Bytes? then Some(params[i].bytes) else None
    ensures i >= |params| ==> r == Raised(IndexOutOfBounds)
  {
    if i >= |params| then Raised(IndexOutOfBounds)
    else
      match params[i]
      case Null => Returned(None)
      case Bytes(b) => Returned(Some(b))
      case _ => Raised(ClassCast)
  }

  /** `(Byte) params[i]` unboxed to a `byte`: null fails the unboxing. */
  function ByteParam(params: seq<Param>, i: nat): (r: Outcome<sbyte>)
    ensures r.Returned? <==> i < |params| && params[i].AByte?
    ensures r.Returned? ==> r.value == params[i].b
    ensures i >= |params| ==> r == Raised(IndexOutOfBounds)
  {
    if i >= |params| then Raised(IndexOutOfBounds)
    else
      match params[i]
      case AByte(b) => Returned(b)
      case Null => Raised(NullPointer)
      case _ => Raised(ClassCast)
  }

  /** `(Integer) params[i]` unboxed to an `int`. */
  function IntParam(params: seq<Param>, i: nat): (r: Outcome<int32>)
    ensures r.Returned? <==> i < |params| && params[i].AnInt?
    ensures r.Returned? ==> r.value == params[i].i
    ensures i >= |params| ==> r == Raised(IndexOutOfBounds)
  {
    if i >= |params| then Raised(IndexOutOfBounds)
    else
      match params[i]
      case AnInt(v) => Returned(v)
      case Null => Raised(NullPointer)
      case _ => Raised(ClassCast)
  }

  /** `(KeyType) params[i]`; a null key type passes the cast but the
      builder's switch on it throws before any field is written, so it is
      refused here. */
  function KeyTypeParam(params: seq<Param>, i: nat): (r: Outcome<KeyType>)
    ensures r.Returned? <==> i < |params| && params[i].AKeyType?
    ensures r.Returned? ==> r.value == params[i].t
    ensures i >= |params| ==> r == Raised(IndexOutOfBounds)
  {
    if i >= |params| then Raised(IndexOutOfBounds)
    else
      match params[i]
      case AKeyType(t) => Returned(t)
      case Null => Raised(NullPointer)
      case _ => Raised(ClassCast)
  }

  /** The command names whose builder keeps no state. */
  const StatelessNames: set<string> := {"GET_VERSION", "GET_FREE_MEMORY", "FORMAT_PICC", "GET_APPLICATION_IDS",
                                        "CREATE_APPLICATION", "DELETE_APPLICATION", "GET_FILE_IDS",
                                        "CREATE_STD_DATA_FILE", "READ_DATA", "WRITE_DATA"}

  /** The two names whose builders keep state are not stateless names. */
  lemma StatefulNamesApart()
    ensures "SELECT_APPLICATION" !in StatelessNames && "AUTHENTICATE" !in StatelessNames
  {
  }

  /** The "CREATE_APPLICATION" branch: the arguments are cast in order and
      a null AID throws when the builder first reads it. */
  function CreateApplicationCall(params: seq<Param>): (r: Outcome<string>)
    ensures r.Returned? ==>
              |params| >= 3 && params[0].Bytes? && params[1].AByte? && params[2].AByte?
              && r == ApduService.CreateApplication(params[0].bytes, params[1].b, params[2].b)
    ensures params == [] ==> r == Raised(IndexOutOfBounds)
    ensures |params| >= 3 && params[0].Null? && params[1].AByte? && params[2].AByte? ==> r == Raised(NullPointer)
  {
    var aid := BytesParam(params, 0);
    var ks := ByteParam(params, 1);
    var nk := ByteParam(params, 2);
    if aid.Raised? then Raised(aid.reason)
    else if ks.Raised? then Raised(ks.reason)
    else if nk.Raised? then Raised(nk.reason)
    else if aid.value.None? then Raised(NullPointer)
    else ApduService.CreateApplication(aid.value.value, ks.value, nk.value)
  }

  /** The "DELETE_APPLICATION" branch. */
  function DeleteApplicationCall(params: seq<Param>): (r: Outcome<string>)
    ensures r.Returned? ==>
              |params| >= 1 && params[0].Bytes? && r == ApduService.DeleteApplication(params[0].bytes)
    ensures |params| == 0 ==> r == Raised(IndexOutOfBounds)
    ensures |params| > 0 && params[0].Null? ==> r == Raised(NullPointer)
  {
    var aid := BytesParam(params, 0);
    if aid.Raised? then Raised(aid.reason)
    else if aid.value.None? then Raised(NullPointer)
    else ApduService.DeleteApplication(aid.value.value)
  }

  /** The "CREATE_STD_DATA_FILE" branch. */
  function CreateStdDataFileCall(params: seq<Param>): (r: Outcome<string>)
    ensures r.Returned? ==>
              |params| >= 4 && params[0].AByte? && params[1].AByte? && params[2].Bytes? && params[3].AnInt?
              && r == ApduService.CreateStdDataFile(params[0].b, params[1].b, params[2].bytes, params[3].i)
    ensures params == [] ==> r == Raised(IndexOutOfBounds)
  {
    var fileNo := ByteParam(params, 0);
    var comm := ByteParam(params, 1);
    var rights := BytesParam(params, 2);
    var size := IntParam(params, 3);
    if fileNo.Raised? then Raised(fileNo.reason)
    else if comm.Raised? then Raised(comm.reason)
    else if rights.Raised? then Raised(rights.reason)
    else if size.Raised? then Raised(size.reason)
    else if rights.value.None? then Raised(NullPointer)
    else ApduService.CreateStdDataFile(fileNo.value, comm.value, rights.value.value, size.value)
  }

  /** The "READ_DATA" branch. */
  function ReadDataCall(params: seq<Param>): (r: Outcome<string>)
    ensures r.Returned? <==> |params| >= 3 && params[0].AByte? && params[1].AnInt? && params[2].AnInt?
    ensures r.Returned? ==> r.value == ApduService.ReadData(params[0].b, params[1].i, params[2].i)
    ensures params == [] ==> r == Raised(IndexOutOfBounds)
  {
    var fileNo := ByteParam(params, 0);
    var offset := IntParam(params, 1);
    var length := IntParam(params, 2);
    if fileNo.Raised? then Raised(fileNo.reason)
    else if offset.Raised? then Raised(offset.reason)
    else if length.Raised? then Raised(length.reason)
    else Returned(ApduService.ReadData(fileNo.value, offset.value, length.value))
  }

  /** The "WRITE_DATA" branch. */
  function WriteDataCall(params: seq<Param>): (r: Outcome<string>)
    ensures r.Returned? <==> |params| >= 3 && params[0].AByte? && params[1].AnInt? && params[2].Bytes?
    ensures r.Returned? ==> r.value == ApduService.WriteData(params[0].b, params[1].i, params[2].bytes)
    ensures |params| >= 3 && params[0].AByte? && params[1].AnInt? && params[2].Null? ==> r == Raised(NullPointer)
  {
    var fileNo := ByteParam(params, 0);
    var offset := IntParam(params, 1);
    var data := BytesParam(params, 2);
    if fileNo.Raised? then Raised(fileNo.reason)
    else if offset.Raised? then Raised(offset.reason)
    else if data.Raised? then Raised(data.reason)
    else if data.value.None? then Raised(NullPointer)
    else Returned(ApduService.WriteData(fileNo.value, offset.value, data.value.value))
  }

  /** The stateless branches of `getApduString`, for an upper-cased name. */
  function Build(name: string, params: seq<Param>): (r: Option<Outcome<string>>)
    ensures r.Some? <==> name in StatelessNames
  {
    if name !in StatelessNames then None
    else if name == "GET_VERSION" then Some(Returned(ApduService.GetVersion()))
    else if name == "GET_FREE_MEMORY" then Some(Returned(ApduService.GetFreeMemory()))
    else if name == "FORMAT_PICC" then Some(Returned(ApduService.FormatPicc()))
    else if name == "GET_APPLICATION_IDS" then Some(Returned(ApduService.GetApplicationIds()))
    else if name == "GET_FILE_IDS" then Some(Returned(ApduService.GetFileIds()))
    else if name == "CREATE_APPLICATION" then Some(CreateApplicationCall(params))
    else if name == "DELETE_APPLICATION" then Some(DeleteApplicationCall(params))
    else if name == "CREATE_STD_DATA_FILE" then Some(CreateStdDataFileCall(params))
    else if name == "READ_DATA" then Some(ReadDataCall(params))
    else Some(WriteDataCall(params))
  }

  /** The hex text of the header of that creation frame. */
  lemma CreateHeaderHex(f: seq<byte>)
    requires f == [0x90, 0xCA, 0, 0, 5]
    ensures ToHex(f) == "90CA000005"
  {
    var h := ToHex(f);
    assert h[0] == '9' && h[1] == '0' by { ToHexAt(f, 0); }
    assert h[2] == 'C' && h[3] == 'A' by { ToHexAt(f, 1); }
    assert h[4] == '0' && h[5] == '0' by { ToHexAt(f, 2); }
    assert h[6] == '0' && h[7] == '0' by { ToHexAt(f, 3); }
    assert h[8] == '0' && h[9] == '5' by { ToHexAt(f, 4); }
  }

  /** The hex text of the data of that creation frame. */
  lemma CreateDataHex(f: seq<byte>)
    requires f == [0x12, 0x34, 0x56, 0x0F, 0x01]
    ensures ToHex(f) == "1234560F01"
  {
    var h := ToHex(f);
    assert h[0] == '1' && h[1] == '2' by { ToHexAt(f, 0); }
    assert h[2] == '3' && h[3] == '4' by { ToHexAt(f, 1); }
    assert h[4] == '5' && h[5] == '6' by { ToHexAt(f, 2); }
    assert h[6] == '0' && h[7] == 'F' by { ToHexAt(f, 3); }
    assert h[8] == '0' && h[9] == '1' by { ToHexAt(f, 4); }
  }

  /** The hex text of that whole creation frame. */
  lemma CreateFrameHex(f: seq<byte>)
    requires f == [0x90, 0xCA, 0, 0, 5, 0x12, 0x34, 0x56, 0x0F, 0x01]
    ensures ToHex(f) == "90CA0000051234560F01"
  {
    assert f == f[..5] + f[5..];
    ToHexAppend(f[..5], f[5..]);
    CreateHeaderHex(f[..5]);
    CreateDataHex(f[5..]);
    assert "90CA000005" + "1234560F01" == "90CA0000051234560F01";
  }

  /** The hex text of the frame creating application 12 34 56 with key
      settings 0F and one key. */
  lemma CreateApplicationText(aid: seq<byte>, keySettings: sbyte, numberOfKeys: sbyte)
    requires aid == [0x12, 0x34, 0x56] && keySettings == 0x0F && numberOfKeys == 0x01
    ensures ApduService.CreateApplication(aid, keySettings, numberOfKeys) == Returned("90CA0000051234560F01")
  {
    var f := CreateApplicationFrame(aid, keySettings, numberOfKeys);
    CreateFrameHex(f);
    assert ApduService.HexOf(f) == ToHex(f);
  }

  /** The dispatcher's answer to "GET_VERSION" without arguments. */
  lemma BuildGetVersion()
    ensures Build("GET_VERSION", []) == Some(Returned("9060000000"))
  {
    ApduService.GetVersionText();
  }

  /** The dispatcher's answer to "CREATE_APPLICATION" for AID 12 34 56, key
      settings 0F and one key. */
  lemma BuildCreateApplication(params: seq<Param>)
    requires params == [Bytes([0x12, 0x34, 0x56]), AByte(0x0F), AByte(0x01)]
    ensures Build("CREATE_APPLICATION", params) == Some(Returned("90CA0000051234560F01"))
  {
    CreateApplicationText(params[0].bytes, params[1].b, params[2].b);
  }

  // ---------------------------------------------------------------------
  // The object

  class DesfireCompleteService {
    /** The inherited `DESFireEV1` part: the connection and the session. */
    const card: Ev1.DesfireEV1
    /** The builders `getApduString` dispatches to. */
    const apduService: ApduService.DesfireApduService

    ghost predicate Valid()
      reads this, apduService
    {
      apduService.Valid()
    }

    /** A service on a connection: a fresh `DESFireEV1` session and a fresh
      builder. */
    constructor(link: Link)
      ensures Valid() && fresh(card) && fresh(apduService)
      ensures card.link == link && card.Fields() == Ev1.Session(None, -1, [0, 0, 0], None, None, -1, None, 0)
      ensures apduService.Fields() == ApduService.ApduState(None, -1, [0, 0, 0], false)
    {
      card := new Ev1.DesfireEV1(link);
      apduService := new ApduService.DesfireApduService();
    }

    // -------------------------------------------------------------------
    // Direct commands

    /** A direct command answered by a status only. */
    method Status(frame: seq<byte>) returns (ok: bool)
      modifies card
      ensures (ok, card.link) == StatusExchange(frame, old(card.link))
      ensures card.Fields() == old(card.Fields())
    {
      var response := card.TransmitRaw(frame);
      ok := response.Returned? && Succeeded(response.value);
    }

    /** A direct query: the reply without its `91 00`, or null. */
    method Query(frame: seq<byte>) returns (r: Option<seq<byte>>)
      modifies card
      ensures (r, card.link) == QueryExchange(frame, old(card.link))
      ensures card.Fields() == old(card.Fields())
    {
      var response := card.TransmitRaw(frame);
      if response.Raised? || !Succeeded(response.value) {
        return None;
      }
      var n := |response.value|;
      r := Some(response.value[..n - 2]);
    }

    /** `changeKey`. */
    method ChangeKey(keyNo: sbyte, keyVersion: sbyte, t: KeyType, newKey: Option<seq<byte>>, currentKey: Option<seq<byte>>)
      returns (ok: bool)
      modifies card
      ensures (ok, card.link) == ChangeKeyExchange(keyNo, keyVersion, t, newKey, old(card.link))
      ensures card.Fields() == old(card.Fields())
    {
      if newKey.None? || |newKey.value| < KeyLength(t) {
        return false;
      }
      ok := Status(ChangeKeyFrame(keyNo, keyVersion, KeyLength(t), newKey.value));
    }

    /** `getKeySettings`: `[90, 45, 00, 00, 00]`. */
    method GetKeySettings() returns (r: Option<seq<byte>>)
      modifies card
      ensures (r, card.link) == QueryExchange(NoDataFrame(0x45), old(card.link))
      ensures card.Fields() == old(card.Fields())
    {
      r := Query(NoDataFrame(0x45));
    }

    /** `changeKeySettings`: `[90, 54, 00, 00, 01, keySettings]`. */
    method ChangeKeySettings(keySettings: sbyte) returns (ok: bool)
      modifies card
      ensures (ok, card.link) == StatusExchange(OneByteFrame(0x54, keySettings), old(card.link))
      ensures card.Fields() == old(card.Fields())
    {
      ok := Status(OneByteFrame(0x54, keySettings));
    }

    /** `getFileIds`: `[90, 6F, 00, 00, 00]`. */
    method GetFileIds() returns (r: Option<seq<byte>>)
      modifies card
      ensures (r, card.link) == QueryExchange(NoDataFrame(0x6F), old(card.link))
      ensures card.Fields() == old(card.Fields())
    {
      r := Query(NoDataFrame(0x6F));
    }

    /** `getFileSettings`: `[90, F5, 00, 00, 01, fileNo]`. */
    method GetFileSettings(fileNo: sbyte) returns (r: Option<seq<byte>>)
      modifies card
      ensures (r, card.link) == QueryExchange(OneByteFrame(0xF5, fileNo), old(card.link))
      ensures card.Fields() == old(card.Fields())
    {
      r := Query(OneByteFrame(0xF5, fileNo));
    }

    /** `changeFileSettings`: only the first access-right byte is sent; a
      missing or empty access-rights array throws before anything is sent. */
    method ChangeFileSettings(fileNo: sbyte, commSettings: sbyte, accessRights: Option<seq<byte>>) returns (ok: bool)
      modifies card
      ensures accessRights.None? || accessRights.value == [] ==> !ok && card.link == old(card.link)
      ensures accessRights.Some? && accessRights.value != [] ==>
                (ok, card.link) == StatusExchange(ChangeFileSettingsFrame(fileNo, commSettings, accessRights.value[0]), old(card.link))
      ensures card.Fields() == old(card.Fields())
    {
      if accessRights.None? || accessRights.value == [] {
        return false;
      }
      ok := Status(ChangeFileSettingsFrame(fileNo, commSettings, accessRights.value[0]));
    }

    /** `deleteFile`: `[90, DF, 00, 00, 01, fileNo]`. */
    method DeleteFile(fileNo: sbyte) returns (ok: bool)
      modifies card
      ensures (ok, card.link) == StatusExchange(OneByteFrame(0xDF, fileNo), old(card.link))
      ensures card.Fields() == old(card.Fields())
    {
      ok := Status(OneByteFrame(0xDF, fileNo));
    }

    /** `createBackupDataFile`: the standard-data-file layout with INS 0xCB;
      fewer than two access-right bytes throw before anything is sent. */
    method CreateBackupDataFile(fileNo: sbyte, commSettings: sbyte, accessRights: Option<seq<byte>>, fileSize: int32)
      returns (ok: bool)
      modifies card
      ensures accessRights.None? || |accessRights.value| < 2 ==> !ok && card.link == old(card.link)
      ensures accessRights.Some? && |accessRights.value| >= 2 ==>
                (ok, card.link) == StatusExchange(FileFrame(0xCB, fileNo, commSettings, accessRights.value, fileSize), old(card.link))
      ensures card.Fields() == old(card.Fields())
    {
      if accessRights.None? || |accessRights.value| < 2 {
        return false;
      }
      ok := Status(FileFrame(0xCB, fileNo, commSettings, accessRights.value, fileSize));
    }

    /** `getCardUID`: `[90, 51, 00, 00, 00]`. */
    method GetCardUid() returns (r: Option<seq<byte>>)
      modifies card
      ensures (r, card.link) == QueryExchange(NoDataFrame(0x51), old(card.link))
      ensures card.Fields() == old(card.Fields())
    {
      r := Query(NoDataFrame(0x51));
    }

    // -------------------------------------------------------------------
    // Workflows

    /** `authenticateWithCard`: true exactly when `DESFireEV1.authenticate`
      returns a session key; whatever it throws gives false. A valid
      non-AES key has its version bits cleared in the caller's array. */
    method AuthenticateWithCard(c: BlockCipher, random: Random, keyNo: sbyte, t: KeyType, key: array?<byte>)
      returns (ok: bool)
      modifies card, key
      ensures var run := Ev1.Ev1Authenticate(c, random, if key == null then None else Some(old(key[..])), keyNo, t,
                                             old(card.link), old(card.code));
        && ok == Accepted(run) && card.link == run.link
        && card.Fields() == AfterAuthenticate(old(card.Fields()), run, keyNo, t)
      ensures key != null ==>
                key[..] == if ValidateKey(Some(old(key[..])), t) then EffectiveKey(old(key[..]), t) else old(key[..])
      ensures ok ==> card.IsAuthenticated()
    {
      var r := card.Authenticate(c, random, key, keyNo, t);
      ok := r.Returned? && r.value.Some?;
    }

    /** `initializeCard`: replace the PICC master key, authenticating with
      the all-zero default key first. */
    method InitializeCard(c: BlockCipher, random: Random, masterKey: Option<seq<byte>>, t: KeyType) returns (ok: bool)
      modifies card
      ensures var run := ReplaceDefaultKey(c, random, masterKey, t, old(card.link), old(card.Fields()));
        ok == run.value && card.link == run.link && card.Fields() == run.session
    {
      var defaultKey := new byte[KeyLength(t)](_ => 0);
      assert defaultKey[..] == Zeros(KeyLength(t));
      var authenticated := AuthenticateWithCard(c, random, 0, t, defaultKey);
      if !authenticated {
        return false;
      }
      ok := ChangeKey(0, 0, t, masterKey, Some(defaultKey[..]));
    }

    /** `createApplicationComplete`. */
    method CreateApplicationComplete(c: BlockCipher, random: Random, aid: seq<byte>, keySettings: sbyte, numberOfKeys: sbyte,
                                     masterKey: Option<seq<byte>>, t: KeyType) returns (ok: bool)
      modifies card
      ensures var run := CreateApplicationRun(c, random, aid, keySettings, numberOfKeys, masterKey, t,
                                              old(card.link), old(card.Fields()));
        ok == run.value && card.link == run.link && card.Fields() == run.session
      ensures ok ==> card.aid == aid && card.IsAuthenticated()
    {
      ghost var s := old(card.Fields());
      var created := card.CreateApplication(aid, keySettings, numberOfKeys);
      if created != Returned(true) {
        return false;
      }
      assert card.Fields() == s.(code := card.code);
      var selected := card.SelectApplication(aid);
      if selected != Returned(true) {
        return false;
      }
      assert card.Fields() == Ev1.Session(None, -1, aid, None, None, -1, None, card.code);
      // The rest is the default-key replacement of `initializeCard`, step for step.
      ok := InitializeCard(c, random, masterKey, t);
    }

    /** The select-then-authenticate start of `readFileComplete` and
      `writeFileComplete`. The caller's key array is touched only when the
      select succeeded and the key is valid. */
    method Open(c: BlockCipher, random: Random, aid: seq<byte>, keyNo: sbyte, t: KeyType, key: array?<byte>)
      returns (ok: bool)
      modifies card, key
      ensures var run := SelectAndAuthenticate(c, random, aid, keyNo, t, if key == null then None else Some(old(key[..])),
                                               old(card.link), old(card.Fields()));
        ok == run.value && card.link == run.link && card.Fields() == run.session
      ensures key != null ==>
                key[..] == if SelectSucceeds(aid, old(card.link), old(card.code)) && ValidateKey(Some(old(key[..])), t)
                           then EffectiveKey(old(key[..]), t) else old(key[..])
      ensures ok ==> card.aid == aid && card.IsAuthenticated()
    {
      var selected := card.SelectApplication(aid);
      if selected != Returned(true) {
        return false;
      }
      if !card.IsAuthenticated() {
        ok := AuthenticateWithCard(c, random, keyNo, t, key);
        if !ok {
          return false;
        }
      }
      return true;
    }

    /** `readFileComplete`. */
    method ReadFileComplete(c: BlockCipher, random: Random, aid: seq<byte>, keyNo: sbyte, t: KeyType, key: array?<byte>,
                            fileNo: sbyte, offset: int32, length: int32) returns (r: Option<seq<byte>>)
      modifies card, key
      ensures var run := ReadFileRun(c, random, aid, keyNo, t, if key == null then None else Some(old(key[..])),
                                     fileNo, offset, length, old(card.link), old(card.Fields()));
        r == run.value && card.link == run.link && card.Fields() == run.session
      ensures key != null ==>
                key[..] == if SelectSucceeds(aid, old(card.link), old(card.code)) && ValidateKey(Some(old(key[..])), t)
                           then EffectiveKey(old(key[..]), t) else old(key[..])
      ensures r.Some? ==> card.aid == aid && card.IsAuthenticated()
    {
      var started := Open(c, random, aid, keyNo, t, key);
      if !started {
        return None;
      }
      var data := card.ReadData(fileNo, offset, length);
      r := if data.Returned? then data.value else None;
    }

    /** `writeFileComplete`. */
    method WriteFileComplete(c: BlockCipher, random: Random, aid: seq<byte>, keyNo: sbyte, t: KeyType, key: array?<byte>,
                             fileNo: sbyte, offset: int32, data: seq<byte>) returns (ok: bool)
      modifies card, key
      ensures var run := WriteFileRun(c, random, aid, keyNo, t, if key == null then None else Some(old(key[..])),
                                      fileNo, offset, data, old(card.link), old(card.Fields()));
        ok == run.value && card.link == run.link && card.Fields() == run.session
      ensures key != null ==>
                key[..] == if SelectSucceeds(aid, old(card.link), old(card.code)) && ValidateKey(Some(old(key[..])), t)
                           then EffectiveKey(old(key[..]), t) else old(key[..])
      ensures ok ==> card.aid == aid && card.IsAuthenticated()
    {
      var started := Open(c, random, aid, keyNo, t, key);
      if !started {
        return false;
      }
      var written := card.WriteData(fileNo, offset, data);
      ok := written == Returned(true);
    }

    /** `getVersionComplete`: the chained get-version read, reported as
      text; only the connection and the status code change. */
    method GetVersionComplete() returns (r: VersionText)
      modifies card
      ensures var run := Ev1.ReadChain(NoDataFrame(0x60), old(card.link), old(card.code));
        r == VersionReport(run.result) && card.link == run.link && card.Fields() == old(card.Fields()).(code := run.code)
    {
      var data := card.GetVersion();
      if data.Raised? {
        return Message(VersionError + data.reason);
      }
      if data.value.None? {
        return Message(VersionFailed);
      }
      r := ParseVersionData(data.value);
    }

    // -------------------------------------------------------------------
    // Hex frames by name

    /** The "SELECT_APPLICATION" branch of `getApduString`. */
    method SelectByName(params: seq<Param>) returns (r: Outcome<string>)
      requires Valid()
      modifies apduService
      ensures Valid()
      ensures SelectedByName(params, r, old(apduService.Fields()), apduService.Fields())
    {
      var aid := BytesParam(params, 0);
      if aid.Raised? {
        return Raised(aid.reason);
      }
      if aid.value.None? {
        return Raised(NullPointer);
      }
      r := apduService.SelectApplication(aid.value.value);
    }

    /** The "AUTHENTICATE" branch of `getApduString`. */
    method AuthenticateByName(params: seq<Param>) returns (r: Outcome<string>)
      requires Valid()
      modifies apduService
      ensures Valid()
      ensures AuthenticatedByName(params, r, old(apduService.Fields()), apduService.Fields())
    {
      var keyNo := ByteParam(params, 0);
      if keyNo.Raised? {
        return Raised(keyNo.reason);
      }
      var t := KeyTypeParam(params, 1);
      if t.Raised? {
        return Raised(t.reason);
      }
      var frame := apduService.Authenticate(keyNo.value, t.value);
      return Returned(frame);
    }

    /** `getApduString`: the name is upper-cased and dispatched to the
      builder of that name; "SELECT_APPLICATION" and "AUTHENTICATE" update
      the builder's state as they do when called directly; any other name
      throws "Unknown command: " followed by the name as given. */
    method GetApduString(command: string, params: seq<Param>) returns (r: Outcome<string>)
      requires Valid()
      modifies apduService
      ensures Valid()
      ensures UpperString(command) in StatelessNames ==>
                r == Build(UpperString(command), params).value && apduService.Fields() == old(apduService.Fields())
      ensures UpperString(command) == "SELECT_APPLICATION" ==>
                SelectedByName(params, r, old(apduService.Fields()), apduService.Fields())
      ensures UpperString(command) == "AUTHENTICATE" ==>
                AuthenticatedByName(params, r, old(apduService.Fields()), apduService.Fields())
      ensures UpperString(command) !in StatelessNames && UpperString(command) != "SELECT_APPLICATION"
              && UpperString(command) != "AUTHENTICATE" ==>
                r == Raised(UnknownCommand + command) && apduService.Fields() == old(apduService.Fields())
    {
      var name := UpperString(command);
      StatefulNamesApart();
      if name in StatelessNames {
        return Build(name, params).value;
      }
      if name == "SELECT_APPLICATION" {
        r := SelectByName(params);
      } else if name == "AUTHENTICATE" {
        r := AuthenticateByName(params);
      } else {
        r := Raised(UnknownCommand + command);
      }
    }
  }

  /** What "SELECT_APPLICATION" does to the builder: a missing or mistyped
      argument throws the cast's exception and a null AID a null-pointer
      exception, both before any field changes; otherwise the builder's
      `selectApplication` runs on the AID. */
  predicate SelectedByName(params: seq<Param>, r: Outcome<string>, before: ApduService.ApduState, after: ApduService.ApduState) {
    match BytesParam(params, 0)
    case Raised(e) => r == Raised(e) && after == before
    case Returned(None) => r == Raised(NullPointer) && after == before
    case Returned(Some(aid)) =>
      && (r.Raised? <==> |aid| != 3)
      && (r.Raised? ==> r == Raised(ApduService.AidLengthError) && after == before)
      && (r.Returned? ==> Encodes(r.value, AidFrame(0x5A, aid)) && after == ApduService.ApduState(None, -1, aid, false))
  }

  /** What "AUTHENTICATE" does to the builder: the key number and then the
      key type are cast, either failure throwing before any field changes;
      otherwise both are recorded and the step-1 frame returned. */
  predicate AuthenticatedByName(params: seq<Param>, r: Outcome<string>, before: ApduService.ApduState, after: ApduService.ApduState) {
    var keyNo := ByteParam(params, 0);
    var t := KeyTypeParam(params, 1);
    if keyNo.Raised? then r == Raised(keyNo.reason) && after == before
    else if t.Raised? then r == Raised(t.reason) && after == before
    else
      r.Returned? && Encodes(r.value, AuthFrame(t.value, keyNo.value))
      && after == before.(keyType := Some(t.value), keyNo := keyNo.value)
  }
}
