/** `DESFireEV1`: the card-facing implementation. It sends frames over the
    connection, follows 0xAF response chaining, runs the mutual
    authentication in one call and remembers the key, IV and session key of
    the last successful authentication. Only SW2 of a reply is ever looked
    at. */
module Ev1 {
  import opened Bytes
  import opened Wrappers
  import opened Iso7816
  import opened Keys
  import opened Cipher
  import opened Frames
  import opened SessionKeys
  import opened Transport

  const AidLengthError: string := "AID must be 3 bytes"

  /** The status codes `DESFireEV1` tests SW2 against. */
  const OperationOk: byte := 0x00
  const AdditionalFrame: byte := 0xAF

  /** What a command does: what it returned or threw, the connection
      afterwards, and the last status code it recorded (`code`). */
  datatype Run<+T> = Run(result: Outcome<T>, link: Link, code: int)

  // ---------------------------------------------------------------------
  // Chained reads (`readDataFromCard`)

  /** The data collected before a chained read's remaining run. */
  function Prepend(p: seq<byte>, run: Run<Option<seq<byte>>>): Run<Option<seq<byte>>> {
    if run.result.Returned? && run.result.value.Some? then
      run.(result := Returned(Some(p + run.result.value.value)))
    else run
  }

  /** A chained read from the reply `r` on: 0xAF keeps its data and asks for
      the next frame, 0x00 ends with its data, any other status gives null. */
  function Handle(r: Reply, link: Link): Run<Option<seq<byte>>>
    decreases |link.replies|, 1
  {
    if r.sw2 == AdditionalFrame then Prepend(r.data, ReadChain(MoreFrame, link, r.sw2))
    else if r.sw2 == OperationOk then Run(Returned(Some(r.data)), link, r.sw2)
    else Run(Returned(None), link, r.sw2)
  }

  /** A chained read that starts by sending `frame`; `code` is the status
      recorded before it. Each step uses up one reply, so the read ends
      with the replies, whatever the card sends. */
  function ReadChain(frame: seq<byte>, link: Link, code: int): Run<Option<seq<byte>>>
    decreases |link.replies|, 0
  {
    var (res, next) := Transmit(frame, link);
    if res.Raised? then Run(Raised(res.reason), next, code)
    else Handle(res.value, next)
  }

  lemma PrependPrepend(a: seq<byte>, b: seq<byte>, run: Run<Option<seq<byte>>>)
    ensures Prepend(a, Prepend(b, run)) == Prepend(a + b, run)
  {
    if run.result.Returned? && run.result.value.Some? {
      assert a + (b + run.result.value.value) == (a + b) + run.result.value.value;
    }
  }

  /** A chained read that returns data ended on status 0x00; one that
      returns null ended on a status other than 0x00 and 0xAF; and it never
      gives back replies. */
  lemma {:induction false} ReadChainStatus(frame: seq<byte>, link: Link, code: int)
    ensures var run := ReadChain(frame, link, code);
      && (run.result.Returned? && run.result.value.Some? ==> run.code == 0)
      && (run.result.Returned? && run.result.value.None? ==> run.code != 0 && run.code != 0xAF)
      && |run.link.replies| <= |link.replies|
    decreases |link.replies|
  {
    var (res, next) := Transmit(frame, link);
    if res.Returned? && res.value.sw2 == AdditionalFrame {
      ReadChainStatus(MoreFrame, next, res.value.sw2);
    }
  }

  /** The card's replies to a chained read: a 0xAF reply for each element
      of `payloads`, then `last` with status `sw2`. */
  function ChainScript(payloads: seq<seq<byte>>, last: seq<byte>, sw1: byte, sw2: byte): (s: seq<seq<byte>>)
    ensures |s| == |payloads| + 1
  {
    if payloads == [] then [RawReply(last, sw1, sw2)]
    else [RawReply(payloads[0], sw1, AdditionalFrame)] + ChainScript(payloads[1..], last, sw1, sw2)
  }

  /** The payloads one after the other. */
  function Concat(payloads: seq<seq<byte>>): seq<byte> {
    if payloads == [] then [] else payloads[0] + Concat(payloads[1..])
  }

  /** `n` continue frames. */
  function MoreFrames(n: nat): (s: seq<seq<byte>>)
    ensures |s| == n && forall i :: 0 <= i < n ==> s[i] == MoreFrame
  {
    seq(n, _ => MoreFrame)
  }

  /** A chained read against a card that sends `payloads` with 0xAF and then
      `last` with a final status other than 0xAF: it sends the command and
      one continue frame per 0xAF reply, records the final status, and
      returns every payload in order followed by `last` when the final
      status is 0x00, or null otherwise. */
  lemma {:induction false} ReadChainCollects(frame: seq<byte>, payloads: seq<seq<byte>>, last: seq<byte>, sw1: byte, sw2: byte,
                                             rest: seq<seq<byte>>, sent: seq<seq<byte>>, code: int)
    requires Decode(frame).Some? && sw2 != AdditionalFrame
    ensures ReadChain(frame, Link(ChainScript(payloads, last, sw1, sw2) + rest, sent), code)
            == Run(if sw2 == OperationOk then Returned(Some(Concat(payloads) + last)) else Returned(None),
                   Link(rest, sent + [frame] + MoreFrames(|payloads|)), sw2)
    decreases |payloads|
  {
    if payloads == [] {
      TransmitReadsReply(frame, last, sw1, sw2, rest, sent);
      assert [RawReply(last, sw1, sw2)] + rest == ChainScript(payloads, last, sw1, sw2) + rest;
      assert sent + [frame] + MoreFrames(0) == sent + [frame];
      assert Concat(payloads) + last == last;
    } else {
      var tail := ChainScript(payloads[1..], last, sw1, sw2) + rest;
      assert ChainScript(payloads, last, sw1, sw2) + rest == [RawReply(payloads[0], sw1, AdditionalFrame)] + tail;
      TransmitReadsReply(frame, payloads[0], sw1, AdditionalFrame, tail, sent);
      ReadChainCollects(MoreFrame, payloads[1..], last, sw1, sw2, rest, sent + [frame], AdditionalFrame);
      assert sent + [frame] + [MoreFrame] + MoreFrames(|payloads| - 1) == sent + [frame] + MoreFrames(|payloads|);
      if sw2 == OperationOk {
        assert payloads[0] + (Concat(payloads[1..]) + last) == Concat(payloads) + last;
      }
    }
  }

  /** A card that keeps answering 0xAF until it has nothing more to say
      leaves the chained read with no reply to read: the transport fails. */
  lemma {:induction false} ReadChainExhausts(frame: seq<byte>, payloads: seq<seq<byte>>, sw1: byte, sent: seq<seq<byte>>, code: int)
    requires Decode(frame).Some?
    ensures ReadChain(frame, Link(seq(|payloads|, i requires 0 <= i < |payloads| => RawReply(payloads[i], sw1, AdditionalFrame)), sent), code).result
            == Raised(TransportFailure)
    decreases |payloads|
  {
    var script := seq(|payloads|, i requires 0 <= i < |payloads| => RawReply(payloads[i], sw1, AdditionalFrame));
    if payloads != [] {
      var tail := seq(|payloads| - 1, i requires 0 <= i < |payloads| - 1 => RawReply(payloads[1..][i], sw1, AdditionalFrame));
      assert script == [RawReply(payloads[0], sw1, AdditionalFrame)] + tail;
      TransmitReadsReply(frame, payloads[0], sw1, AdditionalFrame, tail, sent);
      ReadChainExhausts(MoreFrame, payloads[1..], sw1, sent + [frame], AdditionalFrame);
    }
  }

  // ---------------------------------------------------------------------
  // Single-frame commands

  /** A command answered by one reply whose SW2 decides success. */
  function StatusCommand(frame: seq<byte>, link: Link, code: int): (run: Run<bool>)
    ensures run.result.Returned? ==> (run.result.value <==> run.code == 0)
    ensures Decode(frame).None? ==> run == Run(Raised(InvalidCommandApdu), link, code)
    ensures run.result.Returned? ==>
              Decode(frame).Some? && link.replies != [] && run.link == Link(link.replies[1..], link.sent + [frame])
  {
    var (res, next) := Transmit(frame, link);
    if res.Raised? then Run(Raised(res.reason), next, code)
    else Run(Returned(res.value.sw2 == OperationOk), next, res.value.sw2)
  }

  /** `getFreeMemory`: on status 0x00 with at least three data bytes, the
      little-endian value of the first three; -1 otherwise. */
  function FreeMemoryRun(link: Link, code: int): (run: Run<int>)
    ensures run.result.Returned? ==> -1 <= run.result.value < 0x100_0000
    ensures run.result.Returned? && run.result.value >= 0 ==> run.code == 0
  {
    var (res, next) := Transmit(NoDataFrame(0x6E), link);
    if res.Raised? then Run(Raised(res.reason), next, code)
    else
      var r := res.value;
      Run(Returned(if r.sw2 == OperationOk && |r.data| >= 3 then Le3Value(r.data[..3]) else -1), next, r.sw2)
  }

  /** A card reporting n free bytes as three little-endian bytes is read
      back as n. */
  lemma FreeMemoryRoundTrip(n: int, extra: seq<byte>, sw1: byte, rest: seq<seq<byte>>, sent: seq<seq<byte>>, code: int)
    requires 0 <= n < 0x100_0000
    ensures FreeMemoryRun(Link([RawReply(Le3(n) + extra, sw1, 0)] + rest, sent), code)
            == Run(Returned(n), Link(rest, sent + [NoDataFrame(0x6E)]), 0)
  {
    TransmitReadsReply(NoDataFrame(0x6E), Le3(n) + extra, sw1, 0, rest, sent);
    assert (Le3(n) + extra)[..3] == Le3(n);
    Le3RoundTrip(n);
  }

  // ---------------------------------------------------------------------
  // Mutual authentication (`authenticate`)

  /** The loop that checks the card's answer against rotate(A): it runs
      over rotate(A) only, so an answer that starts with rotate(A) passes
      whatever follows, and one that stops early runs off its end. */
  function Compare(got: seq<byte>, want: seq<byte>): (r: Outcome<bool>)
    ensures r == Returned(true) <==> |want| <= |got| && got[..|want|] == want
    ensures r.Raised? <==> |got| < |want| && got == want[..|got|]
    ensures r.Raised? ==> r.reason == IndexOutOfBounds
    decreases |want|
  {
    if want == [] then Returned(true)
    else if got == [] then Raised(IndexOutOfBounds)
    else if got[0] != want[0] then Returned(false)
    else
      var r := Compare(got[1..], want[1..]);
      assert |want| <= |got| && got[1..][..|want| - 1] == want[1..] ==> got[..|want|] == want by {
        if |want| <= |got| && got[1..][..|want| - 1] == want[1..] {
          assert got[..|want|] == [got[0]] + got[1..][..|want| - 1];
          assert want == [want[0]] + want[1..];
        }
      }
      assert |got| < |want| && got[1..] == want[1..][..|got| - 1] ==> got == want[..|got|] by {
        if |got| < |want| && got[1..] == want[1..][..|got| - 1] {
          assert got == [got[0]] + got[1..];
          assert want[..|got|] == [want[0]] + want[1..][..|got| - 1];
        }
      }
      r
  }

  /** The card's proof, decrypted with the last block of the host's
      cryptogram as IV, starts with A rotated left by one byte. */
  predicate ProofMatches(c: BlockCipher, key: seq<byte>, t: KeyType, randA: seq<byte>, ct: seq<byte>, answer: seq<byte>) {
    |ct| >= BlockLength(t)
    && var back := Decrypt(c, t, Some(ct[|ct| - BlockLength(t)..]), key, answer);
       back.Some? && |randA| <= |back.value| && back.value[..|randA|] == RotateLeft(randA)
  }

  /** What the host checked before it accepted a handshake against the
      card's challenge and proof: B is the challenge decrypted under the
      zero IV, A is drawn with as many bytes, the second frame carries
      A + rotate(B) encrypted with the last block of the challenge as IV,
      the proof matches A, and the key is the one cut from A and B. */
  predicate HostAccepts(c: BlockCipher, random: Random, key: seq<byte>, t: KeyType, challenge: seq<byte>,
                        frame: seq<byte>, proof: seq<byte>, sessionKey: Option<seq<byte>>) {
    var randB := Decrypt(c, t, Some(Zeros(BlockLength(t))), key, challenge);
    && randB.Some? && |challenge| >= BlockLength(t)
    && var randA := random(|randB.value|);
       var ct := Encrypt(c, t, Some(challenge[|challenge| - BlockLength(t)..]), key, randA + RotateLeft(randB.value));
       && ct.Some?
       && frame == DataFrameLe(AdditionalFrame, ct.value)
       && ProofMatches(c, key, t, randA, ct.value, proof)
       && sessionKey == Ev1SessionKey(randA, randB.value, t)
  }

  /** The end of the handshake, after the card answered the second frame
      with 0x00: the answer is decrypted with the last block of the host's
      own cryptogram as IV and compared with rotate(A); then the session
      key is cut from A and B. */
  function AuthConfirm(c: BlockCipher, key: seq<byte>, t: KeyType, randA: seq<byte>, randB: seq<byte>, ct: seq<byte>,
                       answer: seq<byte>): (r: Outcome<Option<seq<byte>>>)
    ensures r.Returned? && r.value.Some? ==> Ev1SessionKey(randA, randB, t) == r.value
  {
    var blk := BlockLength(t);
    if |ct| < blk then Raised(IndexOutOfBounds)
    else
      var back := Decrypt(c, t, Some(ct[|ct| - blk..]), key, answer);
      if back.None? then Returned(None)
      else
        match Compare(back.value, RotateLeft(randA))
        case Raised(e) => Raised(e)
        case Returned(same) =>
          if !same then Returned(None)
          else
            var sk := Ev1SessionKey(randA, randB, t);
            if sk.None? then Raised(IndexOutOfBounds) else Returned(sk)
  }

  /** The final check accepts exactly when the decrypted proof starts with
      A rotated left and the session key can be cut from A and B. */
  lemma AuthConfirmAccepts(c: BlockCipher, key: seq<byte>, t: KeyType, randA: seq<byte>, randB: seq<byte>, ct: seq<byte>,
                           answer: seq<byte>)
    ensures var r := AuthConfirm(c, key, t, randA, randB, ct, answer);
      r.Returned? && r.value.Some? <==> ProofMatches(c, key, t, randA, ct, answer) && Ev1SessionKey(randA, randB, t).Some?
  {
  }

  /** What the host sends in the handshake's second frame. */
  datatype HostAnswer = HostAnswer(randA: seq<byte>, randB: seq<byte>, ct: seq<byte>)

  /** Steps 3 of the handshake, after the card answered the first frame with
      0xAF and its challenge: B is decrypted under the zero IV, A is drawn,
      A + rotate(B) is encrypted with the last block of the challenge as
      IV. None when a cipher call fails; a challenge shorter than a block
      throws. */
  function Answer(c: BlockCipher, random: Random, key: seq<byte>, t: KeyType, challenge: seq<byte>)
    : (r: Outcome<Option<HostAnswer>>)
    ensures r.Raised? ==> r.reason == IndexOutOfBounds && |challenge| < BlockLength(t)
    ensures r.Returned? && r.value.Some? ==>
              var h := r.value.value;
              && Decrypt(c, t, Some(Zeros(BlockLength(t))), key, challenge) == Some(h.randB)
              && h.randA == random(|h.randB|)
              && |challenge| >= BlockLength(t)
              && Encrypt(c, t, Some(challenge[|challenge| - BlockLength(t)..]), key, h.randA + RotateLeft(h.randB)) == Some(h.ct)
  {
    var blk := BlockLength(t);
    var b := Decrypt(c, t, Some(Zeros(blk)), key, challenge);
    if b.None? then Returned(None)
    else
      var a := random(|b.value|);
      if |challenge| < blk then Raised(IndexOutOfBounds)
      else
        var ct := Encrypt(c, t, Some(challenge[|challenge| - blk..]), key, a + RotateLeft(b.value));
        if ct.None? then Returned(None) else Returned(Some(HostAnswer(a, b.value, ct.value)))
  }

  /** The second exchange: the host's cryptogram sent as
      `[90, AF, 00, 00, Lc, ct, 00]`; a 0x00 reply carries the card's proof. */
  function SecondExchange(c: BlockCipher, key: seq<byte>, t: KeyType, h: HostAnswer, link: Link): Run<Option<seq<byte>>>
  {
    var (res, next) := Transmit(DataFrameLe(AdditionalFrame, h.ct), link);
    if res.Raised? then Run(Raised(res.reason), next, AdditionalFrame)
    else if res.value.sw2 != OperationOk then Run(Returned(None), next, res.value.sw2)
    else Run(AuthConfirm(c, key, t, h.randA, h.randB, h.ct, res.value.data), next, 0)
  }

  /** The middle and end of the handshake, from the card's challenge on. */
  function AuthRespond(c: BlockCipher, random: Random, key: seq<byte>, t: KeyType, challenge: seq<byte>, link: Link)
    : (run: Run<Option<seq<byte>>>)
    ensures run.result.Returned? && run.result.value.Some? ==>
              run.code == 0 && |link.replies| >= 1 && run.link.replies == link.replies[1..]
              && |run.link.sent| == |link.sent| + 1 && run.link.sent[..|link.sent|] == link.sent
  {
    match Answer(c, random, key, t, challenge)
    case Raised(e) => Run(Raised(e), link, AdditionalFrame)
    case Returned(None) => Run(Returned(None), link, AdditionalFrame)
    case Returned(Some(h)) => SecondExchange(c, key, t, h, link)
  }

  /** A run from the challenge on returns a key only when the host's
      checks passed on the card's proof, and then returns the key of A and
      B. */
  lemma AuthRespondAccepts(c: BlockCipher, random: Random, key: seq<byte>, t: KeyType, challenge: seq<byte>, link: Link)
    requires var run := AuthRespond(c, random, key, t, challenge, link);
             run.result.Returned? && run.result.value.Some?
    ensures var run := AuthRespond(c, random, key, t, challenge, link);
      && |link.replies| >= 1 && |run.link.sent| == |link.sent| + 1
      && HostAccepts(c, random, key, t, challenge, run.link.sent[|link.sent|], ReplyData(link.replies[0]), run.result.value)
  {
    var h := Answer(c, random, key, t, challenge).value.value;
    var (res, next) := Transmit(DataFrameLe(AdditionalFrame, h.ct), link);
    assert res.value.data == ReplyData(link.replies[0]);
    AuthConfirmAccepts(c, key, t, h.randA, h.randB, h.ct, res.value.data);
  }

  /** `authenticate` as a whole, for the key the caller passes: an invalid
      key returns null at once; otherwise the key with its version bits
      cleared drives the step-1 exchange and the rest of the handshake. */
  function Ev1Authenticate(c: BlockCipher, random: Random, key: Option<seq<byte>>, keyNo: sbyte, t: KeyType, link: Link, code: int)
    : (run: Run<Option<seq<byte>>>)
    ensures !ValidateKey(key, t) ==> run == Run(Returned(None), link, code)
  {
    if !ValidateKey(key, t) then Run(Returned(None), link, code)
    else Handshake(c, random, EffectiveKey(key.value, t), keyNo, t, link, code)
  }

  /** The handshake with an already validated key: the step-1 frame, which
      the card must answer with 0xAF and its challenge, then the rest. */
  function Handshake(c: BlockCipher, random: Random, key: seq<byte>, keyNo: sbyte, t: KeyType, link: Link, code: int)
    : Run<Option<seq<byte>>>
  {
    var (res, next) := Transmit(AuthFrame(t, keyNo), link);
    if res.Raised? then Run(Raised(res.reason), next, code)
    else if res.value.sw2 != AdditionalFrame then Run(Returned(None), next, res.value.sw2)
    else AuthRespond(c, random, key, t, res.value.data, next)
  }

  /** A successful authentication sent exactly two frames, the first the
      step-1 frame, used up two replies, ended on status 0x00, and returned
      a session key as long as the key type's keys. */
  lemma Ev1AuthenticateSuccess(c: BlockCipher, random: Random, key: Option<seq<byte>>, keyNo: sbyte, t: KeyType, link: Link, code: int)
    requires var run := Ev1Authenticate(c, random, key, keyNo, t, link, code);
             run.result.Returned? && run.result.value.Some?
    ensures var run := Ev1Authenticate(c, random, key, keyNo, t, link, code);
      && run.code == 0 && |link.replies| >= 2 && run.link.replies == link.replies[2..]
      && |run.link.sent| == |link.sent| + 2 && run.link.sent[..|link.sent|] == link.sent
      && run.link.sent[|link.sent|] == AuthFrame(t, keyNo)
      && |run.result.value.value| == KeyLength(t)
  {
    var (res, next) := Transmit(AuthFrame(t, keyNo), link);
    var run := AuthRespond(c, random, EffectiveKey(key.value, t), t, res.value.data, next);
    assert run.link.sent[..|link.sent| + 1] == next.sent;
  }

  /** A successful authentication passed every check of the host: the key
      was valid, B is the card's challenge decrypted under the zero IV with
      the version-cleared key, the second frame carried A + rotate(B)
      encrypted, the card's proof decrypted to rotate(A) at its start, and
      the key returned is the one cut from A and B. */
  lemma Ev1AuthenticateAccepts(c: BlockCipher, random: Random, key: Option<seq<byte>>, keyNo: sbyte, t: KeyType, link: Link, code: int)
    requires var run := Ev1Authenticate(c, random, key, keyNo, t, link, code);
             run.result.Returned? && run.result.value.Some?
    ensures ValidateKey(key, t) && |link.replies| >= 2
    ensures var run := Ev1Authenticate(c, random, key, keyNo, t, link, code);
      && |run.link.sent| == |link.sent| + 2
      && HostAccepts(c, random, EffectiveKey(key.value, t), t, ReplyData(link.replies[0]), run.link.sent[|link.sent| + 1],
                     ReplyData(link.replies[1]), run.result.value)
  {
    var (res, next) := Transmit(AuthFrame(t, keyNo), link);
    var run := AuthRespond(c, random, EffectiveKey(key.value, t), t, res.value.data, next);
    assert Ev1Authenticate(c, random, key, keyNo, t, link, code) == run;
    assert res.value.data == ReplyData(link.replies[0]);
    assert next.replies[0] == link.replies[1];
    AuthRespondAccepts(c, random, EffectiveKey(key.value, t), t, res.value.data, next);
  }

  /** The card's two replies when it holds the same key and follows the
      protocol with B as its random number: B encrypted under the zero IV
      with status 0xAF, then rotate(A) encrypted with the last block of the
      host's cryptogram as IV, with status 0x00. None when a cipher call
      fails or a cryptogram is shorter than a block. */
  function HonestCard(c: BlockCipher, random: Random, key: seq<byte>, t: KeyType, randB: seq<byte>, sw1: byte)
    : Option<seq<seq<byte>>>
  {
    var blk := BlockLength(t);
    var challenge := Encrypt(c, t, Some(Zeros(blk)), key, randB);
    if challenge.None? || |challenge.value| < blk then None
    else
      var a := random(|randB|);
      var ct := Encrypt(c, t, Some(challenge.value[|challenge.value| - blk..]), key, a + RotateLeft(randB));
      if ct.None? || |ct.value| < blk || |ct.value| > 0xFF then None
      else
        var answer := Encrypt(c, t, Some(ct.value[|ct.value| - blk..]), key, RotateLeft(a));
        if answer.None? then None
        else Some([RawReply(challenge.value, sw1, AdditionalFrame), RawReply(answer.value, sw1, OperationOk)])
  }

  /** The host's side of step 3 against a card that encrypted B under the
      zero IV: B is recovered and the host's cryptogram is A + rotate(B)
      under the challenge's last block. */
  lemma HonestAnswer(c: BlockCipher, random: Random, key: seq<byte>, t: KeyType, randB: seq<byte>, challenge: seq<byte>, ct: seq<byte>)
    requires CbcInverse(c)
    requires Encrypt(c, t, Some(Zeros(BlockLength(t))), key, randB) == Some(challenge)
    requires |challenge| >= BlockLength(t)
    requires Encrypt(c, t, Some(challenge[|challenge| - BlockLength(t)..]), key, random(|randB|) + RotateLeft(randB)) == Some(ct)
    ensures Answer(c, random, key, t, challenge) == Returned(Some(HostAnswer(random(|randB|), randB, ct)))
  {
    EncryptDecrypt(c, t, Some(Zeros(BlockLength(t))), key, randB);
  }

  /** The host's check of a card that encrypted rotate(A) under the last
      block of the host's cryptogram passes, and the session key is cut. */
  lemma HonestConfirm(c: BlockCipher, key: seq<byte>, t: KeyType, randA: seq<byte>, randB: seq<byte>, ct: seq<byte>, answer: seq<byte>)
    requires CbcInverse(c)
    requires |randA| >= Ev1Span(t) && |randB| >= Ev1Span(t) && |ct| >= BlockLength(t)
    requires Encrypt(c, t, Some(ct[|ct| - BlockLength(t)..]), key, RotateLeft(randA)) == Some(answer)
    ensures AuthConfirm(c, key, t, randA, randB, ct, answer) == Returned(Ev1SessionKey(randA, randB, t))
  {
    EncryptDecrypt(c, t, Some(ct[|ct| - BlockLength(t)..]), key, RotateLeft(randA));
    assert Compare(RotateLeft(randA), RotateLeft(randA)) == Returned(true) by {
      assert RotateLeft(randA)[..|RotateLeft(randA)|] == RotateLeft(randA);
    }
  }

  /** The second exchange with a card that answers 0x00 hands its proof to
      the check. */
  lemma HonestSecondExchange(c: BlockCipher, key: seq<byte>, t: KeyType, h: HostAnswer, answer: seq<byte>, sw1: byte,
                             rest: seq<seq<byte>>, sent: seq<seq<byte>>)
    requires 0 < |h.ct| <= 0xFF
    ensures SecondExchange(c, key, t, h, Link([RawReply(answer, sw1, OperationOk)] + rest, sent))
            == Run(AuthConfirm(c, key, t, h.randA, h.randB, h.ct, answer),
                   Link(rest, sent + [DataFrameLe(AdditionalFrame, h.ct)]), 0)
  {
    DataFrameLeParses(AdditionalFrame, h.ct);
    TransmitReadsReply(DataFrameLe(AdditionalFrame, h.ct), answer, sw1, OperationOk, rest, sent);
  }

  /** After an honest card's challenge, the rest of the handshake against
      its proof succeeds with the session key cut from A and B, using up
      just that proof. */
  lemma HonestRespond(c: BlockCipher, random: Random, k: seq<byte>, t: KeyType, randB: seq<byte>, challenge: seq<byte>,
                      ct: seq<byte>, answer: seq<byte>, sw1: byte, rest: seq<seq<byte>>, sent: seq<seq<byte>>)
    requires CbcInverse(c) && |randB| >= Ev1Span(t)
    requires Encrypt(c, t, Some(Zeros(BlockLength(t))), k, randB) == Some(challenge) && |challenge| >= BlockLength(t)
    requires Encrypt(c, t, Some(challenge[|challenge| - BlockLength(t)..]), k, random(|randB|) + RotateLeft(randB)) == Some(ct)
    requires BlockLength(t) <= |ct| <= 0xFF
    requires Encrypt(c, t, Some(ct[|ct| - BlockLength(t)..]), k, RotateLeft(random(|randB|))) == Some(answer)
    ensures var run := AuthRespond(c, random, k, t, challenge, Link([RawReply(answer, sw1, OperationOk)] + rest, sent));
      run.result == Returned(Ev1SessionKey(random(|randB|), randB, t)) && run.code == 0 && run.link.replies == rest
  {
    var a := random(|randB|);
    HonestAnswer(c, random, k, t, randB, challenge, ct);
    var h := HostAnswer(a, randB, ct);
    HonestSecondExchange(c, k, t, h, answer, sw1, rest, sent);
    HonestConfirm(c, k, t, a, randB, ct, answer);
  }

  /** Against such a card, with B long enough for the key type's session
      key, the handshake succeeds and returns the session key cut from A
      and B. */
  lemma HonestCardAuthenticates(c: BlockCipher, random: Random, key: seq<byte>, keyNo: sbyte, t: KeyType, randB: seq<byte>,
                                sw1: byte, rest: seq<seq<byte>>, sent: seq<seq<byte>>, code: int)
    requires CbcInverse(c) && ValidateKey(Some(key), t)
    requires |randB| >= Ev1Span(t)
    requires HonestCard(c, random, EffectiveKey(key, t), t, randB, sw1).Some?
    ensures var run := Ev1Authenticate(c, random, Some(key), keyNo, t,
                                       Link(HonestCard(c, random, EffectiveKey(key, t), t, randB, sw1).value + rest, sent), code);
      run.result == Returned(Ev1SessionKey(random(|randB|), randB, t)) && run.code == 0 && run.link.replies == rest
  {
    var k := EffectiveKey(key, t);
    var blk := BlockLength(t);
    var challenge := Encrypt(c, t, Some(Zeros(blk)), k, randB).value;
    var a := random(|randB|);
    var ct := Encrypt(c, t, Some(challenge[|challenge| - blk..]), k, a + RotateLeft(randB)).value;
    var answer := Encrypt(c, t, Some(ct[|ct| - blk..]), k, RotateLeft(a)).value;
    var replies := HonestCard(c, random, k, t, randB, sw1).value;
    var second := [RawReply(answer, sw1, OperationOk)] + rest;
    assert replies + rest == [RawReply(challenge, sw1, AdditionalFrame)] + second;
    TransmitReadsReply(AuthFrame(t, keyNo), challenge, sw1, AdditionalFrame, second, sent);
    assert Handshake(c, random, k, keyNo, t, Link(replies + rest, sent), code)
           == AuthRespond(c, random, k, t, challenge, Link(second, sent + [AuthFrame(t, keyNo)]));
    HonestRespond(c, random, k, t, randB, challenge, ct, answer, sw1, rest, sent + [AuthFrame(t, keyNo)]);
  }

  // ---------------------------------------------------------------------
  // The object

  /** The session fields of a `DesfireEV1`, as one value. */
  datatype Session = Session(ktype: Option<KeyType>, kno: sbyte, aid: seq<byte>, iv: Option<seq<byte>>,
                             skey: Option<seq<byte>>, fileNo: sbyte, fileSett: Option<seq<byte>>, code: int)

  class DesfireEV1 {
    var ktype: Option<KeyType>
    var kno: sbyte
    var aid: seq<byte>
    var iv: Option<seq<byte>>
    var skey: Option<seq<byte>>
    var fileNo: sbyte
    var fileSett: Option<seq<byte>>
    var code: int
    /** The card connection. */
    var link: Link

    /** A new object on a connection: no session, AID 00 00 00. */
    constructor(link: Link)
      ensures ktype == None && kno == -1 && iv == None && skey == None && fileNo == -1 && fileSett == None
      ensures aid == [0, 0, 0] && code == 0 && this.link == link
    {
      ktype := None;
      kno := -1;
      iv := None;
      skey := None;
      fileNo := -1;
      fileSett := None;
      aid := [0, 0, 0];
      code := 0;
      this.link := link;
    }

    function IsAuthenticated(): bool
      reads this
    {
      skey.Some?
    }

    function Fields(): Session
      reads this
    {
      Session(ktype, kno, aid, iv, skey, fileNo, fileSett, code)
    }

    /** `transmit(byte[])`: the frame is sent as it is and the raw reply
      handed back; no field but the connection changes. */
    method TransmitRaw(frame: seq<byte>) returns (r: Outcome<seq<byte>>)
      modifies this
      ensures r == Transport.TransmitRaw(frame, old(link)).0 && link == Transport.TransmitRaw(frame, old(link)).1
      ensures Fields() == old(Fields())
    {
      var (res, next) := Transport.TransmitRaw(frame, link);
      link := next;
      return res;
    }

    /** `transmit(CommandAPDU)`: one exchange over the connection. */
    method Transmit(frame: seq<byte>) returns (r: Outcome<Reply>)
      modifies this
      ensures r == Transport.Transmit(frame, old(link)).0 && link == Transport.Transmit(frame, old(link)).1
      ensures ktype == old(ktype) && kno == old(kno) && aid == old(aid) && iv == old(iv) && skey == old(skey)
      ensures fileNo == old(fileNo) && fileSett == old(fileSett) && code == old(code)
    {
      var (res, next) := Transport.Transmit(frame, link);
      link := next;
      return res;
    }

    /** `reset`: forgets the session and the file, keeps the AID. */
    method Reset()
      modifies this
      ensures ktype == None && kno == -1 && iv == None && skey == None && fileNo == -1 && fileSett == None
      ensures aid == old(aid) && code == old(code) && link == old(link)
    {
      ktype := None;
      kno := -1;
      iv := None;
      skey := None;
      fileNo := -1;
      fileSett := None;
    }

    /** `readDataFromCard(byte[])`: sends the frame and follows 0xAF chaining
      until another status arrives, gathering the payloads. */
    method ReadDataFromCard(apdu: seq<byte>) returns (r: Outcome<Option<seq<byte>>>)
      modifies this
      ensures var run := ReadChain(apdu, old(link), old(code));
        r == run.result && link == run.link && code == run.code
      ensures ktype == old(ktype) && kno == old(kno) && aid == old(aid) && iv == old(iv) && skey == old(skey)
      ensures fileNo == old(fileNo) && fileSett == old(fileSett)
    {
      var result: seq<byte> := [];
      var res := Transmit(apdu);
      if res.Raised? {
        return Raised(res.reason);
      }
      var response := res.value;
      code := response.sw2;
      assert ReadChain(apdu, old(link), old(code)) == Handle(response, link);
      assert Prepend([], Handle(response, link)) == Handle(response, link) by {
        var h := Handle(response, link);
        if h.result.Returned? && h.result.value.Some? {
          assert [] + h.result.value.value == h.result.value.value;
        }
      }
      while response.sw2 == AdditionalFrame
        invariant ReadChain(apdu, old(link), old(code)) == Prepend(result, Handle(response, link))
        invariant code == response.sw2
        invariant ktype == old(ktype) && kno == old(kno) && aid == old(aid) && iv == old(iv) && skey == old(skey)
        invariant fileNo == old(fileNo) && fileSett == old(fileSett)
        decreases |link.replies|
      {
        PrependPrepend(result, response.data, ReadChain(MoreFrame, link, response.sw2));
        result := result + response.data;
        res := Transmit(MoreFrame);
        if res.Raised? {
          return Raised(res.reason);
        }
        response := res.value;
        code := response.sw2;
      }
      if response.sw2 == OperationOk {
        return Returned(Some(result + response.data));
      }
      return Returned(None);
    }

    /** A command whose reply status alone decides success. */
    method Command(frame: seq<byte>) returns (r: Outcome<bool>)
      modifies this
      ensures var run := StatusCommand(frame, old(link), old(code));
        r == run.result && link == run.link && code == run.code
      ensures ktype == old(ktype) && kno == old(kno) && aid == old(aid) && iv == old(iv) && skey == old(skey)
      ensures fileNo == old(fileNo) && fileSett == old(fileSett)
    {
      var res := Transmit(frame);
      if res.Raised? {
        return Raised(res.reason);
      }
      code := res.value.sw2;
      return Returned(res.value.sw2 == OperationOk);
    }

    /** `getVersion`: a chained read of `[90, 60, 00, 00, 00]`. */
    method GetVersion() returns (r: Outcome<Option<seq<byte>>>)
      modifies this
      ensures var run := ReadChain(NoDataFrame(0x60), old(link), old(code));
        r == run.result && link == run.link && code == run.code
      ensures ktype == old(ktype) && kno == old(kno) && aid == old(aid) && iv == old(iv) && skey == old(skey)
      ensures fileNo == old(fileNo) && fileSett == old(fileSett)
    {
      r := ReadDataFromCard(NoDataFrame(0x60));
    }

    /** `getApplicationIds`: a chained read of `[90, 6A, 00, 00, 00]`. */
    method GetApplicationIds() returns (r: Outcome<Option<seq<byte>>>)
      modifies this
      ensures var run := ReadChain(NoDataFrame(0x6A), old(link), old(code));
        r == run.result && link == run.link && code == run.code
      ensures ktype == old(ktype) && kno == old(kno) && aid == old(aid) && iv == old(iv) && skey == old(skey)
      ensures fileNo == old(fileNo) && fileSett == old(fileSett)
    {
      r := ReadDataFromCard(NoDataFrame(0x6A));
    }

    /** `formatPICC`: on status 0x00 the session is forgotten. */
    method FormatPicc() returns (r: Outcome<bool>)
      modifies this
      ensures var run := StatusCommand(NoDataFrame(0xFC), old(link), old(code));
        r == run.result && link == run.link && code == run.code
      ensures aid == old(aid)
      ensures r == Returned(true) ==>
                ktype == None && kno == -1 && iv == None && skey == None && fileNo == -1 && fileSett == None
      ensures r != Returned(true) ==>
                ktype == old(ktype) && kno == old(kno) && iv == old(iv) && skey == old(skey)
                && fileNo == old(fileNo) && fileSett == old(fileSett)
    {
      r := Command(NoDataFrame(0xFC));
      if r == Returned(true) {
        Reset();
      }
    }

    /** `getFreeMemory`. */
    method GetFreeMemory() returns (r: Outcome<int>)
      modifies this
      ensures var run := FreeMemoryRun(old(link), old(code));
        r == run.result && link == run.link && code == run.code
      ensures ktype == old(ktype) && kno == old(kno) && aid == old(aid) && iv == old(iv) && skey == old(skey)
      ensures fileNo == old(fileNo) && fileSett == old(fileSett)
    {
      var res := Transmit(NoDataFrame(0x6E));
      if res.Raised? {
        return Raised(res.reason);
      }
      var response := res.value;
      code := response.sw2;
      if response.sw2 == OperationOk && |response.data| >= 3 {
        var d := response.data;
        return Returned(d[0] as int + d[1] as int * 0x100 + d[2] as int * 0x1_0000);
      }
      return Returned(-1);
    }

    /** `createApplication`: an AID that is not 3 bytes throws before
      anything is sent. */
    method CreateApplication(aid: seq<byte>, keySettings: sbyte, numberOfKeys: sbyte) returns (r: Outcome<bool>)
      modifies this
      ensures |aid| != 3 ==> r == Raised(AidLengthError) && link == old(link) && code == old(code)
      ensures |aid| == 3 ==>
                var run := StatusCommand(CreateApplicationFrame(aid, keySettings, numberOfKeys), old(link), old(code));
                r == run.result && link == run.link && code == run.code
      ensures ktype == old(ktype) && kno == old(kno) && this.aid == old(this.aid) && iv == old(iv) && skey == old(skey)
      ensures fileNo == old(fileNo) && fileSett == old(fileSett)
    {
      if |aid| != 3 {
        return Raised(AidLengthError);
      }
      r := Command(CreateApplicationFrame(aid, keySettings, numberOfKeys));
    }

    /** `deleteApplication`. */
    method DeleteApplication(aid: seq<byte>) returns (r: Outcome<bool>)
      modifies this
      ensures |aid| != 3 ==> r == Raised(AidLengthError) && link == old(link) && code == old(code)
      ensures |aid| == 3 ==>
                var run := StatusCommand(AidFrame(0xDA, aid), old(link), old(code));
                r == run.result && link == run.link && code == run.code
      ensures ktype == old(ktype) && kno == old(kno) && this.aid == old(this.aid) && iv == old(iv) && skey == old(skey)
      ensures fileNo == old(fileNo) && fileSett == old(fileSett)
    {
      if |aid| != 3 {
        return Raised(AidLengthError);
      }
      r := Command(AidFrame(0xDA, aid));
    }

    /** `selectApplication`: on status 0x00 the AID is stored and the
      session forgotten; on any other status only `code` changes. */
    method SelectApplication(aid: seq<byte>) returns (r: Outcome<bool>)
      modifies this
      ensures |aid| != 3 ==> r == Raised(AidLengthError) && link == old(link) && code == old(code)
      ensures |aid| == 3 ==>
                var run := StatusCommand(AidFrame(0x5A, aid), old(link), old(code));
                r == run.result && link == run.link && code == run.code
      ensures r == Returned(true) ==>
                this.aid == aid && ktype == None && kno == -1 && iv == None && skey == None
                && fileNo == -1 && fileSett == None
      ensures r != Returned(true) ==>
                this.aid == old(this.aid) && ktype == old(ktype) && kno == old(kno) && iv == old(iv)
                && skey == old(skey) && fileNo == old(fileNo) && fileSett == old(fileSett)
    {
      if |aid| != 3 {
        return Raised(AidLengthError);
      }
      r := Command(AidFrame(0x5A, aid));
      if r == Returned(true) {
        this.aid := aid;
        Reset();
      }
    }

    /** `createStdDataFile`: copying the two access-right bytes out of a
      shorter array throws before anything is sent. */
    method CreateStdDataFile(fileNo: sbyte, commSettings: sbyte, accessRights: seq<byte>, fileSize: int32) returns (r: Outcome<bool>)
      modifies this
      ensures |accessRights| < 2 ==> r == Raised(IndexOutOfBounds) && link == old(link) && code == old(code)
      ensures |accessRights| >= 2 ==>
                var run := StatusCommand(FileFrame(0xCD, fileNo, commSettings, accessRights, fileSize), old(link), old(code));
                r == run.result && link == run.link && code == run.code
      ensures ktype == old(ktype) && kno == old(kno) && aid == old(aid) && iv == old(iv) && skey == old(skey)
      ensures this.fileNo == old(this.fileNo) && fileSett == old(fileSett)
    {
      if |accessRights| < 2 {
        return Raised(IndexOutOfBounds);
      }
      r := Command(FileFrame(0xCD, fileNo, commSettings, accessRights, fileSize));
    }

    /** `readData`: a chained read of the 12-byte read frame. */
    method ReadData(fileNo: sbyte, offset: int32, length: int32) returns (r: Outcome<Option<seq<byte>>>)
      modifies this
      ensures var run := ReadChain(ReadDataFrame(fileNo, offset, length), old(link), old(code));
        r == run.result && link == run.link && code == run.code
      ensures ktype == old(ktype) && kno == old(kno) && aid == old(aid) && iv == old(iv) && skey == old(skey)
      ensures this.fileNo == old(this.fileNo) && fileSett == old(fileSett)
    {
      r := ReadDataFromCard(ReadDataFrame(fileNo, offset, length));
    }

    /** `writeData`: one status command; whether the frame parses depends
      on the data length (`WriteDataFrameParses`). */
    method WriteData(fileNo: sbyte, offset: int32, data: seq<byte>) returns (r: Outcome<bool>)
      modifies this
      ensures var run := StatusCommand(WriteDataFrame(fileNo, offset, data), old(link), old(code));
        r == run.result && link == run.link && code == run.code
      ensures ktype == old(ktype) && kno == old(kno) && aid == old(aid) && iv == old(iv) && skey == old(skey)
      ensures this.fileNo == old(this.fileNo) && fileSett == old(fileSett)
    {
      r := Command(WriteDataFrame(fileNo, offset, data));
    }

    /** `authenticate`: the whole handshake. A valid non-AES key has its
      version bits cleared in the caller's array. Only a successful
      handshake changes the session fields, setting the zero IV and the
      session key it returns; every other outcome leaves the previous
      session in place. */
    method Authenticate(c: BlockCipher, random: Random, key: array?<byte>, keyNo: sbyte, t: KeyType)
      returns (r: Outcome<Option<seq<byte>>>)
      modifies this, key
      ensures key != null ==>
                key[..] == if ValidateKey(Some(old(key[..])), t) then EffectiveKey(old(key[..]), t) else old(key[..])
      ensures key == null || !ValidateKey(Some(old(key[..])), t) ==>
                r == Returned(None) && link == old(link) && code == old(code)
      ensures key != null && ValidateKey(Some(old(key[..])), t) ==>
                var run := Handshake(c, random, EffectiveKey(old(key[..]), t), keyNo, t, old(link), old(code));
                r == run.result && link == run.link && code == run.code
      ensures r.Returned? && r.value.Some? ==>
                ktype == Some(t) && kno == keyNo && iv == Some(Zeros(BlockLength(t))) && skey == r.value
      ensures !(r.Returned? && r.value.Some?) ==>
                ktype == old(ktype) && kno == old(kno) && iv == old(iv) && skey == old(skey)
      ensures aid == old(aid) && fileNo == old(fileNo) && fileSett == old(fileSett)
    {
      if key == null || !ValidateKey(Some(key[..]), t) {
        return Returned(None);
      }
      var k := ClearVersion(key, t);
      r := Exchange1(c, random, k, keyNo, t);
      if r.Returned? && r.value.Some? {
        Remember(t, keyNo, r.value);
      }
    }

    /** The end of a successful `authenticate`: the key type and number, the
      zero IV and the session key become the session. */
    method Remember(t: KeyType, keyNo: sbyte, sessionKey: Option<seq<byte>>)
      modifies this
      ensures ktype == Some(t) && kno == keyNo && iv == Some(Zeros(BlockLength(t))) && skey == sessionKey
      ensures aid == old(aid) && fileNo == old(fileNo) && fileSett == old(fileSett) && code == old(code) && link == old(link)
    {
      ktype := Some(t);
      kno := keyNo;
      iv := Some(Zeros(BlockLength(t)));
      skey := sessionKey;
    }

    /** The first exchange of `authenticate` and the rest of the handshake. */
    method Exchange1(c: BlockCipher, random: Random, k: seq<byte>, keyNo: sbyte, t: KeyType)
      returns (r: Outcome<Option<seq<byte>>>)
      modifies this
      ensures var run := Handshake(c, random, k, keyNo, t, old(link), old(code));
        r == run.result && link == run.link && code == run.code
      ensures ktype == old(ktype) && kno == old(kno) && aid == old(aid) && iv == old(iv) && skey == old(skey)
      ensures fileNo == old(fileNo) && fileSett == old(fileSett)
    {
      var res := Transmit(AuthFrame(t, keyNo));
      if res.Raised? {
        return Raised(res.reason);
      }
      code := res.value.sw2;
      if res.value.sw2 != AdditionalFrame {
        return Returned(None);
      }
      r := Respond(c, random, k, t, res.value.data);
    }

    /** The rest of `authenticate` after the card's challenge. */
    method Respond(c: BlockCipher, random: Random, k: seq<byte>, t: KeyType, challenge: seq<byte>)
      returns (r: Outcome<Option<seq<byte>>>)
      requires code == AdditionalFrame as int
      modifies this
      ensures var run := AuthRespond(c, random, k, t, challenge, old(link));
        r == run.result && link == run.link && code == run.code
      ensures ktype == old(ktype) && kno == old(kno) && aid == old(aid) && iv == old(iv) && skey == old(skey)
      ensures fileNo == old(fileNo) && fileSett == old(fileSett)
    {
      var h := Answer(c, random, k, t, challenge);
      if h.Raised? {
        return Raised(h.reason);
      }
      if h.value.None? {
        return Returned(None);
      }
      r := Exchange2(c, k, t, h.value.value);
    }

    /** The second exchange and the check of the card's proof. */
    method Exchange2(c: BlockCipher, k: seq<byte>, t: KeyType, h: HostAnswer) returns (r: Outcome<Option<seq<byte>>>)
      requires code == AdditionalFrame as int
      modifies this
      ensures var run := SecondExchange(c, k, t, h, old(link));
        r == run.result && link == run.link && code == run.code
      ensures ktype == old(ktype) && kno == old(kno) && aid == old(aid) && iv == old(iv) && skey == old(skey)
      ensures fileNo == old(fileNo) && fileSett == old(fileSett)
    {
      var res := Transmit(DataFrameLe(AdditionalFrame, h.ct));
      if res.Raised? {
        return Raised(res.reason);
      }
      code := res.value.sw2;
      if res.value.sw2 != OperationOk {
        return Returned(None);
      }
      r := Confirm(c, k, t, h.randA, h.randB, h.ct, res.value.data);
    }
  }

  /** The start of `authenticate`: a non-AES key has its version bits
      cleared in the caller's array. */
  method ClearVersion(key: array<byte>, t: KeyType) returns (k: seq<byte>)
    modifies key
    ensures k == key[..] == EffectiveKey(old(key[..]), t)
  {
    if t != AES {
      SetKeyVersion(key, 0, key.Length, 0);
    }
    k := key[..];
  }

  /** The end of `authenticate`: decrypting the card's answer, comparing it
      with rotate(A) and cutting the session key. */
  method Confirm(c: BlockCipher, k: seq<byte>, t: KeyType, randA: seq<byte>, randB: seq<byte>, ct: seq<byte>, answer: seq<byte>)
    returns (r: Outcome<Option<seq<byte>>>)
    ensures r == AuthConfirm(c, k, t, randA, randB, ct, answer)
  {
    var blk := BlockLength(t);
    if |ct| < blk {
      return Raised(IndexOutOfBounds);
    }
    var d := Decrypt(c, t, Some(ct[|ct| - blk..]), k, answer);
    if d.None? {
      return Returned(None);
    }
    var same := CompareAnswer(d.value, RotateLeft(randA));
    if same.Raised? {
      return Raised(same.reason);
    }
    if !same.value {
      return Returned(None);
    }
    var sessionKey := Ev1SessionKey(randA, randB, t);
    if sessionKey.None? {
      return Raised(IndexOutOfBounds);
    }
    return Returned(sessionKey);
  }

  /** The comparison loop of `authenticate`: walks over `want`, reading
      `got` at the same index. */
  method CompareAnswer(got: seq<byte>, want: seq<byte>) returns (r: Outcome<bool>)
    ensures r == Compare(got, want)
  {
    var i := 0;
    while i < |want|
      invariant 0 <= i <= |want| && i <= |got|
      invariant got[..i] == want[..i]
    {
      if i >= |got| {
        assert got == want[..|got|];
        return Raised(IndexOutOfBounds);
      }
      if got[i] != want[i] {
        assert |want| <= |got| ==> got[..|want|][i] != want[i];
        assert |got| < |want| ==> want[..|got|][i] != got[i];
        ghost var c := Compare(got, want);
        assert c != Returned(true) && !c.Raised?;
        assert c.value == false;
        assert c == Returned(false);
        return Returned(false);
      }
      assert got[..i + 1] == got[..i] + [got[i]];
      assert want[..i + 1] == want[..i] + [want[i]];
      i := i + 1;
    }
    assert got[..|want|] == want;
    return Returned(true);
  }
}
