/** The card connection `SimpleSCR` provides, reduced to what the services
    see of it: the card's replies, in the order it will give them, and the
    frames sent so far. Opening and closing the connection is not part of
    this model. */
module Transport {
  import opened Bytes
  import opened Wrappers
  import opened Iso7816

  /** The connection: the raw replies still to come and every frame sent. */
  datatype Link = Link(replies: seq<seq<byte>>, sent: seq<seq<byte>>)

  /** A response APDU: the response data and the two status bytes. */
  datatype Reply = Reply(data: seq<byte>, sw1: byte, sw2: byte)

  /** `transmit(byte[])`: sends the frame as it is and hands back the next
      raw reply; with no reply left the transport fails. */
  function TransmitRaw(frame: seq<byte>, link: Link): (res: (Outcome<seq<byte>>, Link))
    ensures res.0.Raised? <==> link.replies == []
    ensures res.0.Raised? ==> res.0.reason == TransportFailure && res.1 == link
    ensures res.0.Returned? ==>
              res.0.value == link.replies[0] && res.1 == Link(link.replies[1..], link.sent + [frame])
  {
    if link.replies == [] then (Raised(TransportFailure), link)
    else (Returned(link.replies[0]), Link(link.replies[1..], link.sent + [frame]))
  }

  /** `transmit(new CommandAPDU(frame))`: a frame the command-APDU parser
      rejects throws before anything is sent; a raw reply shorter than the
      two status bytes throws once received. */
  function Transmit(frame: seq<byte>, link: Link): (res: (Outcome<Reply>, Link))
    ensures Decode(frame).None? ==> res == (Raised(InvalidCommandApdu), link)
    ensures res.0.Returned? ==>
              Decode(frame).Some? && link.replies != []
              && res.1 == Link(link.replies[1..], link.sent + [frame])
              && link.replies[0] == res.0.value.data + [res.0.value.sw1, res.0.value.sw2]
    ensures Decode(frame).Some? && link.replies == [] ==> res == (Raised(TransportFailure), link)
  {
    if Decode(frame).None? then (Raised(InvalidCommandApdu), link)
    else
      var (raw, next) := TransmitRaw(frame, link);
      if raw.Raised? then (Raised(raw.reason), next)
      else if |raw.value| < 2 then (Raised(InvalidResponseApdu), next)
      else
        var n := |raw.value|;
        assert raw.value == raw.value[..n - 2] + [raw.value[n - 2], raw.value[n - 1]];
        (Returned(Reply(raw.value[..n - 2], raw.value[n - 2], raw.value[n - 1])), next)
  }

  /** The raw reply a card gives for a response with data `data` and status
      `sw1 sw2`. */
  function RawReply(data: seq<byte>, sw1: byte, sw2: byte): seq<byte> {
    data + [sw1, sw2]
  }

  /** The data part of a raw reply: all but its two status bytes. */
  function ReplyData(raw: seq<byte>): (data: seq<byte>)
    ensures |raw| >= 2 ==> raw == RawReply(data, raw[|raw| - 2], raw[|raw| - 1])
  {
    if |raw| < 2 then [] else raw[..|raw| - 2]
  }

  /** Every reply of at least two bytes is read back exactly: its last two
      bytes as the status, the rest as the data. */
  lemma TransmitReadsReply(frame: seq<byte>, data: seq<byte>, sw1: byte, sw2: byte, rest: seq<seq<byte>>, sent: seq<seq<byte>>)
    requires Decode(frame).Some?
    ensures Transmit(frame, Link([RawReply(data, sw1, sw2)] + rest, sent))
            == (Returned(Reply(data, sw1, sw2)), Link(rest, sent + [frame]))
  {
    var raw := RawReply(data, sw1, sw2);
    var link := Link([raw] + rest, sent);
    assert link.replies[1..] == rest;
    assert raw[..|raw| - 2] == data;
  }
}
