/** Command APDUs as laid out by section 5.1 of ISO/IEC 7816-4, parsed the
    way `javax.smartcardio.CommandAPDU(byte[])` parses the frames the
    services build before they are transmitted. */
module Iso7816 {
  import opened Bytes
  import opened Wrappers

  /** A command APDU: the four header bytes, the command data, and Ne, the
      number of response bytes expected (0 when the frame has no Le field;
      a short Le byte of 0x00 asks for 256). */
  datatype Command = Command(cla: byte, ins: byte, p1: byte, p2: byte, data: seq<byte>, ne: nat)

  /** The commands a short-form frame (one-byte Lc and Le) can carry. */
  predicate IsShort(c: Command) {
    |c.data| <= 0xFF && c.ne <= 0x100
  }

  /** A frame whose length fields, if any, are short ones. */
  predicate ShortFrame(f: seq<byte>) {
    |f| <= 5 || f[4] != 0
  }

  /** The short-form frame of a command: header, then Lc and the data when
      there is data, then Le when a response is expected. */
  function EncodeShort(c: Command): (f: seq<byte>)
    requires IsShort(c)
    ensures ShortFrame(f)
    ensures |f| == 4 + (if c.data == [] then 0 else 1 + |c.data|) + (if c.ne == 0 then 0 else 1)
  {
    [c.cla, c.ins, c.p1, c.p2]
    + (if c.data == [] then [] else [|c.data|] + c.data)
    + (if c.ne == 0 then [] else [c.ne % 0x100])
  }

  /** The parse of a frame into a command; None where the parser rejects the
      frame (cases 1, 2, 3 and 4 in short and extended form are accepted). */
  function Decode(f: seq<byte>): (r: Option<Command>)
    ensures r.Some? ==> |f| >= 4 && r.value.cla == f[0] && r.value.ins == f[1]
                        && r.value.p1 == f[2] && r.value.p2 == f[3]
  {
    if |f| < 4 then None
    else if |f| == 4 then Some(Command(f[0], f[1], f[2], f[3], [], 0))
    else
      var l1: int := f[4];
      if |f| == 5 then Some(Command(f[0], f[1], f[2], f[3], [], if l1 == 0 then 0x100 else l1))
      else if l1 != 0 then
        if |f| == 5 + l1 then Some(Command(f[0], f[1], f[2], f[3], f[5..], 0))
        else if |f| == 6 + l1 then
          var le := f[|f| - 1];
          Some(Command(f[0], f[1], f[2], f[3], f[5..|f| - 1], if le == 0 then 0x100 else le))
        else None
      else if |f| < 7 then None
      else
        var l2 := 0x100 * (f[5] as int) + (f[6] as int);
        if |f| == 7 then Some(Command(f[0], f[1], f[2], f[3], [], if l2 == 0 then 0x1_0000 else l2))
        else if l2 == 0 then None
        else if |f| == 7 + l2 then Some(Command(f[0], f[1], f[2], f[3], f[7..], 0))
        else if |f| == 9 + l2 then
          var l3 := 0x100 * (f[|f| - 2] as int) + (f[|f| - 1] as int);
          Some(Command(f[0], f[1], f[2], f[3], f[7..|f| - 2], if l3 == 0 then 0x1_0000 else l3))
        else None
  }

  /** Every short-form command survives encoding and parsing. */
  lemma DecodeEncodeShort(c: Command)
    requires IsShort(c)
    ensures Decode(EncodeShort(c)) == Some(c)
  {
    var f := EncodeShort(c);
    var header := [c.cla, c.ins, c.p1, c.p2];
    if c.data == [] {
      if c.ne != 0 {
        assert f == header + [c.ne % 0x100];
      }
    } else {
      var body := [|c.data|] + c.data;
      if c.ne == 0 {
        assert f == header + body;
        assert f[5..] == c.data;
      } else {
        assert f == header + body + [c.ne % 0x100];
        assert f[5..|f| - 1] == c.data;
      }
    }
  }

  /** Every short-form frame the parser accepts is the encoding of what it
      parses to. */
  lemma EncodeDecodeShort(f: seq<byte>)
    requires ShortFrame(f) && Decode(f).Some?
    ensures IsShort(Decode(f).value) && EncodeShort(Decode(f).value) == f
  {
    var c := Decode(f).value;
    if |f| == 4 {
      assert EncodeShort(c) == f[..4];
    } else if |f| == 5 {
      assert EncodeShort(c) == f[..4] + [f[4]];
    } else if |f| == 5 + (f[4] as int) {
      assert EncodeShort(c) == f[..4] + [f[4]] + f[5..];
    } else {
      assert EncodeShort(c) == f[..4] + [f[4]] + f[5..|f| - 1] + [f[|f| - 1]];
    }
  }

  /** A frame whose parse carries at least all but six of its bytes as
      command data is a short-form frame: its Lc byte is the data length,
      and there is some data. (Extended frames spend seven or nine bytes on
      header and length fields; data-less frames carry none.) */
  lemma ShortFormData(f: seq<byte>, c: Command)
    requires |f| >= 6 && Decode(f) == Some(c) && |c.data| >= |f| - 6
    ensures f[4] as int == |c.data| && 0 < |c.data|
  {
  }
}
