/** `DesfireUtils`: the upper-case hex codec every frame passes through, the
    pair swap used for little-endian values, and the parse of a single hex
    byte. Characters are ASCII throughout. */
module DesfireUtils {
  import opened Bytes
  import opened Wrappers

  /** `hexArray`. */
  const HexDigits: string := "0123456789ABCDEF"

  // ---------------------------------------------------------------------
  // Bytes to hex

  /** The hex text of a byte sequence: two upper-case characters per byte,
      high nibble first. */
  function ToHex(b: seq<byte>): (s: string)
    ensures |s| == 2 * |b|
  {
    if b == [] then []
    else [HexDigits[b[0] / 16], HexDigits[b[0] % 16]] + ToHex(b[1..])
  }

  /** Characters 2j and 2j+1 of the hex text are the high and low nibble of
      byte j. */
  lemma {:induction false} ToHexAt(b: seq<byte>, j: nat)
    requires j < |b|
    ensures ToHex(b)[2 * j] == HexDigits[b[j] / 16] && ToHex(b)[2 * j + 1] == HexDigits[b[j] % 16]
  {
    if j > 0 {
      ToHexAt(b[1..], j - 1);
    }
  }

  /** Hex text uses only hex digits, so it holds no space. */
  lemma ToHexAlphabet(b: seq<byte>)
    ensures forall k :: 0 <= k < |ToHex(b)| ==> IsHexChar(ToHex(b)[k])
  {
    forall k | 0 <= k < |ToHex(b)| ensures IsHexChar(ToHex(b)[k]) {
      var j := k / 2;
      assert k == 2 * j || k == 2 * j + 1;
      ToHexAt(b, j);
      HexArrayDigit(b[j] / 16);
      HexArrayDigit(b[j] % 16);
    }
  }

  /** The hex text of a concatenation is the concatenation of the texts. */
  lemma {:induction false} ToHexAppend(a: seq<byte>, b: seq<byte>)
    ensures ToHex(a + b) == ToHex(a) + ToHex(b)
  {
    if a != [] {
      assert (a + b)[1..] == a[1..] + b;
      ToHexAppend(a[1..], b);
    } else {
      assert a + b == b;
    }
  }

  /** `byteArrayToHexString`: fills a character array two cells per byte. */
  method ByteArrayToHexString(bytes: array<byte>) returns (s: string)
    ensures s == ToHex(bytes[..])
  {
    var hexChars := new char[bytes.Length * 2];
    ghost var spec := ToHex(bytes[..]);
    assert |spec| == hexChars.Length;
    for j := 0 to bytes.Length
      invariant forall k :: 0 <= k < 2 * j ==> hexChars[k] == spec[k]
    {
      var v := bytes[j];
      hexChars[j * 2] := HexDigits[v / 16];
      hexChars[j * 2 + 1] := HexDigits[v % 16];
      ToHexAt(bytes[..], j);
    }
    s := hexChars[..];
  }

  // ---------------------------------------------------------------------
  // Hex to bytes

  /** `Character.digit(c, 16)` on ASCII: the value of a hex digit of either
      case, -1 for any other character. */
  function Digit(c: char): (d: int)
    ensures -1 <= d < 16
    ensures d >= 0 <==> IsHexChar(c)
  {
    if '0' <= c <= '9' then c as int - '0' as int
    else if 'a' <= c <= 'f' then c as int - 'a' as int + 10
    else if 'A' <= c <= 'F' then c as int - 'A' as int + 10
    else -1
  }

  predicate IsHexChar(c: char) {
    '0' <= c <= '9' || 'a' <= c <= 'f' || 'A' <= c <= 'F'
  }

  /** The upper-case form of an ASCII character (`Character.toUpperCase`). */
  function UpperAscii(c: char): (u: char)
    ensures 'a' <= c <= 'z' ==> u as int == c as int - 32
    ensures !('a' <= c <= 'z') ==> u == c
  {
    if 'a' <= c <= 'z' then (c as int - 32) as char else c
  }

  function UpperString(s: string): (u: string)
    ensures |u| == |s| && forall k :: 0 <= k < |s| ==> u[k] == UpperAscii(s[k])
  {
    seq(|s|, k requires 0 <= k < |s| => UpperAscii(s[k]))
  }

  /** Each hex digit's value indexes its upper-case form in `hexArray`. */
  lemma DigitIndexesHexArray(c: char)
    requires IsHexChar(c)
    ensures HexDigits[Digit(c)] == UpperAscii(c)
  {
  }

  /** ... and reading back an entry of `hexArray` gives its index. */
  lemma HexArrayDigit(d: nat)
    requires d < 16
    ensures Digit(HexDigits[d]) == d
  {
  }

  /** `s.replace(" ", "")`. */
  function RemoveSpaces(s: string): (t: string)
    ensures |t| <= |s|
    ensures forall k :: 0 <= k < |t| ==> t[k] != ' '
    ensures ' ' !in s ==> t == s
  {
    if s == [] then []
    else (if s[0] == ' ' then [] else [s[0]]) + RemoveSpaces(s[1..])
  }

  /** The byte stored for one pair: `(byte) ((digit(hi) << 4) + digit(lo))`,
      where a non-hex character counts as -1. */
  function PairValue(hi: char, lo: char): (r: byte)
    ensures IsHexChar(hi) && IsHexChar(lo) ==> r == 16 * Digit(hi) + Digit(lo)
  {
    Octet(16 * Digit(hi) + Digit(lo))
  }

  /** The bytes of an even-length, space-free text, one per pair. */
  function DecodePairs(t: string): (r: seq<byte>)
    requires |t| % 2 == 0
    ensures |r| == |t| / 2
  {
    seq(|t| / 2, j requires 0 <= j < |t| / 2 => PairValue(t[2 * j], t[2 * j + 1]))
  }

  /** What `hexStringToByteArray` does: null gives null; an odd number of
      non-space characters runs `charAt(i + 1)` past the end. */
  function ParseHexString(s: Option<string>): (r: Outcome<Option<seq<byte>>>)
    ensures r.Raised? <==> s.Some? && |RemoveSpaces(s.value)| % 2 == 1
    ensures r.Returned? && r.value.Some? ==> s.Some? && |r.value.value| == |RemoveSpaces(s.value)| / 2
    ensures s.None? ==> r == Returned(None)
  {
    if s.None? then Returned(None)
    else
      var t := RemoveSpaces(s.value);
      if |t| % 2 != 0 then Raised(IndexOutOfBounds) else Returned(Some(DecodePairs(t)))
  }

  /** `hexStringToByteArray`. */
  method HexStringToByteArray(s: Option<string>) returns (r: Outcome<Option<seq<byte>>>)
    ensures r == ParseHexString(s)
  {
    if s.None? {
      return Returned(None);
    }
    var t := RemoveSpaces(s.value);
    var len := |t|;
    var data := new byte[len / 2];
    var i := 0;
    while i < len
      invariant 0 <= i <= len && i % 2 == 0
      invariant forall k :: 0 <= k < i / 2 ==> data[k] == PairValue(t[2 * k], t[2 * k + 1])
    {
      if i + 1 >= len {
        return Raised(IndexOutOfBounds);
      }
      data[i / 2] := PairValue(t[i], t[i + 1]);
      i := i + 2;
    }
    assert data[..] == DecodePairs(t);
    return Returned(Some(data[..]));
  }

  /** The two hex characters of an octet decode to that octet. */
  lemma PairOfHex(o: byte)
    ensures PairValue(HexDigits[o / 16], HexDigits[o % 16]) == o
  {
    HexArrayDigit(o / 16);
    HexArrayDigit(o % 16);
  }

  /** Hex text has no spaces for `replace` to remove. */
  lemma ToHexHasNoSpaces(b: seq<byte>)
    ensures RemoveSpaces(ToHex(b)) == ToHex(b)
  {
    var s := ToHex(b);
    ToHexAlphabet(b);
    assert ' ' !in s by {
      forall k | 0 <= k < |s| ensures s[k] != ' ' {
        assert IsHexChar(s[k]);
      }
    }
  }

  /** Pair j of the hex text of `b` decodes to `b[j]`. */
  lemma DecodeHexAt(b: seq<byte>, j: nat)
    requires j < |b|
    ensures DecodePairs(ToHex(b))[j] == b[j]
  {
    ToHexAt(b, j);
    PairOfHex(b[j]);
  }

  lemma DecodeHex(b: seq<byte>)
    ensures |ToHex(b)| % 2 == 0 && DecodePairs(ToHex(b)) == b
  {
    var d := DecodePairs(ToHex(b));
    forall j | 0 <= j < |b| ensures d[j] == b[j] {
      DecodeHexAt(b, j);
    }
  }

  /** Decoding the hex text of any byte sequence gives the sequence back. */
  lemma HexRoundTrip(b: seq<byte>)
    ensures ParseHexString(Some(ToHex(b))) == Returned(Some(b))
  {
    ToHexHasNoSpaces(b);
    DecodeHex(b);
  }

  /** `r` is hex text that `hexStringToByteArray` reads back as `f`. */
  predicate Encodes(r: string, f: seq<byte>) {
    ParseHexString(Some(r)) == Returned(Some(f))
  }

  /** Hex text with its spaces removed, of even length and made of hex digits
      of either case. */
  predicate IsHexText(s: string) {
    var t := RemoveSpaces(s);
    |t| % 2 == 0 && forall k :: 0 <= k < |t| ==> IsHexChar(t[k])
  }

  /** The nibbles of the octet built from two nibbles. */
  lemma NibblesOfPair(h: nat, l: nat)
    requires h < 16 && l < 16
    ensures (16 * h + l) / 16 == h && (16 * h + l) % 16 == l
  {
  }

  /** Pair j of hex text, decoded and encoded again, is that pair upper-cased. */
  lemma EncodeDecodedPair(t: string, j: nat)
    requires |t| % 2 == 0 && j < |t| / 2
    requires IsHexChar(t[2 * j]) && IsHexChar(t[2 * j + 1])
    ensures ToHex(DecodePairs(t))[2 * j] == UpperAscii(t[2 * j])
    ensures ToHex(DecodePairs(t))[2 * j + 1] == UpperAscii(t[2 * j + 1])
  {
    var b := DecodePairs(t);
    var hi, lo := Digit(t[2 * j]), Digit(t[2 * j + 1]);
    assert b[j] == 16 * hi + lo;
    NibblesOfPair(hi, lo);
    assert b[j] / 16 == hi && b[j] % 16 == lo;
    ToHexAt(b, j);
    DigitIndexesHexArray(t[2 * j]);
    DigitIndexesHexArray(t[2 * j + 1]);
    assert HexDigits[hi] == UpperAscii(t[2 * j]);
  }

  /** Decoding valid hex text and encoding the bytes again gives the text
      without its spaces, in upper case. */
  lemma HexRoundTripBack(s: string)
    requires IsHexText(s)
    ensures ParseHexString(Some(s)).Returned?
    ensures ToHex(ParseHexString(Some(s)).value.value) == UpperString(RemoveSpaces(s))
  {
    var t := RemoveSpaces(s);
    var l, u := ToHex(DecodePairs(t)), UpperString(t);
    forall k | 0 <= k < |t| ensures l[k] == u[k] {
      var j := k / 2;
      assert k == 2 * j || k == 2 * j + 1;
      EncodeDecodedPair(t, j);
    }
  }

  // ---------------------------------------------------------------------
  // Pair swap

  /** `swapPairs`: reverse the hex text, then swap the two characters of
      every pair. The odd-length branch of the source cannot be taken,
      since hex text has two characters per byte. */
  method SwapPairs(byteArray: seq<byte>) returns (r: string)
    ensures r == ToHex(Reverse(byteArray))
  {
    var s := Reverse(ToHex(byteArray));
    ghost var target := ToHex(Reverse(byteArray));
    var even := "";
    var length := |s|;
    var i := 0;
    while i <= length - 2
      invariant 0 <= i <= length && i % 2 == 0
      invariant |even| == i && forall k :: 0 <= k < i ==> even[k] == target[k]
    {
      ghost var m := i / 2;
      ghost var n := |byteArray|;
      assert i == 2 * m && length == 2 * n && m < n;
      ToHexAt(byteArray, n - 1 - m);
      ToHexAt(Reverse(byteArray), m);
      assert s[i] == ToHex(byteArray)[2 * (n - 1 - m) + 1];
      assert s[i + 1] == ToHex(byteArray)[2 * (n - 1 - m)];
      assert target[i] == s[i + 1] && target[i + 1] == s[i];
      even := even + [s[i + 1], s[i]];
      i := i + 2;
    }
    if length % 2 != 0 {
      assert false;
    }
    r := even;
  }

  /** `swapPairsByte`: the pair swap read back as bytes. */
  method SwapPairsByte(byteArray: seq<byte>) returns (r: seq<byte>)
    ensures r == Reverse(byteArray)
  {
    var swapString := SwapPairs(byteArray);
    var parsed := HexStringToByteArray(Some(swapString));
    HexRoundTrip(Reverse(byteArray));
    return parsed.value.value;
  }

  // ---------------------------------------------------------------------
  // A single byte

  /** The value of a string of hex digits (most significant first). */
  function DigitsValue(s: string): (v: int)
    requires forall k :: 0 <= k < |s| ==> IsHexChar(s[k])
    ensures v >= 0
  {
    if s == [] then 0 else 16 * DigitsValue(s[..|s| - 1]) + Digit(s[|s| - 1])
  }

  /** `Integer.parseInt(s, 16)`: an optional sign followed by at least one
      hex digit, with a value inside the Java int range; None where it
      throws `NumberFormatException`. */
  function ParseInt16(s: string): (r: Option<int32>)
    ensures r.Some? ==> |s| >= 1
  {
    if s == [] then None
    else
      var negative := s[0] == '-';
      var digits := if s[0] == '-' || s[0] == '+' then s[1..] else s;
      if digits == [] || !(forall k :: 0 <= k < |digits| ==> IsHexChar(digits[k])) then None
      else
        var v := if negative then -DigitsValue(digits) else DigitsValue(digits);
        if -0x8000_0000 <= v < 0x8000_0000 then Some(v) else None
  }

  /** `hexStringToByte`: the low eight bits of the parsed value, as a signed
      Java byte. */
  function HexStringToByte(s: string): (r: Outcome<sbyte>)
    ensures r.Raised? <==> ParseInt16(s).None?
    ensures r.Returned? ==> Octet(r.value) == Octet(ParseInt16(s).value)
  {
    match ParseInt16(s)
    case None => Raised(NumberFormatException)
    case Some(v) => Returned(Signed(Octet(v)))
  }

  /** "FF" parses to 255, which is the byte -1. */
  lemma HexStringToByteFF()
    ensures HexStringToByte("FF") == Returned(-1)
  {
    var s := "FF";
    assert s[..|s| - 1] == "F";
    assert "F"[..0] == [];
    assert DigitsValue(s) == 255;
  }

  /** Parsing the two-character hex text of an octet gives the signed byte
      with that bit pattern. */
  lemma HexStringToByteOfHex(o: byte)
    ensures HexStringToByte(ToHex([o])) == Returned(Signed(o))
  {
    var s := ToHex([o]);
    HexArrayDigit(o / 16);
    HexArrayDigit(o % 16);
    ToHexAt([o], 0);
    assert s == [HexDigits[o / 16], HexDigits[o % 16]];
    assert s[..1] == [HexDigits[o / 16]];
    assert [HexDigits[o / 16]][..0] == [];
    assert DigitsValue(s[..1]) == o / 16;
    assert DigitsValue(s) == o;
  }
}
