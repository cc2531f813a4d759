/** The DESFire status byte (SW2): `ApduResponse`'s constants, classifier and
    descriptions, and the `Response` enumeration of `DESFireEV1`. */
module ApduResponse {
  import opened Bytes
  import opened Wrappers

  const OPERATION_OK: int := 0x00
  const NO_CHANGES: int := 0x0C
  const OUT_OF_EEPROM_ERROR: int := 0x0E
  const ILLEGAL_COMMAND_CODE: int := 0x1C
  const INTEGRITY_ERROR: int := 0x1E
  const NO_SUCH_KEY: int := 0x40
  const LENGTH_ERROR: int := 0x7E
  const PERMISSION_DENIED: int := 0x9D
  const PARAMETER_ERROR: int := 0x9E
  const APPLICATION_NOT_FOUND: int := 0xA0
  const APPL_INTEGRITY_ERROR: int := 0xA1
  const AUTHENTICATION_ERROR: int := 0xAE
  const ADDITIONAL_FRAME: int := 0xAF
  const BOUNDARY_ERROR: int := 0xBE
  const PICC_INTEGRITY_ERROR: int := 0xC1
  const COMMAND_ABORTED: int := 0xCA
  const PICC_DISABLED_ERROR: int := 0xCD
  const COUNT_ERROR: int := 0xCE
  const DUPLICATE_ERROR: int := 0xDE
  const EEPROM_ERROR: int := 0xEE
  const FILE_NOT_FOUND: int := 0xF0
  const FILE_INTEGRITY_ERROR: int := 0xF1

  /** The 22 status codes, in declaration order. */
  const Codes: seq<int> := [
    OPERATION_OK, NO_CHANGES, OUT_OF_EEPROM_ERROR, ILLEGAL_COMMAND_CODE,
    INTEGRITY_ERROR, NO_SUCH_KEY, LENGTH_ERROR, PERMISSION_DENIED,
    PARAMETER_ERROR, APPLICATION_NOT_FOUND, APPL_INTEGRITY_ERROR,
    AUTHENTICATION_ERROR, ADDITIONAL_FRAME, BOUNDARY_ERROR,
    PICC_INTEGRITY_ERROR, COMMAND_ABORTED, PICC_DISABLED_ERROR, COUNT_ERROR,
    DUPLICATE_ERROR, EEPROM_ERROR, FILE_NOT_FOUND, FILE_INTEGRITY_ERROR]

  /** The constants are pairwise distinct. */
  lemma CodesDistinct()
    ensures |Codes| == 22
    ensures forall i, j :: 0 <= i < j < |Codes| ==> Codes[i] != Codes[j]
  {
  }

  /** `isSuccess`. */
  function IsSuccess(code: int32): (r: bool)
    ensures r <==> code == 0x00
  {
    code == OPERATION_OK
  }

  /** `hasMoreData`. */
  function HasMoreData(code: int32): (r: bool)
    ensures r <==> code == 0xAF
  {
    code == ADDITIONAL_FRAME
  }

  /** A status is never both "success" and "more data". */
  lemma SuccessExcludesMoreData(code: int32)
    ensures !(IsSuccess(code) && HasMoreData(code))
  {
  }

  // ---------------------------------------------------------------------
  // Descriptions

  const UnknownPrefix: string := "Unknown error code: 0x"

  /** Lower-case hex digit of a nibble. */
  function LowerHexDigit(d: nat): (c: char)
    requires d < 16
  {
    "0123456789abcdef"[d]
  }

  /** `Integer.toHexString` of a non-negative value: lower case, no leading
      zeros. */
  function LowerHex(n: nat): (s: string)
    ensures 1 <= |s|
    ensures n >= 16 ==> s[0] != '0'
    decreases n
  {
    if n < 16 then [LowerHexDigit(n)] else LowerHex(n / 16) + [LowerHexDigit(n % 16)]
  }

  /** The value of a lower-case hex numeral. */
  function LowerHexValue(s: string): int {
    if s == [] then 0
    else 16 * LowerHexValue(s[..|s| - 1]) + LowerDigitValue(s[|s| - 1])
  }

  function LowerDigitValue(c: char): int {
    if '0' <= c <= '9' then c as int - '0' as int
    else if 'a' <= c <= 'f' then c as int - 'a' as int + 10
    else 0
  }

  /** Reading the numeral back gives the number. */
  lemma {:induction false} LowerHexRoundTrip(n: nat)
    ensures LowerHexValue(LowerHex(n)) == n
    decreases n
  {
    var s := LowerHex(n);
    LowerDigitRoundTrip(n % 16);
    if n < 16 {
      assert s[..|s| - 1] == [];
    } else {
      LowerHexRoundTrip(n / 16);
      assert s[..|s| - 1] == LowerHex(n / 16);
      assert n == 16 * (n / 16) + n % 16;
    }
  }

  lemma LowerDigitRoundTrip(d: nat)
    requires d < 16
    ensures LowerDigitValue(LowerHexDigit(d)) == d
  {
  }

  /** `Integer.toHexString` of a Java int: negative values print as their
      unsigned 32-bit two's complement. */
  function IntToHexString(code: int32): string {
    LowerHex(if code < 0 then code + 0x1_0000_0000 else code)
  }

  predicate IsUnknownText(s: string) {
    |s| >= |UnknownPrefix| && s[..|UnknownPrefix|] == UnknownPrefix
  }

  /** `getDescription`: the fixed text of each listed code, and
      "Unknown error code: 0x" followed by the code's hex for any other. */
  function Description(code: int32): (s: string)
    ensures code !in Codes ==> s == UnknownPrefix + IntToHexString(code)
  {
    match code
    case 0x00 => "Operation OK"
    case 0x0C => "No changes"
    case 0x0E => "Out of EEPROM error"
    case 0x1C => "Illegal command code"
    case 0x1E => "Integrity error"
    case 0x40 => "No such key"
    case 0x7E => "Length error"
    case 0x9D => "Permission denied"
    case 0x9E => "Parameter error"
    case 0xA0 => "Application not found"
    case 0xA1 => "Application integrity error"
    case 0xAE => "Authentication error"
    case 0xAF => "Additional frame"
    case 0xBE => "Boundary error"
    case 0xC1 => "PICC integrity error"
    case 0xCA => "Command aborted"
    case 0xCD => "PICC disabled error"
    case 0xCE => "Count error"
    case 0xDE => "Duplicate error"
    case 0xEE => "EEPROM error"
    case 0xF0 => "File not found"
    case 0xF1 => "File integrity error"
    case _ => UnknownPrefix + IntToHexString(code)
  }

  lemma KnownDescription(code: int32)
    requires code in Codes
    ensures |Description(code)| > 0 && Description(code)[0] != 'U'
  {
  }

  /** The listed codes, and only they, have a description of their own. */
  lemma DescriptionClassifies(code: int32)
    ensures IsUnknownText(Description(code)) <==> code !in Codes
  {
    if code in Codes {
      KnownDescription(code);
    } else {
      assert Description(code)[..|UnknownPrefix|] == UnknownPrefix;
    }
  }

  /** The description of an unlisted code names it: its hex suffix reads
      back as the code modulo 2^32. */
  lemma UnknownDescriptionNamesCode(code: int32)
    requires code !in Codes
    ensures LowerHexValue(Description(code)[|UnknownPrefix|..]) == code % 0x1_0000_0000
  {
    var d := Description(code);
    var h := IntToHexString(code);
    assert d == UnknownPrefix + h;
    assert d[|UnknownPrefix|..] == h;
    LowerHexRoundTrip(if code < 0 then code + 0x1_0000_0000 else code);
  }

  // ---------------------------------------------------------------------
  // DESFireEV1.Response

  datatype Status =
    | OperationOk | NoChanges | OutOfEepromError | IllegalCommandCode
    | IntegrityError | NoSuchKey | LengthError | PermissionDenied
    | ParameterError | ApplicationNotFound | ApplIntegrityError
    | AuthenticationError | AdditionalFrame | BoundaryError
    | PiccIntegrityError | CommandAborted | PiccDisabledError | CountError
    | DuplicateError | EepromError | FileNotFound | FileIntegrityError
  {
    function Code(): int {
      match this
      case OperationOk => 0x00
      case NoChanges => 0x0C
      case OutOfEepromError => 0x0E
      case IllegalCommandCode => 0x1C
      case IntegrityError => 0x1E
      case NoSuchKey => 0x40
      case LengthError => 0x7E
      case PermissionDenied => 0x9D
      case ParameterError => 0x9E
      case ApplicationNotFound => 0xA0
      case ApplIntegrityError => 0xA1
      case AuthenticationError => 0xAE
      case AdditionalFrame => 0xAF
      case BoundaryError => 0xBE
      case PiccIntegrityError => 0xC1
      case CommandAborted => 0xCA
      case PiccDisabledError => 0xCD
      case CountError => 0xCE
      case DuplicateError => 0xDE
      case EepromError => 0xEE
      case FileNotFound => 0xF0
      case FileIntegrityError => 0xF1
    }
  }

  /** `Response.values()`, in declaration order. */
  const Statuses: seq<Status> := [
    OperationOk, NoChanges, OutOfEepromError, IllegalCommandCode,
    IntegrityError, NoSuchKey, LengthError, PermissionDenied,
    ParameterError, ApplicationNotFound, ApplIntegrityError,
    AuthenticationError, AdditionalFrame, BoundaryError,
    PiccIntegrityError, CommandAborted, PiccDisabledError, CountError,
    DuplicateError, EepromError, FileNotFound, FileIntegrityError]

  /** The enumeration lists every status and carries exactly the codes of
      `ApduResponse`, in the same order. */
  lemma StatusesMatchCodes()
    ensures |Statuses| == |Codes|
    ensures forall i :: 0 <= i < |Statuses| ==> Statuses[i].Code() == Codes[i]
  {
  }

  /** `Response.getResponse`: the first status whose code matches, or null. */
  method GetResponse(code: int32) returns (r: Option<Status>)
    ensures r.Some? <==> code in Codes
    ensures r.Some? ==> r.value.Code() == code
  {
    StatusesMatchCodes();
    var i := 0;
    while i < |Statuses|
      invariant 0 <= i <= |Statuses|
      invariant forall k :: 0 <= k < i ==> Codes[k] != code
    {
      if Statuses[i].Code() == code {
        return Some(Statuses[i]);
      }
      i := i + 1;
    }
    return None;
  }
}
