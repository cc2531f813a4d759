/** The DESFire native instruction codes (`ApduCommand`, and the `Command`
    enumeration of `DESFireEV1`, which holds the same codes except
    ADDITIONAL_FRAME, written there as the literal 0xAF). */
module Commands {
  import opened Bytes
  import opened Wrappers

  datatype Instruction =
    | CreateApplication | DeleteApplication | GetApplicationIds | GetFreeMemory
    | GetVersion | FormatPicc | SetConfiguration
    | SelectApplication | GetFileIds | GetFileSettings | ChangeFileSettings
    | CreateStdDataFile | CreateBackupDataFile | CreateLinearRecordFile
    | CreateCyclicRecordFile | DeleteFile
    | ReadData | WriteData | GetValue | Credit | Debit | LimitedCredit
    | WriteRecord | ReadRecords | ClearRecordFile | CommitTransaction | AbortTransaction
    | AuthenticateDes2k3des | Authenticate3k3des | AuthenticateAes
    | ChangeKeySettings | GetKeySettings | ChangeKey | GetKeyVersion
    | AdditionalFrame | GetCardUid
  {
    /** The instruction byte. */
    function Code(): byte {
      match this
      case CreateApplication => 0xCA
      case DeleteApplication => 0xDA
      case GetApplicationIds => 0x6A
      case GetFreeMemory => 0x6E
      case GetVersion => 0x60
      case FormatPicc => 0xFC
      case SetConfiguration => 0x5C
      case SelectApplication => 0x5A
      case GetFileIds => 0x6F
      case GetFileSettings => 0xF5
      case ChangeFileSettings => 0x5F
      case CreateStdDataFile => 0xCD
      case CreateBackupDataFile => 0xCB
      case CreateLinearRecordFile => 0xC1
      case CreateCyclicRecordFile => 0xC0
      case DeleteFile => 0xDF
      case ReadData => 0xBD
      case WriteData => 0x3D
      case GetValue => 0x6C
      case Credit => 0x0C
      case Debit => 0xDC
      case LimitedCredit => 0x1C
      case WriteRecord => 0x3B
      case ReadRecords => 0xBB
      case ClearRecordFile => 0xEB
      case CommitTransaction => 0xC7
      case AbortTransaction => 0xA7
      case AuthenticateDes2k3des => 0x0A
      case Authenticate3k3des => 0x1A
      case AuthenticateAes => 0xAA
      case ChangeKeySettings => 0x54
      case GetKeySettings => 0x45
      case ChangeKey => 0xC4
      case GetKeyVersion => 0x64
      case AdditionalFrame => 0xAF
      case GetCardUid => 0x51
    }
  }

  /** The instruction a code byte stands for, if any. */
  function InstructionOf(b: byte): Option<Instruction> {
    match b
    case 0xCA => Some(CreateApplication)
    case 0xDA => Some(DeleteApplication)
    case 0x6A => Some(GetApplicationIds)
    case 0x6E => Some(GetFreeMemory)
    case 0x60 => Some(GetVersion)
    case 0xFC => Some(FormatPicc)
    case 0x5C => Some(SetConfiguration)
    case 0x5A => Some(SelectApplication)
    case 0x6F => Some(GetFileIds)
    case 0xF5 => Some(GetFileSettings)
    case 0x5F => Some(ChangeFileSettings)
    case 0xCD => Some(CreateStdDataFile)
    case 0xCB => Some(CreateBackupDataFile)
    case 0xC1 => Some(CreateLinearRecordFile)
    case 0xC0 => Some(CreateCyclicRecordFile)
    case 0xDF => Some(DeleteFile)
    case 0xBD => Some(ReadData)
    case 0x3D => Some(WriteData)
    case 0x6C => Some(GetValue)
    case 0x0C => Some(Credit)
    case 0xDC => Some(Debit)
    case 0x1C => Some(LimitedCredit)
    case 0x3B => Some(WriteRecord)
    case 0xBB => Some(ReadRecords)
    case 0xEB => Some(ClearRecordFile)
    case 0xC7 => Some(CommitTransaction)
    case 0xA7 => Some(AbortTransaction)
    case 0x0A => Some(AuthenticateDes2k3des)
    case 0x1A => Some(Authenticate3k3des)
    case 0xAA => Some(AuthenticateAes)
    case 0x54 => Some(ChangeKeySettings)
    case 0x45 => Some(GetKeySettings)
    case 0xC4 => Some(ChangeKey)
    case 0x64 => Some(GetKeyVersion)
    case 0xAF => Some(AdditionalFrame)
    case 0x51 => Some(GetCardUid)
    case _ => None
  }

  /** Every instruction is recovered from its code. */
  lemma InstructionOfCode(i: Instruction)
    ensures InstructionOf(i.Code()) == Some(i)
  {
  }

  /** No two instructions share a code. */
  lemma CodesDistinct(i: Instruction, j: Instruction)
    requires i.Code() == j.Code()
    ensures i == j
  {
    InstructionOfCode(i);
    InstructionOfCode(j);
  }
}
