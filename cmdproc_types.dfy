/** Types and constants shared by the firmware's command front end
    (line accumulator, registry lookup and parser). */
module CmdProcTypes {

  /** Longest mnemonic the parser accepts (CMDPROC_MNEM_MAX_LEN). */
  const MNEM_MAX_LEN: nat := 16
  /** Longest argument token (CMDPROC_ARG_MAX_LEN; the argument buffer holds 17 bytes). */
  const ARG_MAX_LEN: nat := 16
  const ARG_BUF_SIZE: nat := 17
  /** Capacity of the raw line buffer; one byte is kept for the terminating NUL. */
  const INPUT_BUF_SIZE: nat := 33
  /** Room in the command record for left and right argument values. */
  const MAX_N_LEFTARGS: nat := 1
  const MAX_N_RIGHTARGS: nat := 1

  const LINE_TERMINATOR: char := '\r'
  const ARG_DELIMITER: char := ','
  const LEFTARGS_START_CH: char := ':'
  const SET_OP_CH: char := '='
  const QUERY_OP_CH: char := '?'
  const NUL: char := '\0'

  /** Bytes the accumulator drops wherever they appear. */
  predicate IsIgnored(ch: char) {
    ch == '\n' || ch == '\t' || ch == ' '
  }

  type uint8 = x: int | 0 <= x < 0x100
  type uint16 = x: int | 0 <= x < 0x1_0000

  /** The three command shapes (CMDTYPE_DO, CMDTYPE_QUERY, CMDTYPE_SET). */
  datatype CmdType = Do | Query | Set

  /** Argument slot types. The parser implements only UInt8, UInt16 and
      String; every other type is refused. */
  datatype ArgType = ArgString | ArgUInt8 | ArgUInt16 | ArgInt8 | ArgInt16

  /** One parsed argument: the uint8Val / uint16Val / stringVal union. */
  datatype ArgVal = UInt8Val(u8: uint8) | UInt16Val(u16: uint16) | StringVal(str: string)

  /** The tag of an argument value agrees with the slot type it was parsed for. */
  predicate HasType(v: ArgVal, t: ArgType) {
    match v
    case UInt8Val(_) => t == ArgUInt8
    case UInt16Val(_) => t == ArgUInt16
    case StringVal(_) => t == ArgString
  }

  /** Parse result codes: zero for success, otherwise the first error found. */
  datatype ParseError = NoError | ErrCmd | ErrNArgs | ErrArgFmt

  /** A registry entry: the argument contract of one (mnemonic, shape) pair.
      nLeftArgs / nRightArgs are the lengths of the type lists. */
  datatype CmdSpec = CmdSpec(
    cmdId: nat,
    cmdType: CmdType,
    mnem: string,
    leftArgTypes: seq<ArgType>,
    rightArgTypes: seq<ArgType>)

  /** An entry fits the fixed-size record: a NUL-free mnemonic of at most
      16 characters and no more argument types than the record has room for. */
  predicate SpecFits(s: CmdSpec) {
    |s.mnem| <= MNEM_MAX_LEN && NUL !in s.mnem &&
    |s.leftArgTypes| <= MAX_N_LEFTARGS && |s.rightArgTypes| <= MAX_N_RIGHTARGS
  }

  predicate RegistryFits(reg: seq<CmdSpec>) {
    forall i :: 0 <= i < |reg| ==> SpecFits(reg[i])
  }

  /** The parser's output record. When parseError is not NoError the
      argument lists are empty (the firmware leaves them unspecified). */
  datatype Command = Command(
    cmdType: CmdType,
    mnem: string,
    leftArgs: seq<ArgVal>,
    rightArgs: seq<ArgVal>,
    parseError: ParseError)

  datatype Result<T> = Ok(value: T) | Err(error: ParseError)
}
