/** The two transition tables of the request parser, row by row, and the
    classification of bytes that drives the first of them. */
module HttpTables {

  type byte = b: int | 0 <= b < 256

  // Character states (hs_state). BR is the sink and has no row of its own.
  datatype State =
    | ST | MT | MS | TR | TS | VN | RR | RN | HK | HS | HV | HR | HE
    | ER | HN | BD | CS | CB | CE | CR | CN | CD | C1 | C2 | BR

  // Byte classes (hs_char_type).
  datatype CharType =
    | Spc | Nl | Cr | Coln | Tab | Scoln | Digit | Hex | Alpha | Tchar | Vchar | Etc

  // Meta states (hs_meta_state). ERR has no row of its own.
  datatype Meta =
    | WFK | ANY | MTE | MCL | CLV | MCK | SML | CHK | BIG | ZER | CSZ
    | CBD | LST | STR | SEN | BDY | END | ERR

  // Token types (hs_token).
  datatype TokenType =
    | TNone | TMethod | TTarget | TVersion | THeaderKey | THeaderVal
    | TChunkBody | TBody | TBodyStream | TReqEnd | TError

  // Meta events; the body phases reuse the first three columns.
  type Event = e: int | 0 <= e < 6
  const NOT_CONTENT_LEN: Event := 0
  const NOT_TRANSFER_ENC: Event := 1
  const END_KEY: Event := 2
  const END_VALUE: Event := 3
  const END_HEADERS: Event := 4
  const LARGE_BODY: Event := 5
  const NOT_CHUNKED: Event := 0
  const NON_ZERO: Event := 0
  const END_CHK_SIZE: Event := 1
  const END_CHUNK: Event := 2
  const NEXT: Event := 0

  /** The class of a byte. Bytes from 128 up are negative as a C char. */
  function Classify(c: byte): CharType {
    if c == 9 then Tab
    else if c == 10 then Nl
    else if c == 13 then Cr
    else if c < 32 then Etc
    else if c == 32 then Spc
    else if 48 <= c <= 57 then Digit
    else if c == 58 then Coln
    else if c == 59 then Scoln
    else if 65 <= c <= 70 || 97 <= c <= 102 then Hex
    else if 71 <= c <= 90 || 103 <= c <= 122 then Alpha
    else if c == 33 || 35 <= c <= 39 || 42 <= c <= 46
            || 94 <= c <= 96 || c == 124 || c == 126 then Tchar
    else if c < 127 then Vchar
    else Etc
  }

  function Pick(spc: State, nl: State, cr: State, coln: State, tab: State, scoln: State,
                digit: State, hex: State, alpha: State, tchar: State, vchar: State, etc: State,
                t: CharType): State
  {
    match t
    case Spc => spc   case Nl => nl   case Cr => cr   case Coln => coln
    case Tab => tab   case Scoln => scoln   case Digit => digit   case Hex => hex
    case Alpha => alpha   case Tchar => tchar   case Vchar => vchar   case Etc => etc
  }

  /** hs_transitions. */
  function Row(s: State, t: CharType): State
    requires s != BR
  {
    match s
    //                 spc \n  \r  :   \t  ;   0-9 hex g-z tch vch etc
    case ST => Pick(BR, BR, BR, BR, BR, BR, BR, MT, MT, MT, BR, BR, t)
    case MT => Pick(MS, BR, BR, BR, BR, BR, MT, MT, MT, MT, BR, BR, t)
    case MS => Pick(BR, BR, BR, BR, BR, BR, TR, TR, TR, TR, TR, BR, t)
    case TR => Pick(TS, BR, BR, TR, BR, TR, TR, TR, TR, TR, TR, BR, t)
    case TS => Pick(BR, BR, BR, BR, BR, BR, VN, VN, VN, VN, VN, BR, t)
    case VN => Pick(BR, BR, RR, BR, BR, BR, VN, VN, VN, VN, VN, BR, t)
    case RR => Pick(BR, RN, BR, BR, BR, BR, BR, BR, BR, BR, BR, BR, t)
    case RN => Pick(BR, BR, BR, BR, BR, BR, HK, HK, HK, HK, BR, BR, t)
    case HK => Pick(BR, BR, BR, HS, BR, BR, HK, HK, HK, HK, BR, BR, t)
    case HS => Pick(HS, HS, HS, HV, HS, HV, HV, HV, HV, HV, HV, BR, t)
    case HV => Pick(HV, BR, HR, HV, HV, HV, HV, HV, HV, HV, HV, BR, t)
    case HR => Pick(BR, HE, BR, BR, BR, BR, BR, BR, BR, BR, BR, BR, t)
    case HE => Pick(BR, BR, ER, BR, BR, BR, HK, HK, HK, HK, BR, BR, t)
    case ER => Pick(BR, HN, BR, BR, BR, BR, BR, BR, BR, BR, BR, BR, t)
    case HN => BD
    case BD => BD
    case CS => Pick(BR, BR, CR, BR, BR, CE, CS, CS, BR, BR, BR, BR, t)
    case CB => CB
    case CE => Pick(BR, BR, CR, CE, CE, CE, CE, CE, CE, CE, CE, BR, t)
    case CR => Pick(BR, CN, BR, BR, BR, BR, BR, BR, BR, BR, BR, BR, t)
    case CN => CB
    case CD => Pick(BR, BR, C1, BR, BR, BR, BR, BR, BR, BR, BR, BR, t)
    case C1 => Pick(BR, C2, BR, BR, BR, BR, BR, BR, BR, BR, BR, BR, t)
    case C2 => Pick(BR, BR, BR, BR, BR, BR, CS, CS, BR, BR, BR, BR, t)
  }

  function PickMeta(a: Meta, b: Meta, c: Meta, d: Meta, e: Meta, f: Meta, event: Event): Meta {
    if event == 0 then a else if event == 1 then b else if event == 2 then c
    else if event == 3 then d else if event == 4 then e else f
  }

  /** hs_meta_transitions. */
  function MetaRow(m: Meta, event: Event): Meta
    requires m != ERR
  {
    match m
    //                    not cl not te endkey endval end h large
    case WFK => PickMeta(WFK, WFK, WFK, ANY, END, ERR, event)
    case ANY => PickMeta(MTE, MCL, WFK, ERR, END, ERR, event)
    case MTE => PickMeta(MTE, WFK, MCK, ERR, ERR, ERR, event)
    case MCL => PickMeta(WFK, MCL, CLV, ERR, ERR, ERR, event)
    case CLV => PickMeta(ERR, ERR, ERR, SML, ERR, ERR, event)
    case MCK => PickMeta(WFK, ERR, ERR, CHK, ERR, ERR, event)
    case SML => PickMeta(SML, SML, SML, SML, BDY, BIG, event)
    case CHK => PickMeta(CHK, CHK, CHK, CHK, ZER, ERR, event)
    case BIG => PickMeta(BIG, BIG, BIG, BIG, STR, ERR, event)
    //                    nonzer endsz endchk
    case ZER => PickMeta(CSZ, LST, ERR, ERR, ERR, ERR, event)
    case CSZ => PickMeta(CSZ, CBD, ERR, ERR, ERR, ERR, event)
    case CBD => PickMeta(CBD, CBD, ZER, ERR, ERR, ERR, event)
    case LST => PickMeta(LST, END, END, ERR, ERR, ERR, event)
    //                    next
    case STR => PickMeta(SEN, ERR, ERR, ERR, ERR, ERR, event)
    case SEN => PickMeta(END, ERR, ERR, ERR, ERR, ERR, event)
    case BDY => PickMeta(END, ERR, ERR, ERR, ERR, ERR, event)
    case END => PickMeta(WFK, ERR, ERR, ERR, ERR, ERR, event)
  }

  /** hs_token_start_states. */
  function StartToken(s: State): TokenType {
    match s
    case MT => TMethod
    case TR => TTarget
    case VN => TVersion
    case HK => THeaderKey
    case HV => THeaderVal
    case BD => TBody
    case CB => TChunkBody
    case _ => TNone
  }

  function Lower(c: byte): byte {
    if 65 <= c <= 90 then c + 32 else c
  }

  predicate IsDigit(c: byte) { 48 <= c <= 57 }

  /** The value a chunk size digit adds; other bytes that reach CS add nothing. */
  function HexValue(c: byte): int {
    if 65 <= c <= 70 then c - 55
    else if 97 <= c <= 102 then c - 87
    else if IsDigit(c) then c - 48
    else -1
  }

  // The words the meta machine matches, as bytes.
  const TRANSFER_ENCODING: seq<byte> :=
    [116, 114, 97, 110, 115, 102, 101, 114, 45, 101, 110, 99, 111, 100, 105, 110, 103]
  const CONTENT_LENGTH: seq<byte> :=
    [99, 111, 110, 116, 101, 110, 116, 45, 108, 101, 110, 103, 116, 104]
  const CHUNKED: seq<byte> := [99, 104, 117, 110, 107, 101, 100]

  // Configured limits.
  const MAX_TOKEN_LENGTH := 8192
  const MAX_REQUEST_BUF_SIZE := 8388608
  const REQUEST_BUF_SIZE := 1024
  const MAX_HEADER_COUNT := 127
  const INT_MAX := 0x7fff_ffff
  const INT64_MAX := 0x7fff_ffff_ffff_ffff
}
