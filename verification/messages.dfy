/**
 * The decoded inbound messages: the MetaMessage wrapper and the five payload
 * kinds it may carry. Parsing the protobuf wire format is not modelled; a
 * parse result is either a wrapper or `Malformed`.
 */
module Messages {
  import opened Wrappers

  /** A Java `byte`: signed, eight bits. */
  newtype Byte = b: int | -128 <= b < 128

  type Bytes = seq<Byte>

  /** The error code of a server Data message. An enum value the client does
      not know arrives as `UnrecognizedErrcode`. */
  datatype DataErrorCode =
    | ErrorNoSession
    | ErrorTransmissionFailed
    | ErrorUnknown
    | ErrorNoError
    | UnrecognizedErrcode(raw: int)

  /** The result of parsing a byte array as a wrapper. */
  datatype Decoded = Parsed(wrapper: Wrapper) | Malformed

  /** A server Data message: an optional blob holding a nested wrapper
      (already parsed here) and an optional error code. */
  datatype Data = Data(blob: Option<Decoded>, errcode: Option<DataErrorCode>)

  datatype DataSource = Reader | Card

  /** One half of a reader/card exchange, tagged with the side that produced it. */
  datatype NfcData = NfcData(source: DataSource, bytes: Bytes)

  datatype SessionOpcode =
    | CreateSuccess
    | CreateFail
    | JoinSuccess
    | JoinFail
    | LeaveSuccess
    | LeaveFail
    | PeerJoined
    | PeerLeft
    | UnrecognizedOpcode(raw: int)
  {
    /** The failure opcodes, which carry an error code. */
    predicate CarriesErrcode() {
      CreateFail? || JoinFail? || LeaveFail?
    }
  }

  /** A session message. Absent protobuf fields read as their defaults
      (error code 0, empty secret), so both are always present here. */
  datatype Session = Session(opcode: SessionOpcode, errcode: int, secret: string)

  datatype StatusCode =
    | KeepaliveReq
    | KeepaliveRep
    | NotImplemented
    | UnknownError
    | UnknownMessage
    | InvalidMsgFmt
    | ReaderFound
    | ReaderRemoved
    | CardFound
    | CardRemoved
    | NfcNoConn
    | UnrecognizedStatus(raw: int)
  {
    /** The codes the client only logs. */
    predicate IsInformational() {
      KeepaliveRep? || NotImplemented? || UnknownError? || UnknownMessage? || InvalidMsgFmt?
    }
  }

  datatype Status = Status(code: StatusCode)

  /** Anticollision data of a tag, every field as a raw byte array. */
  datatype Anticol = Anticol(uid: Bytes, atqa: Bytes, sak: Bytes, hist: Bytes)

  /** The MetaMessage wrapper: which of its oneof cases is set. */
  datatype Wrapper =
    | DataMsg(data: Data)
    | NfcDataMsg(nfc: NfcData)
    | SessionMsg(session: Session)
    | StatusMsg(status: Status)
    | AnticolMsg(anticol: Anticol)
    | NoMessage
}
