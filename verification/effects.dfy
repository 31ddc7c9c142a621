/**
 * The observable effects of the callback: calls on the network handler, on
 * the tag reader, on the APDU service, on the daemon configuration and on the
 * workaround thread. A run of the callback is described by the ordered list of
 * the effects it causes.
 */
module Effects {
  import opened Messages

  /** The side a relayed exchange is reported under to the sink manager. */
  datatype SinkSource = Hce | CardSide

  datatype Effect =
    // notifications and requests to the network handler
    | NotifyInvalidMsgFormat
    | NotifyUnknownMessageType
    | NotifyNotImplemented
    | NotifyNfcNotConnected
    | SinkExchange(from: SinkSource, bytes: Bytes)
    | SinkAnticol(atqa: Bytes, sak: Byte, hist: Bytes, uid: Bytes)
    | SendApduReply(reply: Bytes)
    | SendKeepaliveReply
    | PartnerApduMode(on: bool)
    | PartnerReaderMode(on: bool)
    | PartnerNfcLost
    | SessionCreateFailed(code: int)
    | SessionCreated(secret: string)
    | SessionJoinFailed(code: int)
    | SessionJoined
    | SessionLeaveFailed(code: int)
    | SessionLeft
    | PartnerJoined
    | PartnerLeft
    | SendAnticol(atqa: Bytes, sak: Byte, hist: Bytes, uid: Bytes)
    | CardWorkaroundConnected
    // calls on the tag reader
    | SendCmd(cmd: Bytes)
    | CloseConnection
    // call on the APDU service
    | SendResponse(response: Bytes)
    // calls on the daemon configuration
    | UploadConfiguration(atqaByte: Byte, sakByte: Byte, histByte: Byte, uid: Bytes)
    | EnablePatch
    // the workaround thread and the transport callback
    | InterruptWorkaround
    | StartWorkaround
    | RegisterCallback
  {
    /** A call on the tag reader or on the APDU service, or the forwarding of
        a card reply; these are the relay's effects. */
    predicate IsRelayTraffic() {
      SendCmd? || CloseConnection? || SendResponse? || SendApduReply?
    }
  }
}
