/** The room-channel messages exchanged between a client and the room
    server, and the opaque handles that stand for transport objects. */
module Protocol {
  import opened Common

  /** 'view' | 'control' */
  datatype AccessType = View | Control

  /** Opaque handles for media streams, media calls and data channels
      owned by the external real-time transport. A call this client placed
      is known by the peer id it dialled; a call it received by a number. */
  datatype StreamHandle = StreamHandle(id: nat)
  datatype CallHandle = Incoming(id: nat) | Placed(peerId: string)
  datatype ConnHandle = ConnHandle(id: nat)

  /** Messages the server sends. */
  datatype ServerMessage =
    | ScreenShareStop(computerId: string)
    | ScreenShareRequest(requesterId: string, computerId: string, accessType: AccessType)
    | ScreenShareApproved(computerId: string, sharerId: string, accessType: AccessType)
    | ScreenShareDenied(computerId: string)

  /** An addressed notification to one session, or a broadcast to the room. */
  datatype Outbound = SendTo(sessionId: string, msg: ServerMessage) | Broadcast(msg: ServerMessage)

  /** Messages a client sends to the room. */
  datatype ClientMessage =
    | ReadyToConnect
    | VideoConnected
    | VideoDisconnected
    | EndCall
    | ConnectToComputer(computerId: string)
    | DisconnectFromComputer(computerId: string)
    | StartScreenShare(computerId: string)
    | StopScreenShare(computerId: string)
    /** SCREEN_SHARE_REQUEST; the client puts a type in the payload. */
    | RequestScreenShare(computerId: string, accessType: AccessType)
    /** REMOTE_CONTROL_REQUEST */
    | RequestRemoteControl(computerId: string)
    | RespondToRequest(requesterId: string, computerId: string, approved: bool, grantedType: Option<AccessType>)
}
