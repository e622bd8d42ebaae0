/** ShareScreenManager: the host side of a computer's screen share (the
    captured stream, the computer being shared, the calls and control
    channels opened to approved viewers) and the viewer side's bookkeeping
    of incoming streams and control channels. */
module ShareScreen {
  import opened Common
  import opened Protocol
  import CS = ComputerStore
  import opened ClientRuntime

  /** makePeerId: the screen-share peer id of a session. */
  function MakePeerId(id: string): (peerId: string)
    ensures |peerId| == |id| + 3
    ensures peerId[|id|..] == "-ss"
    ensures forall i :: 0 <= i < |id| ==> IsAlnum(peerId[i])
    ensures forall i :: 0 <= i < |id| ==> peerId[i] == (if IsAlnum(id[i]) then id[i] else 'G')
  {
    ReplaceNonAlnum(id) + "-ss"
  }

  /** A screen-share peer id never equals a sanitised session id, which is
      what the camera connections use: the two kinds of peer never clash. */
  lemma ScreenPeerIdIsNotACameraPeerId(id: string, other: string)
    ensures MakePeerId(id) != ReplaceNonAlnum(other)
  {
    var p, q := MakePeerId(id), ReplaceNonAlnum(other);
    if |p| == |q| {
      assert p[|id|] == '-' && !IsAlnum(p[|id|]);
      assert IsAlnum(q[|id|]);
    }
  }

  /** Two sessions get the same screen-share peer id exactly when their
      sanitised ids agree. */
  lemma MakePeerIdCollidesWithSanitisedIds(a: string, b: string)
    ensures MakePeerId(a) == MakePeerId(b) <==> ReplaceNonAlnum(a) == ReplaceNonAlnum(b)
  {
    if MakePeerId(a) == MakePeerId(b) {
      assert |a| == |b|;
      assert ReplaceNonAlnum(a) == MakePeerId(a)[..|a|];
      assert ReplaceNonAlnum(b) == MakePeerId(b)[..|b|];
    }
  }

  /** Something the manager asked the peer transport to open. */
  datatype Dial = MediaCall(peerId: string) | DataChannel(peerId: string)

  /** The dials onUserApproved makes for a viewer: a media call always, a
      data channel only for control. */
  function ApprovalDials(viewerId: string, t: AccessType): (ds: seq<Dial>)
    ensures |ds| >= 1 && ds[0] == MediaCall(MakePeerId(viewerId))
    ensures DataChannel(MakePeerId(viewerId)) in ds <==> t == Control
    ensures forall d :: d in ds ==> d.peerId == MakePeerId(viewerId)
  {
    [MediaCall(MakePeerId(viewerId))] + (if t == Control then [DataChannel(MakePeerId(viewerId))] else [])
  }

  class ShareScreenManager {
    var myStream: Option<StreamHandle>
    /** peer id -> open control channel */
    var dataConnections: map<string, ConnHandle>
    /** The computer being shared, kept for the cleanup. */
    var sharingComputerId: Option<string>
    /** Every call and channel this manager opened, in order. */
    var dialled: seq<Dial>
    /** The manager's own peer id. */
    const peerId: string
    const client: Client

    /** A computer announced as shared has a captured stream behind it. */
    predicate Valid()
      reads this
    {
      Truthy(sharingComputerId) ==> myStream.Some?
    }

    constructor (userId: string, client: Client)
      ensures Valid() && peerId == MakePeerId(userId) && this.client == client
      ensures myStream.None? && dataConnections == map[] && sharingComputerId.None? && dialled == []
    {
      peerId := MakePeerId(userId);
      this.client := client;
      myStream := None;
      dataConnections := map[];
      sharingComputerId := None;
      dialled := [];
    }

    /** startScreenShare, once the display capture has settled: `capture`
        is the captured stream, or None when the capture was refused. A
        refused capture changes nothing. Otherwise the stream is kept, the
        store's current computer is remembered and the stream is published
        to the store; a non-empty computer id is announced to the room. */
    method StartScreenShare(capture: Option<StreamHandle>)
      requires Valid()
      modifies this, client
      ensures Valid() && dataConnections == old(dataConnections) && dialled == old(dialled)
      ensures capture.None? ==>
                myStream == old(myStream) && sharingComputerId == old(sharingComputerId)
                && client.State() == old(client.State())
      ensures capture.Some? ==>
                && myStream == capture
                && sharingComputerId == old(client.computer.computerId)
                && client.State() == ApplyAll(old(client.State()),
                     [DispatchComputer(CS.SetMyStream(capture))]
                     + (if Truthy(sharingComputerId) then [Send(Protocol.StartScreenShare(sharingComputerId.value))] else []),
                     client.sanitize)
    {
      if capture.None? {
        return;
      }
      myStream := capture;
      sharingComputerId := client.computer.computerId;
      var effects := [DispatchComputer(CS.SetMyStream(capture))]
                     + (if Truthy(sharingComputerId) then [Send(Protocol.StartScreenShare(sharingComputerId.value))] else []);
      client.PerformAll(effects);
    }

    /** stopScreenShare: the stream is dropped, every control channel is
        closed and forgotten, the store's stream is cleared, and a shared
        computer is announced stopped and forgotten. */
    method StopScreenShare()
      requires Valid()
      modifies this, client
      ensures Valid() && dialled == old(dialled)
      ensures myStream.None? && dataConnections == map[]
      ensures !Truthy(sharingComputerId)
      ensures sharingComputerId == if Truthy(old(sharingComputerId)) then None else old(sharingComputerId)
      ensures client.State() == old(client.State()).(
                computer := old(client.computer).(myStream := None),
                sent := old(client.sent) + (if Truthy(old(sharingComputerId)) then [Protocol.StopScreenShare(old(sharingComputerId).value)] else []),
                closedConns := old(client.closedConns) + ValuesOf(old(dataConnections)))
    {
      myStream := None;
      CloseAll(dataConnections);
      dataConnections := map[];
      client.Perform(DispatchComputer(CS.SetMyStream(None)));
      if Truthy(sharingComputerId) {
        client.Perform(Send(Protocol.StopScreenShare(sharingComputerId.value)));
        sharingComputerId := None;
      }
    }

    /** `dataConnections.forEach((conn) => conn.close())` */
    method CloseAll(conns: map<string, ConnHandle>)
      modifies client
      ensures client.State() == old(client.State()).(closedConns := old(client.closedConns) + ValuesOf(conns))
    {
      var todo := conns.Keys;
      while todo != {}
        invariant todo <= conns.Keys
        invariant client.State() == old(client.State()).(
                    closedConns := old(client.closedConns) + set q | q in conns && q !in todo :: conns[q])
        decreases todo
      {
        var p :| p in todo;
        client.Perform(CloseConn(conns[p]));
        todo := todo - {p};
      }
    }

    /** onUserApproved: with a stream, the viewer is called, and a control
        channel is opened to it for control access; without one nothing
        happens. */
    method OnUserApproved(viewerId: string, t: AccessType)
      modifies this
      ensures myStream == old(myStream) && dataConnections == old(dataConnections)
      ensures sharingComputerId == old(sharingComputerId)
      ensures dialled == old(dialled) + (if myStream.Some? then ApprovalDials(viewerId, t) else [])
    {
      if myStream.None? {
        return;
      }
      dialled := dialled + ApprovalDials(viewerId, t);
    }

    /** A data connection opened, incoming or opened by onUserApproved: it
        is kept under its peer id, replacing an earlier one. */
    method OnConnectionOpen(peer: string, conn: ConnHandle)
      requires Valid()
      modifies this
      ensures Valid() && dataConnections == old(dataConnections)[peer := conn]
      ensures myStream == old(myStream) && sharingComputerId == old(sharingComputerId) && dialled == old(dialled)
    {
      dataConnections := dataConnections[peer := conn];
    }

    /** A data connection closed: its peer id is forgotten. */
    method OnConnectionClose(peer: string)
      requires Valid()
      modifies this
      ensures Valid() && dataConnections == old(dataConnections) - {peer}
      ensures myStream == old(myStream) && sharingComputerId == old(sharingComputerId) && dialled == old(dialled)
    {
      dataConnections := dataConnections - {peer};
    }

    /** An answered screen-share call delivered its stream: it is stored
        under the caller's peer id. */
    method OnRemoteStream(peer: string, call: CallHandle, stream: StreamHandle)
      modifies client
      ensures client.State() == Apply(old(client.State()), DispatchComputer(CS.AddVideoStream(peer, call, stream)), client.sanitize)
    {
      client.Perform(DispatchComputer(CS.AddVideoStream(peer, call, stream)));
    }

    /** A screen-share call closed: its stream is removed. */
    method OnRemoteCallClosed(peer: string)
      modifies client
      ensures client.State() == Apply(old(client.State()), DispatchComputer(CS.RemoveVideoStream(peer)), client.sanitize)
    {
      client.Perform(DispatchComputer(CS.RemoveVideoStream(peer)));
    }

    /** onUserLeft: the user's screen-share stream is removed from the
        store, and its control channel, if any, is closed and forgotten;
        every other channel stays. */
    method OnUserLeft(userId: string)
      requires Valid()
      modifies this, client
      ensures Valid() && dataConnections == old(dataConnections) - {MakePeerId(userId)}
      ensures myStream == old(myStream) && sharingComputerId == old(sharingComputerId) && dialled == old(dialled)
      ensures var p := MakePeerId(userId);
              client.State() == old(client.State()).(
                computer := old(client.computer).(peerStreams := old(client.computer).peerStreams - {client.sanitize(p)}),
                closedConns := old(client.closedConns) + (if p in old(dataConnections) then {old(dataConnections)[p]} else {}))
    {
      var p := MakePeerId(userId);
      client.Perform(DispatchComputer(CS.RemoveVideoStream(p)));
      if p in dataConnections {
        client.Perform(CloseConn(dataConnections[p]));
        dataConnections := dataConnections - {p};
      }
    }
  }
}
