/** The `computer` slice of the client's redux store: the host dialog, the
    viewer's request dialog, the host's incoming-request popup, the
    access-denied flag and the screen-share streams. Each reducer is a
    function from the old slice to the new one, together with the side
    effects it performs on the game and the room connection. */
module ComputerStore {
  import opened Common
  import opened Protocol

  /** 'host' | 'viewer' */
  datatype Mode = Host | Viewer

  /** An opaque reference to the ShareScreenManager the store holds. */
  datatype ManagerHandle = ManagerHandle(id: nat)

  datatype PeerStreamData = PeerStreamData(stream: StreamHandle, call: CallHandle)

  datatype ViewerRequestDialog = ViewerRequestDialog(open: bool, computerId: Option<string>, hostId: Option<string>)

  datatype IncomingRequest = IncomingRequest(
    open: bool,
    requesterId: Option<string>,
    requesterName: Option<string>,
    requestType: Option<AccessType>)

  datatype ComputerState = ComputerState(
    computerDialogOpen: bool,
    computerId: Option<string>,
    mode: Option<Mode>,
    hostId: Option<string>,
    myStream: Option<StreamHandle>,
    peerStreams: map<string, PeerStreamData>,
    shareScreenManager: Option<ManagerHandle>,
    viewerRequestDialog: ViewerRequestDialog,
    incomingRequest: IncomingRequest,
    accessDenied: bool)

  const ClosedViewerDialog := ViewerRequestDialog(false, None, None)
  const NoIncomingRequest := IncomingRequest(false, None, None, None)

  /** The actions of computerSlice. */
  datatype Action =
    | SetShareScreenManager(manager: Option<ManagerHandle>)
    | OpenHostComputerDialog(computerId: string, hostId: string)
    | OpenViewerRequestDialog(computerId: string, hostId: string)
    | CloseViewerRequestDialog
    | ShowIncomingAccessRequest(requesterId: string, requesterName: string, requestType: AccessType)
    | ClearIncomingAccessRequest
    | ShowAccessDeniedMessage
    | ClearAccessDeniedMessage
    | CloseComputerDialog
    | SetMyStream(myStream: Option<StreamHandle>)
    | AddVideoStream(id: string, call: CallHandle, stream: StreamHandle)
    | RemoveVideoStream(id: string)

  /** A reducer's outcome: the new slice, the messages it sent to the room,
      the game keyboard's new enabled flag if it set one, and the calls whose
      `close()` it invoked. */
  datatype Reduced = Reduced(
    next: ComputerState,
    sent: seq<ClientMessage>,
    keysEnabled: Option<bool>,
    closedCalls: set<CallHandle>)

  /** The shape every reachable slice has: the host dialog's open flag, its
      mode and its two ids move together, and each sub-record is either
      closed with every field null or open with every field set. */
  predicate WellFormed(s: ComputerState) {
    && s.mode == (if s.computerDialogOpen then Some(Host) else None)
    && s.computerId.Some? == s.computerDialogOpen
    && s.hostId.Some? == s.computerDialogOpen
    && (s.viewerRequestDialog.open ==> s.viewerRequestDialog.computerId.Some? && s.viewerRequestDialog.hostId.Some?)
    && (!s.viewerRequestDialog.open ==> s.viewerRequestDialog == ClosedViewerDialog)
    && (s.incomingRequest.open ==>
          s.incomingRequest.requesterId.Some? && s.incomingRequest.requesterName.Some? && s.incomingRequest.requestType.Some?)
    && (!s.incomingRequest.open ==> s.incomingRequest == NoIncomingRequest)
  }

  /** initialState: every dialog closed, every id, the mode and the stream
      null, no peer streams, no manager and no denial shown. */
  function InitialState(): (s: ComputerState)
    ensures WellFormed(s)
    ensures !s.computerDialogOpen && s.mode.None? && s.computerId.None? && s.hostId.None?
    ensures s.myStream.None? && s.peerStreams == map[] && s.shareScreenManager.None? && !s.accessDenied
    ensures !s.viewerRequestDialog.open && !s.incomingRequest.open
  {
    ComputerState(false, None, None, None, None, map[], None, ClosedViewerDialog, NoIncomingRequest, false)
  }

  /** The calls held in a peer-stream map. */
  function CallsOf(streams: map<string, PeerStreamData>): (calls: set<CallHandle>)
    ensures forall id :: id in streams ==> streams[id].call in calls
    ensures forall c :: c in calls ==> exists id :: id in streams && streams[id].call == c
  {
    set id | id in streams :: streams[id].call
  }

  /** computerSlice's reducer. `sanitize` is the client's sanitizeId, which
      keys the peer-stream map. Every reducer keeps the slice well formed. */
  function Reduce(s: ComputerState, a: Action, sanitize: string -> string): (r: Reduced)
    ensures WellFormed(s) ==> WellFormed(r.next)
    ensures r.keysEnabled.Some? <==> a.OpenHostComputerDialog? || a.CloseComputerDialog?
    ensures r.sent != [] ==> a.CloseComputerDialog?
    ensures r.closedCalls != {} ==> a.CloseComputerDialog?
    ensures a.SetShareScreenManager? ==> r.next == s.(shareScreenManager := a.manager)
    ensures a.OpenHostComputerDialog? ==>
              r.next == s.(computerDialogOpen := true, computerId := Some(a.computerId), mode := Some(Host), hostId := Some(a.hostId))
    ensures a.CloseViewerRequestDialog? ==> r.next == s.(viewerRequestDialog := ClosedViewerDialog)
    ensures a.ShowIncomingAccessRequest? ==>
              r.next == s.(incomingRequest := IncomingRequest(true, Some(a.requesterId), Some(a.requesterName), Some(a.requestType)))
    ensures a.ClearIncomingAccessRequest? ==> r.next == s.(incomingRequest := NoIncomingRequest)
    ensures a.ShowAccessDeniedMessage? || a.ClearAccessDeniedMessage? ==> r.next == s.(accessDenied := a.ShowAccessDeniedMessage?)
    ensures a.OpenViewerRequestDialog? ==>
              r.next == s.(viewerRequestDialog := ViewerRequestDialog(true, Some(a.computerId), Some(a.hostId)))
    ensures a.SetMyStream? ==> r.next == s.(myStream := a.myStream)
    ensures a.AddVideoStream? ==> r.next == s.(peerStreams := s.peerStreams[sanitize(a.id) := PeerStreamData(a.stream, a.call)])
    ensures a.RemoveVideoStream? ==> r.next == s.(peerStreams := s.peerStreams - {sanitize(a.id)})
  {
    match a
    case SetShareScreenManager(manager) =>
      Reduced(s.(shareScreenManager := manager), [], None, {})
    case OpenHostComputerDialog(computerId, hostId) =>
      var next := s.(computerDialogOpen := true, computerId := Some(computerId), mode := Some(Host), hostId := Some(hostId));
      Reduced(next, [], Some(false), {})
    case OpenViewerRequestDialog(computerId, hostId) =>
      Reduced(s.(viewerRequestDialog := ViewerRequestDialog(true, Some(computerId), Some(hostId))), [], None, {})
    case CloseViewerRequestDialog =>
      Reduced(s.(viewerRequestDialog := ClosedViewerDialog), [], None, {})
    case ShowIncomingAccessRequest(requesterId, requesterName, requestType) =>
      var request := IncomingRequest(true, Some(requesterId), Some(requesterName), Some(requestType));
      Reduced(s.(incomingRequest := request), [], None, {})
    case ClearIncomingAccessRequest =>
      Reduced(s.(incomingRequest := NoIncomingRequest), [], None, {})
    case ShowAccessDeniedMessage =>
      Reduced(s.(accessDenied := true), [], None, {})
    case ClearAccessDeniedMessage =>
      Reduced(s.(accessDenied := false), [], None, {})
    case CloseComputerDialog =>
      var sent := if Truthy(s.computerId) then [DisconnectFromComputer(s.computerId.value)] else [];
      var next := s.(computerDialogOpen := false, computerId := None, mode := None, hostId := None,
                     myStream := None, peerStreams := map[]);
      Reduced(next, sent, Some(true), CallsOf(s.peerStreams))
    case SetMyStream(myStream) =>
      Reduced(s.(myStream := myStream), [], None, {})
    case AddVideoStream(id, call, stream) =>
      Reduced(s.(peerStreams := s.peerStreams[sanitize(id) := PeerStreamData(stream, call)]), [], None, {})
    case RemoveVideoStream(id) =>
      Reduced(s.(peerStreams := s.peerStreams - {sanitize(id)}), [], None, {})
  }

  /* ---------------- properties of the reducers ---------------- */

  /** openHostComputerDialog opens the host dialog in host mode for the
      given computer and host, disables the game keyboard, and touches
      nothing else. */
  lemma OpenHostDialogShowsHost(s: ComputerState, computerId: string, hostId: string, sanitize: string -> string)
    ensures var r := Reduce(s, OpenHostComputerDialog(computerId, hostId), sanitize);
            && r.next.computerDialogOpen && r.next.mode == Some(Host)
            && r.next.computerId == Some(computerId) && r.next.hostId == Some(hostId)
            && r.keysEnabled == Some(false) && r.sent == []
            && r.next.peerStreams == s.peerStreams && r.next.myStream == s.myStream
            && r.next.viewerRequestDialog == s.viewerRequestDialog && r.next.incomingRequest == s.incomingRequest
            && r.next.shareScreenManager == s.shareScreenManager && r.next.accessDenied == s.accessDenied
  {
  }

  /** Closing the viewer's request dialog, or clearing the incoming request,
      puts that sub-record back in its initial closed, all-null shape. */
  lemma ClosingRestoresInitialShape(s: ComputerState, sanitize: string -> string)
    ensures Reduce(s, CloseViewerRequestDialog, sanitize).next.viewerRequestDialog == InitialState().viewerRequestDialog
    ensures Reduce(s, ClearIncomingAccessRequest, sanitize).next.incomingRequest == InitialState().incomingRequest
  {
  }

  /** Showing and clearing the denial message each set the flag outright,
      so repeating either one changes nothing further. */
  lemma DeniedMessageIsIdempotent(s: ComputerState, a: Action, sanitize: string -> string)
    requires a == ShowAccessDeniedMessage || a == ClearAccessDeniedMessage
    ensures Reduce(s, a, sanitize).next.accessDenied == a.ShowAccessDeniedMessage?
    ensures var once := Reduce(s, a, sanitize).next;
            Reduce(once, a, sanitize).next == once
  {
  }

  /** closeComputerDialog resets the host dialog and its streams, enables
      the keyboard, closes every peer call, sends a disconnect only for a
      non-empty computer id, and leaves the viewer dialog, the incoming
      request, the denial flag and the manager untouched. */
  lemma CloseComputerDialogResets(s: ComputerState, sanitize: string -> string)
    ensures var r := Reduce(s, CloseComputerDialog, sanitize);
            && !r.next.computerDialogOpen && r.next.computerId.None? && r.next.mode.None? && r.next.hostId.None?
            && r.next.myStream.None? && r.next.peerStreams == map[]
            && r.next.viewerRequestDialog == s.viewerRequestDialog && r.next.incomingRequest == s.incomingRequest
            && r.next.accessDenied == s.accessDenied && r.next.shareScreenManager == s.shareScreenManager
            && r.keysEnabled == Some(true)
            && (forall id :: id in s.peerStreams ==> s.peerStreams[id].call in r.closedCalls)
            && (r.sent == if Truthy(s.computerId) then [DisconnectFromComputer(s.computerId.value)] else [])
  {
  }

  /** Adding a video stream and removing it under the same id leaves that
      sanitised key absent and every other key as it was. */
  lemma AddThenRemoveVideoStream(s: ComputerState, id: string, call: CallHandle, stream: StreamHandle, sanitize: string -> string)
    ensures var added := Reduce(s, AddVideoStream(id, call, stream), sanitize).next;
            var removed := Reduce(added, RemoveVideoStream(id), sanitize).next;
            && sanitize(id) !in removed.peerStreams
            && (forall k :: k != sanitize(id) ==> (k in removed.peerStreams <==> k in s.peerStreams))
            && (forall k :: k in removed.peerStreams ==> removed.peerStreams[k] == s.peerStreams[k])
            && removed == s.(peerStreams := s.peerStreams - {sanitize(id)})
  {
  }

  /** Two ids that sanitise alike share one peer-stream entry: the second
      add replaces the first. */
  lemma SanitizedIdsShareAnEntry(s: ComputerState, id1: string, id2: string, c1: CallHandle, c2: CallHandle,
                                 st1: StreamHandle, st2: StreamHandle, sanitize: string -> string)
    requires sanitize(id1) == sanitize(id2)
    ensures var once := Reduce(s, AddVideoStream(id1, c1, st1), sanitize).next;
            var twice := Reduce(once, AddVideoStream(id2, c2, st2), sanitize).next;
            twice.peerStreams == s.peerStreams[sanitize(id1) := PeerStreamData(st2, c2)]
  {
  }
}
