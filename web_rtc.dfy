/** WebRTC: the camera connections of the proximity chat. Incoming calls
    are answered at once when the local camera stream exists and are held
    back otherwise; capturing the camera answers the held calls and calls
    every other player; stopping the camera closes everything. */
module WebRtc {
  import opened Common
  import opened Protocol
  import WS = WebcamStore
  import opened ClientRuntime

  /** replaceInvalidId: the empty id stays empty; any other id has each
      character outside [0-9a-zA-Z] replaced by 'G'. */
  function ReplaceInvalidId(userId: string): (r: string)
    ensures |r| == |userId|
    ensures r == "" <==> userId == ""
    ensures forall i :: 0 <= i < |userId| ==> r[i] == (if IsAlnum(userId[i]) then userId[i] else 'G')
    ensures r == ReplaceNonAlnum(userId)
  {
    if userId == "" then "" else ReplaceNonAlnum(userId)
  }

  /** The peer ids dialled when calling every player in `ids` other than
      `me`: the sanitised forms of the non-empty ones. */
  function Targets(ids: set<string>, me: string): (ts: set<string>)
    ensures forall id :: id in ids && id != me && id != "" ==> ReplaceInvalidId(id) in ts
    ensures forall t :: t in ts ==> exists id :: id in ids && id != me && id != "" && ReplaceInvalidId(id) == t
    ensures forall t :: t in ts ==> t != "" && AllAlnum(t)
  {
    forall id | id in ids && id != me && id != "" ensures ReplaceInvalidId(id) != "" && AllAlnum(ReplaceInvalidId(id)) {
      ReplaceNonAlnumIsIdempotent(id);
    }
    set id | id in ids && id != me && id != "" :: ReplaceInvalidId(id)
  }

  /** `peers` after connectToNewUser for every target: each target not
      already connected gets a call placed to it; existing calls stay. */
  function Connected(peers: map<string, CallHandle>, targets: set<string>): (r: map<string, CallHandle>)
    ensures r.Keys == peers.Keys + targets
    ensures forall p :: p in peers ==> r[p] == peers[p]
    ensures forall p :: p in r && p !in peers ==> r[p] == Placed(p)
  {
    map p | p in peers.Keys + targets :: if p in peers then peers[p] else Placed(p)
  }

  /** Connecting to a set of targets one at a time is connecting to all of
      them at once, in any order. */
  lemma ConnectedStep(peers: map<string, CallHandle>, targets: set<string>, t: string)
    ensures Connected(Connected(peers, targets), {t}) == Connected(peers, targets + {t})
  {
    var lhs, rhs := Connected(Connected(peers, targets), {t}), Connected(peers, targets + {t});
    assert lhs.Keys == rhs.Keys;
  }

  /** One more processed id adds its sanitised form to the targets, unless
      it is empty or the local session. */
  lemma TargetsStep(ids: set<string>, me: string, id: string)
    ensures Targets(ids + {id}, me) == Targets(ids, me) + (if id != me && id != "" then {ReplaceInvalidId(id)} else {})
  {
    var lhs, rhs := Targets(ids + {id}, me), Targets(ids, me) + (if id != me && id != "" then {ReplaceInvalidId(id)} else {});
    forall t | t in lhs ensures t in rhs {
      var i :| i in ids + {id} && i != me && i != "" && ReplaceInvalidId(i) == t;
      if i != id {
        assert i in ids;
      }
    }
  }

  class WebRtcConnection {
    var myStream: Option<StreamHandle>
    /** peer id -> call answered or placed */
    var peers: map<string, CallHandle>
    /** peer id -> call received before the camera stream existed */
    var pendingCalls: map<string, CallHandle>
    var isVideoEnabled: bool
    var isInitializing: bool
    /** Every call answered with the local stream. */
    var answered: set<CallHandle>
    /** The local peer id. */
    const peerId: string
    const client: Client

    /** Held calls exist only while there is no stream; the video flag is
        on exactly when there is a stream; a capture in flight means there
        is no stream yet. */
    predicate Valid()
      reads this
    {
      && (myStream.Some? ==> pendingCalls == map[])
      && isVideoEnabled == myStream.Some?
      && (isInitializing ==> myStream.None?)
    }

    constructor (userId: string, client: Client)
      ensures Valid() && peerId == ReplaceInvalidId(userId) && this.client == client
      ensures myStream.None? && peers == map[] && pendingCalls == map[] && !isVideoEnabled && !isInitializing
      ensures answered == {}
    {
      peerId := ReplaceInvalidId(userId);
      this.client := client;
      myStream := None;
      peers := map[];
      pendingCalls := map[];
      isVideoEnabled := false;
      isInitializing := false;
      answered := {};
    }

    /** The peer's 'call' listener: answered and kept in `peers` when the
        stream exists, held in `pendingCalls` otherwise; a later call from
        the same peer replaces the earlier one. */
    method OnCall(peer: string, call: CallHandle)
      requires Valid()
      modifies this
      ensures Valid()
      ensures myStream == old(myStream) && isVideoEnabled == old(isVideoEnabled) && isInitializing == old(isInitializing)
      ensures myStream.Some? ==>
                peers == old(peers)[peer := call] && pendingCalls == old(pendingCalls) && answered == old(answered) + {call}
      ensures myStream.None? ==>
                peers == old(peers) && pendingCalls == old(pendingCalls)[peer := call] && answered == old(answered)
    {
      if myStream.Some? {
        answered := answered + {call};
        peers := peers[peer := call];
      } else {
        pendingCalls := pendingCalls[peer := call];
      }
    }

    /** A call's 'stream' listener: the remote stream is published under
        the id the call was made or received with. */
    method OnRemoteStream(id: string, stream: StreamHandle)
      modifies client
      ensures client.State() == Apply(old(client.State()), DispatchWebcam(WS.AddPeerStream(id, stream)), client.sanitize)
    {
      client.Perform(DispatchWebcam(WS.AddPeerStream(id, stream)));
    }

    /** getUserMedia's guard: nothing happens while video is on, a stream
        exists or a capture is in flight; otherwise a capture starts. */
    method GetUserMedia() returns (started: bool)
      requires Valid()
      modifies this
      ensures Valid()
      ensures started <==> !old(isVideoEnabled) && old(myStream).None? && !old(isInitializing)
      ensures isInitializing == (old(isInitializing) || started)
      ensures myStream == old(myStream) && isVideoEnabled == old(isVideoEnabled)
      ensures peers == old(peers) && pendingCalls == old(pendingCalls) && answered == old(answered)
    {
      if isVideoEnabled || myStream.Some? || isInitializing {
        return false;
      }
      isInitializing := true;
      started := true;
    }

    /** MY_PLAYER_VIDEO_CONNECTED: start a capture unless video is on or a
        capture is in flight. */
    method OnMyVideoConnected() returns (started: bool)
      requires Valid()
      modifies this
      ensures Valid()
      ensures started <==> !old(isVideoEnabled) && !old(isInitializing)
      ensures isInitializing == (old(isInitializing) || started)
      ensures myStream == old(myStream) && peers == old(peers) && pendingCalls == old(pendingCalls)
      ensures isVideoEnabled == old(isVideoEnabled) && answered == old(answered)
    {
      started := false;
      if !isVideoEnabled && !isInitializing {
        started := GetUserMedia();
      }
    }

    /** The capture succeeded: the stream is kept and published, every held
        call is answered and moved into `peers`, and every other player is
        called. */
    method OnUserMediaSuccess(stream: StreamHandle)
      requires Valid()
      modifies this, client
      ensures Valid()
      ensures myStream == Some(stream) && isVideoEnabled && !isInitializing && pendingCalls == map[]
      ensures answered == old(answered) + ValuesOf(old(pendingCalls))
      ensures peers == Connected(old(peers) + old(pendingCalls), Targets(old(client.playerNames).Keys, client.mySessionId))
      ensures client.State() == Apply(old(client.State()), DispatchWebcam(WS.SetLocalStream(Some(stream))), client.sanitize)
    {
      myStream := Some(stream);
      isVideoEnabled := true;
      isInitializing := false;
      client.Perform(DispatchWebcam(WS.SetLocalStream(Some(stream))));

      var drained, answeredNow := AnswerHeld(peers, pendingCalls);
      peers := drained;
      answered := answered + answeredNow;
      pendingCalls := map[];
      CallPlayers(client.playerNames.Keys);
    }

    /** The `pendingCalls.forEach` of the capture's success: every held call
        is answered and moved into `peers`, replacing a call kept under the
        same peer id. */
    static method AnswerHeld(peers: map<string, CallHandle>, held: map<string, CallHandle>)
      returns (drained: map<string, CallHandle>, answeredNow: set<CallHandle>)
      ensures drained == peers + held
      ensures answeredNow == ValuesOf(held)
    {
      drained, answeredNow := peers, {};
      var todo := held.Keys;
      while todo != {}
        invariant todo <= held.Keys
        invariant drained.Keys == peers.Keys + (held.Keys - todo)
        invariant forall p :: p in drained ==> drained[p] == if p in held && p !in todo then held[p] else peers[p]
        invariant answeredNow == set p | p in held && p !in todo :: held[p]
        decreases todo
      {
        var p :| p in todo;
        answeredNow := answeredNow + {held[p]};
        drained := drained[p := held[p]];
        todo := todo - {p};
      }
      assert drained.Keys == (peers + held).Keys;
    }

    /** The `players.forEach` of the capture's success: every player other
        than the local session is called. */
    method CallPlayers(ids: set<string>)
      requires Valid() && myStream.Some?
      modifies this
      ensures Valid()
      ensures myStream == old(myStream) && isVideoEnabled == old(isVideoEnabled) && isInitializing == old(isInitializing)
      ensures pendingCalls == old(pendingCalls) && answered == old(answered)
      ensures peers == Connected(old(peers), Targets(ids, client.mySessionId))
    {
      var todo := ids;
      ghost var done: set<string> := {};
      while todo != {}
        invariant todo + done == ids && todo !! done
        invariant peers == Connected(old(peers), Targets(done, client.mySessionId))
        invariant Valid() && myStream == old(myStream) && isVideoEnabled == old(isVideoEnabled)
        invariant isInitializing == old(isInitializing) && pendingCalls == old(pendingCalls) && answered == old(answered)
        decreases todo
      {
        var id :| id in todo;
        CallOne(id, old(peers), done);
        todo := todo - {id};
        done := done + {id};
      }
    }

    /** One step of that forEach: the players called so far grow by `id`. */
    method CallOne(id: string, ghost start: map<string, CallHandle>, ghost done: set<string>)
      requires Valid() && myStream.Some?
      requires peers == Connected(start, Targets(done, client.mySessionId))
      modifies this
      ensures Valid()
      ensures myStream == old(myStream) && isVideoEnabled == old(isVideoEnabled) && isInitializing == old(isInitializing)
      ensures pendingCalls == old(pendingCalls) && answered == old(answered)
      ensures peers == Connected(start, Targets(done + {id}, client.mySessionId))
    {
      if id != client.mySessionId {
        ConnectToNewUser(id);
      }
      TargetsStep(done, client.mySessionId, id);
      ConnectedStep(start, Targets(done, client.mySessionId), ReplaceInvalidId(id));
    }

    /** The capture failed: only the in-flight flag is reset. */
    method OnUserMediaFailure()
      requires Valid()
      modifies this
      ensures Valid() && !isInitializing
      ensures myStream == old(myStream) && isVideoEnabled == old(isVideoEnabled)
      ensures peers == old(peers) && pendingCalls == old(pendingCalls) && answered == old(answered)
    {
      isInitializing := false;
    }

    /** stopVideo: no stream, both flags off, every call closed and its
        stream removed from the store under its `peers` key, and no call
        kept or held. */
    method StopVideo()
      modifies this, client
      ensures Valid()
      ensures myStream.None? && !isVideoEnabled && !isInitializing
      ensures peers == map[] && pendingCalls == map[] && answered == old(answered)
      ensures client.State() == old(client.State()).(
                webcam := old(client.webcam).(localStream := None,
                                              peerStreams := old(client.webcam).peerStreams - old(peers).Keys),
                closedCalls := old(client.closedCalls) + ValuesOf(old(peers)))
    {
      myStream := None;
      isVideoEnabled := false;
      isInitializing := false;
      client.Perform(DispatchWebcam(WS.SetLocalStream(None)));
      CloseCalls(peers);
      peers := map[];
      pendingCalls := map[];
    }

    /** The `peers.forEach` of stopVideo: each call is closed and the
        store's stream under its key removed. */
    method CloseCalls(calls: map<string, CallHandle>)
      modifies client
      ensures client.State() == old(client.State()).(
                webcam := old(client.webcam).(peerStreams := old(client.webcam).peerStreams - calls.Keys),
                closedCalls := old(client.closedCalls) + ValuesOf(calls))
    {
      ghost var start := client.State();
      var todo := calls.Keys;
      ghost var done: set<string> := {};
      ghost var closed: set<CallHandle> := {};
      while todo != {}
        invariant todo <= calls.Keys && done == calls.Keys - todo
        invariant closed == set p | p in done :: calls[p]
        invariant client.State() == start.(webcam := start.webcam.(peerStreams := start.webcam.peerStreams - done),
                                           closedCalls := start.closedCalls + closed)
        decreases todo
      {
        var p :| p in todo;
        CloseOne(p, calls[p]);
        todo := todo - {p};
        done := done + {p};
        closed := closed + {calls[p]};
      }
      assert closed == ValuesOf(calls);
    }

    /** One step of that forEach: the call is closed and the stream under
        its key removed. */
    method CloseOne(p: string, call: CallHandle)
      modifies client
      ensures client.State() == old(client.State()).(
                webcam := old(client.webcam).(peerStreams := old(client.webcam).peerStreams - {p}),
                closedCalls := old(client.closedCalls) + {call})
    {
      client.Perform(CloseCall(call));
      client.Perform(DispatchWebcam(WS.RemovePeerStream(p)));
    }

    /** connectToNewUser: without a stream or with an empty id nothing
        happens, nor when the sanitised id is already connected; otherwise a
        call is placed to the sanitised id and kept under it. */
    method ConnectToNewUser(userId: string)
      requires Valid()
      modifies this
      ensures Valid()
      ensures myStream == old(myStream) && isVideoEnabled == old(isVideoEnabled) && isInitializing == old(isInitializing)
      ensures pendingCalls == old(pendingCalls) && answered == old(answered)
      ensures peers == if myStream.None? || userId == "" then old(peers) else Connected(old(peers), {ReplaceInvalidId(userId)})
    {
      if myStream.None? || userId == "" {
        return;
      }
      var sanitizedId := ReplaceInvalidId(userId);
      if sanitizedId in peers {
        return;
      }
      peers := peers[sanitizedId := Placed(sanitizedId)];
    }

    /** deleteVideoStream (also a placed call's 'close' listener): the call
        under the sanitised id is closed and dropped, and the store's stream
        under the raw id is removed. */
    method DeleteVideoStream(userId: string)
      requires Valid()
      modifies this, client
      ensures Valid()
      ensures peers == old(peers) - {ReplaceInvalidId(userId)}
      ensures myStream == old(myStream) && isVideoEnabled == old(isVideoEnabled) && isInitializing == old(isInitializing)
      ensures pendingCalls == old(pendingCalls) && answered == old(answered)
      ensures var p := ReplaceInvalidId(userId);
              client.State() == old(client.State()).(
                webcam := old(client.webcam).(peerStreams := old(client.webcam).peerStreams - {userId}),
                closedCalls := old(client.closedCalls) + (if p in old(peers) then {old(peers)[p]} else {}))
    {
      var sanitizedId := ReplaceInvalidId(userId);
      if sanitizedId in peers {
        client.Perform(CloseCall(peers[sanitizedId]));
        peers := peers - {sanitizedId};
      }
      client.Perform(DispatchWebcam(WS.RemovePeerStream(userId)));
    }

    /** PLAYER_JOINED: with video on and a stream, a non-empty newcomer is
        called. */
    method OnPlayerJoined(sessionId: string)
      requires Valid()
      modifies this
      ensures Valid() && myStream == old(myStream) && pendingCalls == old(pendingCalls)
      ensures isVideoEnabled == old(isVideoEnabled) && isInitializing == old(isInitializing) && answered == old(answered)
      ensures peers == if isVideoEnabled && sessionId != "" then Connected(old(peers), {ReplaceInvalidId(sessionId)}) else old(peers)
    {
      if isVideoEnabled && myStream.Some? && sessionId != "" {
        ConnectToNewUser(sessionId);
      }
    }
  }
}
