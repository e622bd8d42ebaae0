/** The `webcam` slice of the client's redux store: the local camera
    stream, the remote streams by peer id, and the audio and video flags. */
module WebcamStore {
  import opened Common
  import opened Protocol

  datatype WebcamState = WebcamState(
    localStream: Option<StreamHandle>,
    peerStreams: map<string, StreamHandle>,
    audioEnabled: bool,
    videoEnabled: bool)

  /** The actions of webcamSlice. */
  datatype Action =
    | SetLocalStream(localStream: Option<StreamHandle>)
    | AddPeerStream(id: string, stream: StreamHandle)
    | RemovePeerStream(id: string)
    | SetAudioEnabled(audio: bool)
    | SetVideoEnabled(video: bool)

  /** initialState: no local stream, no peer streams, audio and video on. */
  function InitialState(): (s: WebcamState)
    ensures s.localStream.None? && s.peerStreams == map[]
    ensures s.audioEnabled && s.videoEnabled
  {
    WebcamState(None, map[], true, true)
  }

  /** webcamSlice's reducer. Each action changes only the field it names;
      a peer-stream action changes only the key it names. */
  function Reduce(s: WebcamState, a: Action): (r: WebcamState)
    ensures r.localStream == if a.SetLocalStream? then a.localStream else s.localStream
    ensures !a.SetAudioEnabled? ==> r.audioEnabled == s.audioEnabled
    ensures !a.SetVideoEnabled? ==> r.videoEnabled == s.videoEnabled
    ensures !(a.AddPeerStream? || a.RemovePeerStream?) ==> r.peerStreams == s.peerStreams
    ensures (a.AddPeerStream? || a.RemovePeerStream?) ==>
              forall k :: k != a.id ==> (k in r.peerStreams <==> k in s.peerStreams)
    ensures (a.AddPeerStream? || a.RemovePeerStream?) ==>
              forall k :: k != a.id && k in r.peerStreams ==> r.peerStreams[k] == s.peerStreams[k]
  {
    match a
    case SetLocalStream(stream) => s.(localStream := stream)
    case AddPeerStream(id, stream) => s.(peerStreams := s.peerStreams[id := stream])
    case RemovePeerStream(id) => s.(peerStreams := s.peerStreams - {id})
    case SetAudioEnabled(on) => s.(audioEnabled := on)
    case SetVideoEnabled(on) => s.(videoEnabled := on)
  }

  /** addPeerStream inserts or overwrites exactly the one key. */
  lemma AddPeerStreamSetsKey(s: WebcamState, id: string, stream: StreamHandle)
    ensures var r := Reduce(s, AddPeerStream(id, stream));
            r.peerStreams.Keys == s.peerStreams.Keys + {id} && r.peerStreams[id] == stream
  {
  }

  /** removePeerStream deletes exactly the key; for an absent key it is a
      no-op. */
  lemma RemovePeerStreamDeletesKey(s: WebcamState, id: string)
    ensures Reduce(s, RemovePeerStream(id)).peerStreams.Keys == s.peerStreams.Keys - {id}
    ensures id !in s.peerStreams ==> Reduce(s, RemovePeerStream(id)) == s
  {
  }

  /** Adding a stream and then removing it under the same id is the same as
      only removing it. */
  lemma AddThenRemovePeerStream(s: WebcamState, id: string, stream: StreamHandle)
    ensures Reduce(Reduce(s, AddPeerStream(id, stream)), RemovePeerStream(id)) == Reduce(s, RemovePeerStream(id))
  {
  }

  /** The setters store their payload: the two flags, and the local stream
      whether it is a stream or null. */
  lemma FlagSettersSetPayload(s: WebcamState, on: bool, stream: Option<StreamHandle>)
    ensures Reduce(s, SetAudioEnabled(on)).audioEnabled == on
    ensures Reduce(s, SetVideoEnabled(on)).videoEnabled == on
    ensures Reduce(s, SetLocalStream(stream)) == s.(localStream := stream)
  {
  }
}
