# Screen sharing and proximity video in a virtual office

This project is a Dafny model of the conference core of metaverse-ly, a
2-D virtual office. Players walk around a tile map. Near one another, or
inside the conference zone, their cameras connect. A player who sits at one
of the office computers can share their screen. Other players can ask that
host for view or remote-control access, and the host answers the request.

The model has two sides.

The room server (`Room`, `AccessBroker`, `ComputerCommands`,
`OfficeSchema`) holds:
- `sharerMap`: computer id to the session id of the host sharing it.
- `pendingRequests`: computer id to requester id to the sharer who must
  answer and the access type asked for.
- The replicated office state: players with their `readyToConnect` and
  `videoConnected` flags, and the `connectedUser` set of every computer and
  whiteboard.

The room class (`Room.SkyOffice`) updates these maps in place. Each of its
handlers is proved to have exactly the effect of a function in
`AccessBroker`. The properties of the protocol are lemmas about those
functions:
- who may stop a share;
- who may answer a request;
- what an answer delivers;
- how `onLeave` purges a departing session.

The client side has these classes:
- `ComputerItem.Computer`: the computer item.
- `ShareScreen.ShareScreenManager`: the host's capture and control channels.
- `WebRtc.WebRtcConnection`: the camera calls of the proximity chat.
- `GameScene.Game`: the scene's proximity tick and routing.

They act on the client's shared singletons through `ClientRuntime.Client`:
- the two redux slices, modelled in `ComputerStore` and `WebcamStore`;
- the player-name map;
- the messages sent to the room;
- the keyboard flag;
- the calls and data channels asked to close.

Every such method states the new singleton state as `ClientRuntime.Apply` or
`ClientRuntime.ApplyAll` of the effects it performs.

Transport objects are opaque handles: media streams, media calls and data
channels. Asynchronous results, such as a camera or display capture
succeeding or failing, are separate steps with the outcome as a parameter.
The client's `sanitizeId` helper is not part of this model. It enters as the
function `Client.sanitize`, which keys the computer slice's stream map.

Where the code and its stated design differ, the model follows the code:
- `SCREEN_SHARE_START` overwrites an existing sharer without any check
  (`AccessBroker.StartShareOverwrites`).
- `SCREEN_SHARE_STOP` leaves the computer's pending requests in place.
- `SCREEN_SHARE_REQUEST` is always recorded as a `view` request. This holds
  even though the client's `requestScreenShare` puts the chosen type in the
  payload (`Metaverse/client/src/services/Network.ts:293-295`). The client
  never sends `REMOTE_CONTROL_REQUEST`, and `respondToRequest` always sends a
  type. So in practice the host's choice decides the granted access
  (`AccessBroker.ControlPayloadIsRecordedAsView`).
- The scene declares a disconnect distance of 120 but never reads it. There
  is no hysteresis: the tick connects and disconnects on the same 80-pixel
  test (`GameScene.NoHysteresisBetween80And120`).
- Both peer-id sanitisers map every character outside `[0-9a-zA-Z]` to `G`,
  so they are not injective (`Common.ReplaceNonAlnumCollides`,
  `ShareScreen.MakePeerIdCollidesWithSanitisedIds`).

## Model

| member | source | states |
|---|---|---|
| `Common.ReplaceNonAlnum` | Metaverse/client/src/web/ShareScreenManager.ts:205-207 | The result has the input's length, and each position keeps an ASCII letter or digit and turns anything else into 'G'. |
| `Common.ReplaceNonAlnumIsIdempotent` | Metaverse/client/src/web/WebRTC.ts:177-180 | A sanitised id is all letters and digits, and sanitising it again changes nothing. |
| `Common.ReplaceNonAlnumFixesAlnum` | Metaverse/client/src/web/WebRTC.ts:177-180 | An id that is already alphanumeric is its own sanitised form. |
| `Common.ReplaceNonAlnumCollides` | Metaverse/client/src/web/WebRTC.ts:177-180 | Sanitising is not injective: "a-b" and "a_b" both become "aGb". |
| `OfficeSchema.ItemIds` | Metaverse/server/rooms/SkyOffice.ts:47-52 | `String(i)` for i below n gives n distinct one-character ids "0" to "n-1". |
| `OfficeSchema.OfficeState.constructor` | Metaverse/server/rooms/SkyOffice.ts:44-52 | The room starts with no players, computers "0".."4" and whiteboards "0".."2", each with an empty connectedUser set. |
| `ComputerCommands.Added` | Metaverse/server/rooms/commands/ComputerUpdateArrayCommand.ts:10-33 | A known session joins a known computer, and every other set is kept. A newcomer's player alone gets both flags on. An unknown computer or player, or a session already connected, leaves the roster as it was. |
| `ComputerCommands.Removed` | Metaverse/server/rooms/commands/ComputerUpdateArrayCommand.ts:35-53 | The session leaves that computer, and every other set is kept. Its player, if any, gets both flags off, and every other player is kept. |
| `ComputerCommands.AddedRemovedAreIdempotent` | Metaverse/server/rooms/commands/ComputerUpdateArrayCommand.ts:10-53 | Connecting twice is connecting once, and disconnecting twice is disconnecting once. |
| `ComputerCommands.RemovedUndoesAdded` | Metaverse/server/rooms/commands/ComputerUpdateArrayCommand.ts:10-53 | Disconnecting after connecting gives the same roster as disconnecting alone. |
| `ComputerCommands.AddUser` | Metaverse/server/rooms/commands/ComputerUpdateArrayCommand.ts:10-33 | Nothing changes for an unknown computer or player, or a session already connected. Otherwise the session joins that computer alone, and its player alone gets both flags on. The new roster is `Added` of the old. |
| `ComputerCommands.RemoveUser` | Metaverse/server/rooms/commands/ComputerUpdateArrayCommand.ts:35-53 | The session leaves that computer's set, and every other set is kept. The player, if it exists, gets both flags off even when it was not a member. The new roster is `Removed` of the old. |
| `ComputerCommands.ConnectThenDisconnect` | Metaverse/server/rooms/commands/ComputerUpdateArrayCommand.ts:10-53 | Add then remove leaves the session out of the computer's set and its player with both flags off. |
| `AccessBroker.StartShare` | Metaverse/server/rooms/SkyOffice.ts:124-128 | The sender becomes the recorded sharer of k whatever was there before. No other computer and no request changes, and nothing is sent. |
| `AccessBroker.StopShare` | Metaverse/server/rooms/SkyOffice.ts:131-140 | Only the recorded sharer can stop. Its entry goes and exactly one STOP{k} is broadcast. Anyone else changes nothing and sends nothing. Pending requests are kept either way. |
| `AccessBroker.HandleRequest` | Metaverse/server/rooms/SkyOffice.ts:143-167 | With no truthy sharer, nothing changes. Otherwise exactly the (k, requester) entry is set to {sharer, type}, overwriting an earlier one. The request goes to the sharer alone, if connected, and is never broadcast. |
| `AccessBroker.Respond` | Metaverse/server/rooms/SkyOffice.ts:180-212 | An answer with no pending entry, or from anyone but that entry's sharer, changes nothing and sends nothing. An authorised one sends APPROVED (with the given type, else the requested one) or DENIED to a connected requester. It deletes exactly that entry and never leaves an empty inner map. |
| `AccessBroker.Answer` | Metaverse/server/rooms/SkyOffice.ts:193-204 | An approval is APPROVED{k, host} carrying the host's type, or the requested type when the host gave none. A denial is DENIED{k}. |
| `AccessBroker.Receive` | Metaverse/server/rooms/SkyOffice.ts:124-212 | Only START and STOP touch the sharer map, and they leave the requests alone. SCREEN_SHARE_REQUEST is recorded as view whatever its payload says, and REMOTE_CONTROL_REQUEST as control. Messages the broker does not handle change nothing and send nothing. Every message keeps the broker invariant. |
| `AccessBroker.StoppedBy` | Metaverse/server/rooms/SkyOffice.ts:236-242 | A computer is stopped on leave exactly when the leaver is its recorded sharer. |
| `AccessBroker.PurgeSharers` | Metaverse/server/rooms/SkyOffice.ts:236-242 | After leave, the sharer map loses exactly the computers shared by the leaver and keeps every other entry. |
| `AccessBroker.PurgeRequests` | Metaverse/server/rooms/SkyOffice.ts:246-250 | A computer's requests keep exactly those neither made by nor addressed to the leaver, unchanged. |
| `AccessBroker.PurgePending` | Metaverse/server/rooms/SkyOffice.ts:245-254 | A request survives exactly when it neither comes from nor is addressed to the leaver, and no empty inner map remains. |
| `AccessBroker.Leave` | Metaverse/server/rooms/SkyOffice.ts:235-254 | After leave, no sharer entry names the leaver and no pending request involves it. The broker's invariant (no empty inner map, every request names a sharer) is kept. |
| `AccessBroker.LeaveIsIdempotent` | Metaverse/server/rooms/SkyOffice.ts:220-257 | A second onLeave for the same session changes nothing and stops no further computer. |
| `AccessBroker.StartShareTwice` | Metaverse/server/rooms/SkyOffice.ts:124-128 | Repeating SCREEN_SHARE_START gives the same single entry as doing it once. |
| `AccessBroker.StartShareOverwrites` | Metaverse/server/rooms/SkyOffice.ts:124-128 | A START from another client replaces the recorded host of an already shared computer. |
| `AccessBroker.StopOrLeaveClearsSharer` | Metaverse/server/rooms/SkyOffice.ts:131-140 | The host's own STOP, or the host leaving, clears the computer's sharer. On leave the computer is among those announced stopped. |
| `AccessBroker.ControlRoundTrip` | Metaverse/server/rooms/SkyOffice.ts:175-212 | A REMOTE_CONTROL_REQUEST approved without a type reaches the requester as APPROVED{control}, and no request of that requester stays pending for k. |
| `AccessBroker.ControlPayloadIsRecordedAsView` | Metaverse/server/rooms/SkyOffice.ts:170-172 | A SCREEN_SHARE_REQUEST whose payload says control is recorded as view, so an approval without a type grants view. |
| `AccessBroker.DenialRoundTrip` | Metaverse/server/rooms/SkyOffice.ts:180-212 | A recorded request that the host denies reaches the requester as DENIED and leaves no pending entry. |
| `AccessBroker.TwoViewers` | Metaverse/server/rooms/SkyOffice.ts:143-212 | While a host shares a computer, two viewers' view and control requests to it coexist. Approving the first answers only the first, and the second stays pending. |
| `AccessBroker.StaleAnswerAfterRequesterLeft` | Metaverse/server/rooms/SkyOffice.ts:183-190 | After the requester has left, the host's answer finds no pending entry and changes nothing. |
| `Room.WithoutMember` | Metaverse/server/rooms/SkyOffice.ts:222-233 | Each item keeps its key and loses exactly the leaver from its connectedUser set. |
| `Room.DropMember` | Metaverse/server/rooms/SkyOffice.ts:222-226 | The forEach that deletes the leaver from every set it is in yields exactly WithoutMember. |
| `Room.PurgeRequests` | Metaverse/server/rooms/SkyOffice.ts:246-250 | The inner forEach's deletions leave exactly `AccessBroker.PurgeRequests`. |
| `Room.StopsForAppend` | Metaverse/server/rooms/SkyOffice.ts:236-242 | One more STOP for a computer not yet stopped keeps the broadcasts at one per stopped computer. |
| `Room.ReleaseSharers` | Metaverse/server/rooms/SkyOffice.ts:236-242 | The forEach over sharerMap keeps exactly `AccessBroker.PurgeSharers`. It broadcasts exactly one STOP per computer the leaver shared and no other message. |
| `Room.PurgePending` | Metaverse/server/rooms/SkyOffice.ts:245-254 | The nested forEach with in-place deletes leaves exactly `AccessBroker.PurgePending`. |
| `Room.SkyOffice.constructor` | Metaverse/server/rooms/SkyOffice.ts:26-52 | A new room has an empty broker, no clients, nothing sent and the initial office state. |
| `Room.SkyOffice.OnJoin` | Metaverse/server/rooms/SkyOffice.ts:215-218 | The client is listed, and a player with both flags off is registered under its session id. Nothing else changes. |
| `Room.SkyOffice.OnScreenShareStart` | Metaverse/server/rooms/SkyOffice.ts:124-128 | The in-place update has exactly the state and output of `AccessBroker.StartShare` and keeps the broker invariant. |
| `Room.SkyOffice.OnScreenShareStop` | Metaverse/server/rooms/SkyOffice.ts:131-140 | The in-place update has exactly the state and output of `AccessBroker.StopShare`. |
| `Room.SkyOffice.HandleRequest` | Metaverse/server/rooms/SkyOffice.ts:143-167 | The in-place update, including creating the inner map on demand, has exactly the state and output of `AccessBroker.HandleRequest`. |
| `Room.SkyOffice.OnScreenShareResponse` | Metaverse/server/rooms/SkyOffice.ts:180-212 | The security check, reply and cleanup have exactly the state and output of `AccessBroker.Respond`. |
| `Room.MarkReady` | Metaverse/server/rooms/SkyOffice.ts:69-72 | The sender's player, if any, becomes ready with its video flag kept. Every other player is kept, and no player is added. |
| `Room.MarkVideo` | Metaverse/server/rooms/SkyOffice.ts:74-106 | The sender's player, if any, takes the given video flag with its ready flag kept. Every other player is kept, and no player is added. |
| `Room.SkyOffice.OnReadyToConnect` | Metaverse/server/rooms/SkyOffice.ts:69-72 | An existing player gets readyToConnect on. An unknown sender changes nothing. |
| `Room.SkyOffice.SetVideoConnected` | Metaverse/server/rooms/SkyOffice.ts:74-106 | VIDEO_CONNECTED sets, and VIDEO_DISCONNECTED and END_CALL clear, the sender's videoConnected flag if it has a player. Nothing else changes. |
| `Room.SkyOffice.OnMessage` | Metaverse/server/rooms/SkyOffice.ts:69-212 | Every modelled message has its broker effect as given by `AccessBroker.Receive`: SCREEN_SHARE_REQUEST as view, REMOTE_CONTROL_REQUEST as control. Only the computer messages touch connectedUser sets, and the share messages never touch players. READY_TO_CONNECT is `MarkReady`, VIDEO_CONNECTED is `MarkVideo` with true, and VIDEO_DISCONNECTED and END_CALL are `MarkVideo` with false. CONNECT_TO_COMPUTER and DISCONNECT_FROM_COMPUTER give the rosters `Added` and `Removed`. |
| `Room.SkyOffice.OnLeave` | Metaverse/server/rooms/SkyOffice.ts:220-257 | The leaver is out of the clients, every computer and whiteboard set, and the players. The broker becomes `AccessBroker.Leave`. Exactly one STOP is appended per computer the leaver shared. |
| `ComputerStore.InitialState` | Metaverse/client/src/stores/ComputerStore.ts:43-63 | Every dialog is closed and every id, the mode, the stream and the manager are null. There are no peer streams and no denial, and the slice is well formed. |
| `ComputerStore.CallsOf` | Metaverse/client/src/stores/ComputerStore.ts:135-137 | The calls closed by closeComputerDialog are exactly those of the peer-stream entries. |
| `ComputerStore.Reduce` | Metaverse/client/src/stores/ComputerStore.ts:68-165 | Every reducer keeps the slice well formed. Only the two host-dialog reducers touch the keyboard. Only closeComputerDialog sends a message or closes calls. setShareScreenManager, setMyStream and openViewerRequestDialog store their payload and change nothing else. addVideoStream sets, and removeVideoStream deletes, exactly the sanitised id's entry. openHostComputerDialog sets only the host dialog's four fields. closeViewerRequestDialog, the two incoming-request reducers and the two denial reducers each set only their own sub-record or flag. |
| `ComputerStore.OpenHostDialogShowsHost` | Metaverse/client/src/stores/ComputerStore.ts:73-83 | The host dialog opens in host mode with the given ids, and the keyboard is disabled. The streams, the other dialogs, the manager and the denial flag are untouched. |
| `ComputerStore.ClosingRestoresInitialShape` | Metaverse/client/src/stores/ComputerStore.ts:93-117 | closeViewerRequestDialog and clearIncomingAccessRequest put their sub-record back in its initial closed, all-null shape. |
| `ComputerStore.DeniedMessageIsIdempotent` | Metaverse/client/src/stores/ComputerStore.ts:119-125 | show sets and clear resets the denial flag, and repeating either changes nothing. |
| `ComputerStore.CloseComputerDialogResets` | Metaverse/client/src/stores/ComputerStore.ts:127-149 | The host dialog, its ids, mode, stream and peer streams are reset, every peer call is closed, and the keyboard is enabled. A disconnect is sent only for a non-empty computer id. The viewer dialog, the incoming request, the denial and the manager are untouched. |
| `ComputerStore.AddThenRemoveVideoStream` | Metaverse/client/src/stores/ComputerStore.ts:155-164 | Adding and then removing a stream under one id leaves that sanitised key absent and every other key as it was. |
| `ComputerStore.SanitizedIdsShareAnEntry` | Metaverse/client/src/stores/ComputerStore.ts:155-160 | Two ids that sanitise alike share one peer-stream entry, and the later add wins. |
| `WebcamStore.InitialState` | Metaverse/client/src/stores/WebcamStore.ts:10-15 | No local stream, no peer streams, audio and video enabled. |
| `WebcamStore.Reduce` | Metaverse/client/src/stores/WebcamStore.ts:20-42 | Each reducer changes only the field it names, and a peer-stream reducer only the key it names. setLocalStream stores its payload, a stream or null. |
| `WebcamStore.AddPeerStreamSetsKey` | Metaverse/client/src/stores/WebcamStore.ts:24-26 | addPeerStream inserts or overwrites exactly its key with its stream. |
| `WebcamStore.RemovePeerStreamDeletesKey` | Metaverse/client/src/stores/WebcamStore.ts:27-29 | removePeerStream deletes exactly its key, and an absent key changes nothing. |
| `WebcamStore.AddThenRemovePeerStream` | Metaverse/client/src/stores/WebcamStore.ts:24-29 | Adding then removing under one id is the same as only removing it. |
| `WebcamStore.FlagSettersSetPayload` | Metaverse/client/src/stores/WebcamStore.ts:21-41 | setAudioEnabled and setVideoEnabled set their flag to the payload. setLocalStream replaces the local stream by its payload, a stream or null, and changes nothing else. |
| `ClientRuntime.Apply` | Metaverse/client/src/services/Network.ts:251-309 | The effect glue behind every component: a send is `room.send` through one of these wrappers, a dispatch goes to its slice's reducer. One dispatch or send only appends to the messages sent, only adds to the closed calls and channels, and leaves the player names alone. A non-dispatch leaves the slices and the keyboard unchanged. |
| `ClientRuntime.ApplyAll` | Metaverse/client/src/services/Network.ts:251-309 | A sequence of effects only extends the messages sent and the closed sets. Sends and closes alone leave both slices unchanged. |
| `ClientRuntime.SentBy` | Metaverse/client/src/services/Network.ts:251-309 | Every message a run of effects sends by itself is the payload of one of its send effects, and there are no more messages than effects. |
| `ClientRuntime.SentByAllSends` | Metaverse/client/src/services/Network.ts:251-309 | For a run of sends alone, the messages sent are exactly their payloads, position by position. |
| `ClientRuntime.SendsAppendInOrder` | Metaverse/client/src/services/Network.ts:251-309 | Sends alone append exactly their messages, in order, and change nothing else. |
| `ClientRuntime.Client.constructor` | Metaverse/client/src/stores/ComputerStore.ts:43-63 | A fresh client has both slices at their initial state, nothing sent, the keyboard on and nothing closed. |
| `ClientRuntime.Client.Perform` | Metaverse/client/src/services/Network.ts:251-309 | Performing an effect in place leaves the singletons in the state given by `Apply`. |
| `ClientRuntime.Client.PerformAll` | Metaverse/client/src/services/Network.ts:251-309 | Performing effects one at a time in place leaves the singletons in the state given by `ApplyAll`. |
| `ComputerItem.AddUser` | Metaverse/client/src/items/Computer.ts:69-77 | The user is present afterwards, and a present user changes nothing. The host changes exactly when a new user arrives with no host, and then it is that user. Host-among-users is kept. |
| `ComputerItem.RemoveUser` | Metaverse/client/src/items/Computer.ts:79-86 | The user is absent afterwards. The host is cleared exactly when the user was present and was the host. Host-among-users is kept. |
| `ComputerItem.AddUserIsIdempotent` | Metaverse/client/src/items/Computer.ts:69-77 | Adding a user twice is adding it once. |
| `ComputerItem.AddThenRemoveUser` | Metaverse/client/src/items/Computer.ts:69-86 | A newcomer who joins and leaves restores the seats, host included. |
| `ComputerItem.OverlapText` | Metaverse/client/src/items/Computer.ts:45-64 | Exactly one of four texts is chosen: "use" iff there is no host, "manage" iff the local player hosts, and "waiting" or "request" by the pending flag otherwise. |
| `ComputerItem.Interaction` | Metaverse/client/src/items/Computer.ts:91-134 | With no id, nothing happens. With no host, the local player becomes host and joins the users, who all stay seated. It opens the host dialog, and sends start-share then connect. The host only reopens its dialog and reconnects: exactly those two effects, with the seats unchanged. Anyone else changes no seat and opens the viewer dialog. Host-among-users is kept. |
| `ComputerItem.RequesterName` | Metaverse/client/src/items/Computer.ts:177 | The popup names the requester by its non-empty display name, or "User" when the name is missing or empty. |
| `ComputerItem.Computer.constructor` | Metaverse/client/src/items/Computer.ts:14-24 | A new item has no id, no host, no users, nothing pending and no text. |
| `ComputerItem.Computer.SetId` | Metaverse/client/src/scenes/Game.ts:116-118 | Naming the item changes nothing else. |
| `ComputerItem.Computer.OnOverlapDialog` | Metaverse/client/src/items/Computer.ts:45-64 | The dialog shows `OverlapText` of the current host, the local id and the pending flag. |
| `ComputerItem.Computer.AddCurrentUser` | Metaverse/client/src/items/Computer.ts:69-77 | The in-place update has exactly the seats of `AddUser` and keeps host-among-users. |
| `ComputerItem.Computer.RemoveCurrentUser` | Metaverse/client/src/items/Computer.ts:79-86 | The in-place update has exactly the seats of `RemoveUser` and keeps host-among-users. |
| `ComputerItem.Computer.Interact` | Metaverse/client/src/items/Computer.ts:91-134 | The seats and the store and room effects are exactly those of `Interaction`. |
| `ComputerItem.Computer.SendAccessRequest` | Metaverse/client/src/items/Computer.ts:139-145 | With an id, the request becomes pending, one SCREEN_SHARE_REQUEST with the chosen type is sent, and the dialog text is recomputed as `OverlapText` with the request pending. Without an id, nothing happens. |
| `ComputerItem.Computer.RespondToRequest` | Metaverse/client/src/items/Computer.ts:150-159 | With an id, exactly one response is sent, always carrying a type. Without an id, nothing happens. |
| `ComputerItem.Computer.OnIncomingRequest` | Metaverse/client/src/items/Computer.ts:164-185 | The popup opens, with the requester's name and type, only when the computer id matches and the local player hosts. Otherwise nothing changes. |
| `ComputerItem.Computer.OnApproved` | Metaverse/client/src/items/Computer.ts:190-204 | For this computer, the pending flag clears, the viewer dialog closes and a connect is sent. For any other computer, nothing changes. |
| `ComputerItem.Computer.OnDenied` | Metaverse/client/src/items/Computer.ts:209-219 | For this computer, the pending flag clears, the denial is stored and the text reads "Access Denied". For any other computer, nothing changes. |
| `ComputerItem.Computer.OnHostLeft` | Metaverse/client/src/items/Computer.ts:224-226 | The host is cleared, the users stay, and host-among-users is kept. |
| `ShareScreen.MakePeerId` | Metaverse/client/src/web/ShareScreenManager.ts:205-207 | The peer id is the input's length plus three and ends in "-ss". Before that, letters and digits are kept in place and everything else becomes 'G'. |
| `ShareScreen.ScreenPeerIdIsNotACameraPeerId` | Metaverse/client/src/web/ShareScreenManager.ts:205-207 | A screen-share peer id never equals a camera peer id (a sanitised session id). |
| `ShareScreen.MakePeerIdCollidesWithSanitisedIds` | Metaverse/client/src/web/ShareScreenManager.ts:205-207 | Two sessions share a screen-share peer id exactly when their sanitised ids agree. |
| `ShareScreen.ApprovalDials` | Metaverse/client/src/web/ShareScreenManager.ts:147-167 | An approval always calls the viewer's peer id, and opens a data channel to it exactly for control. |
| `ShareScreen.ShareScreenManager.constructor` | Metaverse/client/src/web/ShareScreenManager.ts:20-27 | The manager's peer id is `MakePeerId` of the user id, with nothing shared, captured or connected. |
| `ShareScreen.ShareScreenManager.StartScreenShare` | Metaverse/client/src/web/ShareScreenManager.ts:87-117 | A refused capture changes nothing. A capture keeps the stream, caches the store's current computer id and publishes the stream. A non-empty computer id is announced to the room. |
| `ShareScreen.ShareScreenManager.StopScreenShare` | Metaverse/client/src/web/ShareScreenManager.ts:119-141 | The stream is gone, every control channel is closed and forgotten, and the store's stream is cleared. A STOP is sent only for a cached non-empty computer id, which is then cleared, so a second stop sends nothing. |
| `ShareScreen.ShareScreenManager.CloseAll` | Metaverse/client/src/web/ShareScreenManager.ts:125-126 | The forEach closes exactly the channels in the map and changes nothing else. |
| `ShareScreen.ShareScreenManager.OnUserApproved` | Metaverse/client/src/web/ShareScreenManager.ts:147-167 | Without a stream, nothing happens. With one, exactly `ApprovalDials` is dialled. |
| `ShareScreen.ShareScreenManager.OnConnectionOpen` | Metaverse/client/src/web/ShareScreenManager.ts:52-56 | An opened data connection is kept under its peer id, and nothing else changes. |
| `ShareScreen.ShareScreenManager.OnConnectionClose` | Metaverse/client/src/web/ShareScreenManager.ts:62-64 | A closed data connection's peer id is forgotten, and nothing else changes. |
| `ShareScreen.ShareScreenManager.OnRemoteStream` | Metaverse/client/src/web/ShareScreenManager.ts:42-46 | A received screen stream is stored under the caller's peer id. |
| `ShareScreen.ShareScreenManager.OnRemoteCallClosed` | Metaverse/client/src/web/ShareScreenManager.ts:47-49 | A closed screen call's stream is removed from the store. |
| `ShareScreen.ShareScreenManager.OnUserLeft` | Metaverse/client/src/web/ShareScreenManager.ts:191-199 | Only the leaver's screen-share stream and control channel go. The channel is closed, and every other channel stays. |
| `WebRtc.ReplaceInvalidId` | Metaverse/client/src/web/WebRTC.ts:177-180 | The empty id stays empty. The length is kept, and each character outside [0-9a-zA-Z] becomes 'G'. |
| `WebRtc.Targets` | Metaverse/client/src/web/WebRTC.ts:100-106 | The peers called after a capture are the sanitised ids of every non-empty player id other than the local one, all non-empty and alphanumeric. |
| `WebRtc.Connected` | Metaverse/client/src/web/WebRTC.ts:135-161 | Calling targets adds exactly the targets not yet connected, each with a call placed to it, and keeps every existing call. |
| `WebRtc.ConnectedStep` | Metaverse/client/src/web/WebRTC.ts:100-106 | Calling targets one at a time, in any order, equals calling them all. |
| `WebRtc.TargetsStep` | Metaverse/client/src/web/WebRTC.ts:100-106 | One more player id adds its sanitised form to the targets unless it is empty or the local session. |
| `WebRtc.WebRtcConnection.constructor` | Metaverse/client/src/web/WebRTC.ts:16-19 | The local peer id is the sanitised user id, with no stream, no calls and both flags off. |
| `WebRtc.WebRtcConnection.OnCall` | Metaverse/client/src/web/WebRTC.ts:26-37 | With a stream, the call is answered and kept in peers. Without one, it is held in pendingCalls. A later call from the same peer replaces the earlier one. |
| `WebRtc.WebRtcConnection.OnRemoteStream` | Metaverse/client/src/web/WebRTC.ts:38-41 | A received camera stream is published under the call's peer id. |
| `WebRtc.WebRtcConnection.GetUserMedia` | Metaverse/client/src/web/WebRTC.ts:78-80 | A capture starts exactly when video is off, there is no stream and none is in flight, and only the in-flight flag changes. |
| `WebRtc.WebRtcConnection.OnMyVideoConnected` | Metaverse/client/src/web/WebRTC.ts:44-49 | A capture starts exactly when video is off and none is in flight. Only the in-flight flag changes. |
| `WebRtc.WebRtcConnection.OnUserMediaSuccess` | Metaverse/client/src/web/WebRTC.ts:85-107 | The stream is kept and published and video is on. Every held call is answered and moved into peers, leaving none held. Every other player is called. Whenever a stream exists, no call is held. |
| `WebRtc.WebRtcConnection.AnswerHeld` | Metaverse/client/src/web/WebRTC.ts:93-98 | The drain moves every held call into peers, overriding on the same key, and answers exactly the held calls. |
| `WebRtc.WebRtcConnection.CallPlayers` | Metaverse/client/src/web/WebRTC.ts:100-106 | The loop over the players leaves peers as `Connected` to their `Targets`, and nothing else changes. |
| `WebRtc.WebRtcConnection.OnUserMediaFailure` | Metaverse/client/src/web/WebRTC.ts:108-111 | A failed capture only resets the in-flight flag. |
| `WebRtc.WebRtcConnection.StopVideo` | Metaverse/client/src/web/WebRTC.ts:114-133 | No stream remains, both flags are off, and no call is kept or held. Every kept call is closed and its stream under its peers key is removed. The local stream is cleared in the store. |
| `WebRtc.WebRtcConnection.CloseCalls` | Metaverse/client/src/web/WebRTC.ts:127-130 | The forEach closes exactly the calls in the map and removes exactly their keys' streams. |
| `WebRtc.WebRtcConnection.ConnectToNewUser` | Metaverse/client/src/web/WebRTC.ts:135-161 | Without a stream, for an empty id, or for a sanitised id already connected, nothing happens. Otherwise exactly that key gains a call placed to it. |
| `WebRtc.WebRtcConnection.DeleteVideoStream` | Metaverse/client/src/web/WebRTC.ts:163-171 | Only the sanitised id's call is closed and dropped. The store's stream under the raw id is removed. |
| `WebRtc.WebRtcConnection.OnPlayerJoined` | Metaverse/client/src/web/WebRTC.ts:56-61 | With video on, a non-empty newcomer is called. Otherwise nothing changes, and no other field changes in either case. |
| `GameScene.Decide` | Metaverse/client/src/scenes/Game.ts:295-301 | The tick asks to connect iff (in zone and not connected) or (outside, not connected, someone near). It ends the call iff outside, connected and nobody near. Otherwise it does nothing, in the zone and connected included. |
| `GameScene.IsInConferenceZone` | Metaverse/client/src/scenes/Game.ts:268-275 | A position is in the zone exactly when it lies at most 95 pixels left or right of x = 750 and at most 90 pixels above or below y = 550. |
| `GameScene.ZoneBoundsAreInclusive` | Metaverse/client/src/scenes/Game.ts:268-275 | Every point on the zone's edges is inside, and every point one pixel beyond an edge is outside. |
| `GameScene.Near` | Metaverse/client/src/scenes/Game.ts:287-288 | Two near players are less than 80 pixels apart along each axis. On a common row or column they are near exactly when less than 80 pixels apart. |
| `GameScene.AnyNear` | Metaverse/client/src/scenes/Game.ts:286-292 | Whether someone is near depends only on where the other players stand, not on their ids. Nobody is near when there are no other players. |
| `GameScene.AnyNearAfterJoin` | Metaverse/client/src/scenes/Game.ts:225-230 | A player joining under an id makes someone near exactly when the newcomer is near, or someone under another id already was. |
| `GameScene.ConnectAndDisconnectShareOneThreshold` | Metaverse/client/src/scenes/Game.ts:282-301 | Outside the zone, the test that connects is the test that keeps the call. |
| `GameScene.NoHysteresisBetween80And120` | Metaverse/client/src/scenes/Game.ts:36-37 | A connected player outside the zone, whose only neighbour is 100 pixels away, ends the call even though the declared disconnect distance is 120. |
| `GameScene.Game.ProximityTick` | Metaverse/client/src/scenes/Game.ts:282-301 | The loop with its early break finds whether any other player is within 80 pixels, looking only outside the zone. The tick's request is exactly `Decide` of that. |
| `GameScene.Game.HandlePlayerJoined` | Metaverse/client/src/scenes/Game.ts:225-230 | A known id is ignored, and a new one is added at its position. |
| `GameScene.Game.HandlePlayerLeft` | Metaverse/client/src/scenes/Game.ts:232-238 | The id is removed if present, and otherwise nothing changes. |
| `GameScene.Game.SetMyVideoConnected` | Metaverse/client/src/scenes/Game.ts:241-242 | The local video flag takes the event's value, and nothing else changes. |
| `GameScene.Game.HandleItemUserAdded` | Metaverse/client/src/scenes/Game.ts:248-254 | A known computer seats the user as `ComputerItem.AddUser` and keeps its id, pending flag and dialog. A known whiteboard is told. Unknown ids and other kinds change nothing, and the scene's other fields stay as they were. Every computer keeps host-among-users. |
| `GameScene.Game.HandleItemUserRemoved` | Metaverse/client/src/scenes/Game.ts:256-262 | A known computer unseats the user as `ComputerItem.RemoveUser` and keeps its id, pending flag and dialog. A known whiteboard is told. Unknown ids and other kinds change nothing, and the scene's other fields stay as they were. |

## Left out

- Network.ts is modelled only through its send wrappers (lines 251-309). Each is a `Send` effect of `ClientRuntime.Apply`, whose message is appended to what the client sent. A send while the client has no room (`room?.send`) is taken as sent. The server's replies are `Outbound` messages.
- Network.ts's event forwarding is not modelled either. Each forwarded event is a method called with the event's payload.
- The React dialogs and the Phaser rendering are not part of this model. `setDialogBox` is the recorded `dialogText`, and `disableKeys`/`enableKeys` the recorded keyboard flag.
- The 2-second `setTimeout` in onDenied is not modelled: its callback is `OnOverlapDialog`, which the environment may call later.
- `track.onended` on the captured display track is the environment calling `ShareScreen.ShareScreenManager.StopScreenShare` when the capture ends. That call sends SCREEN_SHARE_STOP and clears the stream, as the method states.
- Track stopping and enabling, and the peers' `open` and `error` listeners, are not modelled, and neither is `checkPreviousPermission`. They have no effect on the modelled state.
- Logging is not modelled.
- `Common.ReplaceNonAlnum`: lengths are counted in Unicode scalar values. JavaScript counts UTF-16 code units, and `/[^0-9a-z]/gi` replaces each half of a surrogate pair, so a character outside the Basic Multilingual Plane becomes "GG" in the source but "G" here. The claims about the input's length hold only for ids within that plane.
- `WebRtc.ReplaceInvalidId`: the same difference for characters outside the Basic Multilingual Plane.
- `ShareScreen.MakePeerId`: the same difference for characters outside the Basic Multilingual Plane.
- `call.answer()` without a stream in the screen-share manager's call listener is not recorded.
- `onOpen`/`onClose` (peer reconnect and disconnect) are not modelled, and neither are `sendInput`, `connectToSharer` (which only logs) or `deleteOnCalledVideoStream` (which only forwards to `DeleteVideoStream`).
- Forwarding remote input to the scene is not modelled.
- Chat, manual calls (START_MANUAL_CALL), player movement and name updates are not modelled. Nor are the whiteboard commands and the whiteboard item's own logic, password hashing, `onDispose` and the random whiteboard room ids. None of them touches the modelled state.
- The order of iteration over JavaScript maps is not modelled. Loops over maps are proved for every order.
- `Room.OnLeave`: the order of the STOP broadcasts is stated only as one per released computer (`Room.StopsFor`), not as the map's insertion order.
- `Room.ReleaseSharers`: the order of the STOP broadcasts is stated only as one per released computer, not as the map's insertion order.
- Calls and data channels closed by a loop are recorded as sets (`closedCalls`, `closedConns`), without their order.
- Aliasing between schema objects is not modelled. The server's items and players are values in maps of the room state.
- The scene reaches the room through `game.network?.mySessionId`. This is taken as `Client.mySessionId`, which assumes the network exists.
- Distances are not computed in floating point. Positions are whole pixels, and "nearer than 80" compares squared distances with 6400.
- The client's `sanitizeId` helper is not part of this model. It is the parameter `Client.sanitize`, and no property of it is assumed.
- PeerJS, MediaStream and the capture APIs are opaque handles. Their asynchronous outcomes are explicit steps: `OnUserMediaSuccess`/`OnUserMediaFailure`, and the `capture` parameter of `StartScreenShare`.
- The streams of placed camera calls are published under the raw user id but removed by `StopVideo` under the sanitised `peers` key. The model relies on each closed call's `close` listener (`DeleteVideoStream`) to remove the raw-id stream. That listener is a separate event the environment must deliver.
- `ShareScreen.ShareScreenManager.OnRemoteCallClosed` also stands for the `close` listener that `onUserApproved` puts on the call it places (lines 153-155 of the same file).
