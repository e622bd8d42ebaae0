/** The computer item on the client: who is seated at it, who hosts it,
    whether the local player is waiting for access, the text shown when the
    player stands at it, and its reactions to the access messages the room
    forwards. */
module ComputerItem {
  import opened Common
  import opened Protocol
  import CS = ComputerStore
  import opened ClientRuntime

  /** The host and the users of one computer. */
  datatype Seats = Seats(hostId: Option<string>, currentUsers: set<string>)

  /** The item's invariant: a host, when there is one, is among the users. */
  predicate HostSeated(s: Seats) {
    s.hostId.Some? ==> s.hostId.value in s.currentUsers
  }

  /** addCurrentUser: a user not yet present joins, and becomes host when
      there is no host; a user already present changes nothing. */
  function AddUser(s: Seats, u: string): (r: Seats)
    ensures r.currentUsers == s.currentUsers + {u}
    ensures u in s.currentUsers ==> r == s
    ensures r.hostId != s.hostId <==> u !in s.currentUsers && !Truthy(s.hostId) && s.hostId != Some(u)
    ensures r.hostId != s.hostId ==> r.hostId == Some(u)
    ensures HostSeated(s) ==> HostSeated(r)
  {
    if u in s.currentUsers then s
    else Seats(if Truthy(s.hostId) then s.hostId else Some(u), s.currentUsers + {u})
  }

  /** removeCurrentUser: the user leaves; the host is cleared exactly when
      the user was present and was the host. */
  function RemoveUser(s: Seats, u: string): (r: Seats)
    ensures r.currentUsers == s.currentUsers - {u}
    ensures r.hostId != s.hostId <==> u in s.currentUsers && s.hostId == Some(u)
    ensures r.hostId != s.hostId ==> r.hostId.None?
    ensures HostSeated(s) ==> HostSeated(r)
  {
    if u !in s.currentUsers then s
    else Seats(if s.hostId == Some(u) then None else s.hostId, s.currentUsers - {u})
  }

  /** Adding a user twice is adding it once. */
  lemma AddUserIsIdempotent(s: Seats, u: string)
    ensures AddUser(AddUser(s, u), u) == AddUser(s, u)
  {
  }

  /** A newcomer who joins and leaves again leaves the seats as they were,
      whether or not it became host on the way. */
  lemma AddThenRemoveUser(s: Seats, u: string)
    requires HostSeated(s) && u !in s.currentUsers
    requires s.hostId.None? || Truthy(s.hostId)
    ensures RemoveUser(AddUser(s, u), u) == s
  {
  }

  const UseText := "Press R to use computer"
  const ManageText := "Press R to manage computer"
  const WaitingText := "Request sent. Waiting for approval..."
  const RequestText := "Press R to request access"
  const DeniedText := "Access Denied"

  /** onOverlapDialog's choice: exactly one of four texts, picked by
      whether there is a host, whether the local player is the host, and
      whether a request is pending. */
  function OverlapText(hostId: Option<string>, myId: string, pending: bool): (text: string)
    ensures text == UseText <==> !Truthy(hostId)
    ensures text == ManageText <==> Truthy(hostId) && hostId == Some(myId)
    ensures text == WaitingText <==> Truthy(hostId) && hostId != Some(myId) && pending
    ensures text == RequestText <==> Truthy(hostId) && hostId != Some(myId) && !pending
  {
    assert UseText[6] == 'R' && ManageText[6] == 'R' && RequestText[6] == 'R' && WaitingText[6] != 'R';
    assert UseText[11] != ManageText[11] && UseText[11] != RequestText[11] && ManageText[11] != RequestText[11];
    if !Truthy(hostId) then UseText
    else if hostId == Some(myId) then ManageText
    else if pending then WaitingText
    else RequestText
  }

  /** The outcome of pressing R at a computer: its new seats and the
      effects on the store and the room. */
  datatype Outcome = Outcome(seats: Seats, effects: seq<Effect>)

  /** interact: without an id nothing happens. With no host the local player
      takes the seat as host, opens the host dialog, and announces both the
      share and the connection. The host only reopens its dialog and
      reconnects. Anyone else changes nothing and opens the request dialog. */
  function Interaction(id: Option<string>, s: Seats, myId: string): (r: Outcome)
    ensures !Truthy(id) ==> r == Outcome(s, [])
    ensures HostSeated(s) ==> HostSeated(r.seats)
    ensures r.seats != s ==> Truthy(id) && !Truthy(s.hostId)
    ensures Truthy(id) && !Truthy(s.hostId) ==>
              r.seats == Seats(Some(myId), s.currentUsers + {myId}) && |r.effects| == 3
              && r.effects[1..] == [Send(StartScreenShare(id.value)), Send(ConnectToComputer(id.value))]
    ensures Truthy(id) && (!Truthy(s.hostId) || s.hostId == Some(myId)) ==>
              |r.effects| >= 2 && r.effects[0] == DispatchComputer(CS.OpenHostComputerDialog(id.value, myId))
              && r.effects[|r.effects| - 1] == Send(ConnectToComputer(id.value))
    ensures Truthy(id) && Truthy(s.hostId) && s.hostId == Some(myId) ==>
              r == Outcome(s, [DispatchComputer(CS.OpenHostComputerDialog(id.value, myId)), Send(ConnectToComputer(id.value))])
    ensures Truthy(id) && Truthy(s.hostId) && s.hostId != Some(myId) ==>
              r.effects == [DispatchComputer(CS.OpenViewerRequestDialog(id.value, s.hostId.value))]
    ensures forall i :: 0 <= i < |r.effects| && r.effects[i].Send? ==>
              r.effects[i].msg == ConnectToComputer(id.value) || r.effects[i].msg == StartScreenShare(id.value)
  {
    if !Truthy(id) then Outcome(s, [])
    else if !Truthy(s.hostId) then
      Outcome(Seats(Some(myId), s.currentUsers + {myId}),
                  [DispatchComputer(CS.OpenHostComputerDialog(id.value, myId)),
                   Send(StartScreenShare(id.value)), Send(ConnectToComputer(id.value))])
    else if s.hostId == Some(myId) then
      Outcome(s, [DispatchComputer(CS.OpenHostComputerDialog(id.value, myId)), Send(ConnectToComputer(id.value))])
    else
      Outcome(s, [DispatchComputer(CS.OpenViewerRequestDialog(id.value, s.hostId.value))])
  }

  /** `playerNameMap.get(requesterId) || 'User'`: a missing or empty name
      reads as "User". */
  function RequesterName(names: map<string, string>, requesterId: string): (name: string)
    ensures name != ""
    ensures requesterId in names && names[requesterId] != "" ==> name == names[requesterId]
    ensures requesterId !in names || names[requesterId] == "" ==> name == "User"
  {
    if requesterId in names && names[requesterId] != "" then names[requesterId] else "User"
  }

  class Computer {
    /** Set by the game scene when it creates the item. */
    var id: Option<string>
    var hostId: Option<string>
    var currentUsers: set<string>
    var hasPendingRequest: bool
    /** The text of the item's dialog box (setDialogBox). */
    var dialogText: Option<string>
    const client: Client

    function Seating(): Seats
      reads this
    {
      Seats(hostId, currentUsers)
    }

    predicate Valid()
      reads this
    {
      HostSeated(Seating())
    }

    /** A new item: no id yet, no host, nobody seated, nothing pending. */
    constructor (client: Client)
      ensures Valid() && this.client == client
      ensures id.None? && hostId.None? && currentUsers == {} && !hasPendingRequest && dialogText.None?
    {
      this.client := client;
      id := None;
      hostId := None;
      currentUsers := {};
      hasPendingRequest := false;
      dialogText := None;
    }

    /** The game scene names the item when it creates it. */
    method SetId(newId: string)
      requires Valid()
      modifies this
      ensures Valid() && id == Some(newId)
      ensures Seating() == old(Seating()) && hasPendingRequest == old(hasPendingRequest) && dialogText == old(dialogText)
    {
      id := Some(newId);
    }

    method OnOverlapDialog()
      modifies this
      ensures dialogText == Some(OverlapText(hostId, client.mySessionId, hasPendingRequest))
      ensures id == old(id) && Seating() == old(Seating()) && hasPendingRequest == old(hasPendingRequest)
    {
      if !Truthy(hostId) {
        dialogText := Some(UseText);
        return;
      }
      if hostId == Some(client.mySessionId) {
        dialogText := Some(ManageText);
        return;
      }
      if hasPendingRequest {
        dialogText := Some(WaitingText);
      } else {
        dialogText := Some(RequestText);
      }
    }

    method AddCurrentUser(userId: string)
      requires Valid()
      modifies this
      ensures Valid() && Seating() == AddUser(old(Seating()), userId)
      ensures id == old(id) && hasPendingRequest == old(hasPendingRequest) && dialogText == old(dialogText)
    {
      if userId !in currentUsers {
        currentUsers := currentUsers + {userId};
        if !Truthy(hostId) {
          hostId := Some(userId);
        }
      }
    }

    method RemoveCurrentUser(userId: string)
      requires Valid()
      modifies this
      ensures Valid() && Seating() == RemoveUser(old(Seating()), userId)
      ensures id == old(id) && hasPendingRequest == old(hasPendingRequest) && dialogText == old(dialogText)
    {
      if userId in currentUsers {
        currentUsers := currentUsers - {userId};
        if hostId == Some(userId) {
          hostId := None;
        }
      }
    }

    method Interact()
      requires Valid()
      modifies this, client
      ensures Valid()
      ensures var r := Interaction(old(id), old(Seating()), client.mySessionId);
              Seating() == r.seats && client.State() == ApplyAll(old(client.State()), r.effects, client.sanitize)
      ensures id == old(id) && hasPendingRequest == old(hasPendingRequest) && dialogText == old(dialogText)
    {
      if !Truthy(id) {
        return;
      }
      var myId := client.mySessionId;
      if !Truthy(hostId) {
        hostId := Some(myId);
        currentUsers := currentUsers + {myId};
        client.PerformAll([DispatchComputer(CS.OpenHostComputerDialog(id.value, myId)),
                           Send(StartScreenShare(id.value)), Send(ConnectToComputer(id.value))]);
        return;
      }
      if hostId == Some(myId) {
        client.PerformAll([DispatchComputer(CS.OpenHostComputerDialog(id.value, myId)), Send(ConnectToComputer(id.value))]);
        return;
      }
      client.Perform(DispatchComputer(CS.OpenViewerRequestDialog(id.value, hostId.value)));
    }

    /** sendAccessRequest: marks the request pending, sends it with the
        chosen type, and refreshes the dialog text. */
    method SendAccessRequest(t: AccessType)
      requires Valid()
      modifies this, client
      ensures Valid() && id == old(id) && Seating() == old(Seating())
      ensures Truthy(id) ==>
                && hasPendingRequest
                && client.State() == old(client.State()).(sent := old(client.sent) + [RequestScreenShare(id.value, t)])
                && dialogText == Some(OverlapText(hostId, client.mySessionId, true))
      ensures !Truthy(id) ==>
                hasPendingRequest == old(hasPendingRequest) && dialogText == old(dialogText)
                && client.State() == old(client.State())
    {
      if !Truthy(id) {
        return;
      }
      hasPendingRequest := true;
      client.Perform(Send(RequestScreenShare(id.value, t)));
      OnOverlapDialog();
    }

    /** respondToRequest: forwards the host's answer, always with a type. */
    method RespondToRequest(requesterId: string, approved: bool, t: AccessType)
      modifies client
      ensures Truthy(id) ==>
                client.State() == old(client.State()).(sent := old(client.sent) + [Protocol.RespondToRequest(requesterId, id.value, approved, Some(t))])
      ensures !Truthy(id) ==> client.State() == old(client.State())
    {
      if !Truthy(id) {
        return;
      }
      client.Perform(Send(Protocol.RespondToRequest(requesterId, id.value, approved, Some(t))));
    }

    /** A SCREEN_SHARE_REQUEST forwarded by the room: only the host of this
        computer shows the popup, under the requester's display name. */
    method OnIncomingRequest(requesterId: string, computerId: string, t: AccessType)
      modifies client
      ensures id == Some(computerId) && hostId == Some(client.mySessionId) ==>
                client.State() == old(client.State()).(computer := old(client.computer).(incomingRequest :=
                  CS.IncomingRequest(true, Some(requesterId), Some(RequesterName(old(client.playerNames), requesterId)), Some(t))))
      ensures !(id == Some(computerId) && hostId == Some(client.mySessionId)) ==> client.State() == old(client.State())
    {
      if id != Some(computerId) {
        return;
      }
      if hostId != Some(client.mySessionId) {
        return;
      }
      var requesterName := RequesterName(client.playerNames, requesterId);
      client.Perform(DispatchComputer(CS.ShowIncomingAccessRequest(requesterId, requesterName, t)));
    }

    /** SCREEN_SHARE_APPROVED for this computer: the request is no longer
        pending, the request dialog closes and the viewer connects. */
    method OnApproved(computerId: string, sharerId: string, t: AccessType)
      modifies this, client
      ensures id == old(id) && Seating() == old(Seating()) && dialogText == old(dialogText)
      ensures id == Some(computerId) ==>
                && !hasPendingRequest
                && client.State() == old(client.State()).(
                     computer := old(client.computer).(viewerRequestDialog := CS.ClosedViewerDialog),
                     sent := old(client.sent) + [ConnectToComputer(computerId)])
      ensures id != Some(computerId) ==> hasPendingRequest == old(hasPendingRequest) && client.State() == old(client.State())
    {
      if id != Some(computerId) {
        return;
      }
      hasPendingRequest := false;
      client.Perform(DispatchComputer(CS.CloseViewerRequestDialog));
      client.Perform(Send(ConnectToComputer(computerId)));
    }

    /** SCREEN_SHARE_DENIED for this computer: the request is no longer
        pending, the denial is shown in the store and in the dialog box. */
    method OnDenied(computerId: string)
      modifies this, client
      ensures id == old(id) && Seating() == old(Seating())
      ensures id == Some(computerId) ==>
                && !hasPendingRequest && dialogText == Some(DeniedText)
                && client.State() == old(client.State()).(computer := old(client.computer).(accessDenied := true))
      ensures id != Some(computerId) ==>
                hasPendingRequest == old(hasPendingRequest) && dialogText == old(dialogText)
                && client.State() == old(client.State())
    {
      if id != Some(computerId) {
        return;
      }
      hasPendingRequest := false;
      client.Perform(DispatchComputer(CS.ShowAccessDeniedMessage));
      dialogText := Some(DeniedText);
    }

    /** onHostLeft: the item forgets its host; the users stay. */
    method OnHostLeft()
      requires Valid()
      modifies this
      ensures Valid() && hostId.None? && currentUsers == old(currentUsers)
      ensures id == old(id) && hasPendingRequest == old(hasPendingRequest) && dialogText == old(dialogText)
    {
      hostId := None;
    }
  }
}
