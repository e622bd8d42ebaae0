/** The SkyOffice room: its message handlers, onJoin and the onLeave
    cascade. The handlers update the room's maps in place; each is proved
    to have the effect the matching AccessBroker function describes. */
module Room {
  import opened Common
  import opened Protocol
  import opened OfficeSchema
  import ComputerCommands
  import AB = AccessBroker

  /** The sets of a map of item -> connectedUser, with s removed from each. */
  function WithoutMember(sets: map<string, set<string>>, s: string): (r: map<string, set<string>>)
    ensures r.Keys == sets.Keys
    ensures forall k :: k in r ==> s !in r[k] && r[k] + {s} >= sets[k] && r[k] <= sets[k]
  {
    map k | k in sets :: sets[k] - {s}
  }

  /** One `forEach` of onLeave over computers or whiteboards: s is deleted
      from every connectedUser set that has it. */
  method DropMember(sets: map<string, set<string>>, s: string) returns (r: map<string, set<string>>)
    ensures r == WithoutMember(sets, s)
  {
    r := sets;
    var todo := sets.Keys;
    while todo != {}
      invariant todo <= sets.Keys
      invariant r.Keys == sets.Keys
      invariant forall k :: k in r ==> r[k] == if k in todo then sets[k] else sets[k] - {s}
      decreases todo
    {
      var k :| k in todo;
      if s in r[k] {
        r := r[k := r[k] - {s}];
      }
      todo := todo - {k};
    }
  }

  /** The messages onLeave broadcasts while purging sharerMap: one STOP per
      computer in ks and nothing else, so each computer exactly once. The
      order follows the map's iteration order, which is left open. */
  ghost predicate StopsFor(msgs: seq<Outbound>, ks: set<string>) {
    && |msgs| == |ks|
    && (forall i :: 0 <= i < |msgs| ==> msgs[i].Broadcast? && msgs[i].msg.ScreenShareStop? && msgs[i].msg.computerId in ks)
    && (forall k :: k in ks ==> Broadcast(ScreenShareStop(k)) in msgs)
  }

  /** The inner `forEach` of onLeave's step 4 over one computer's requests:
      requests made by s or addressed to s are deleted. */
  method PurgeRequests(requests: map<string, AB.PendingRequest>, s: string) returns (r: map<string, AB.PendingRequest>)
    ensures r == AB.PurgeRequests(requests, s)
  {
    r := requests;
    var requesters := requests.Keys;
    while requesters != {}
      invariant requesters <= requests.Keys
      invariant r == map q | q in requests && (q in requesters || (q != s && requests[q].sharerId != s)) :: requests[q]
      decreases requesters
    {
      var q :| q in requesters;
      if q == s || r[q].sharerId == s {
        r := r - {q};
      }
      requesters := requesters - {q};
    }
  }

  /** One more STOP, for a computer not yet stopped, keeps the broadcasts
      one per stopped computer. */
  lemma StopsForAppend(msgs: seq<Outbound>, ks: set<string>, k: string)
    requires StopsFor(msgs, ks) && k !in ks
    ensures StopsFor(msgs + [Broadcast(ScreenShareStop(k))], ks + {k})
  {
    var msgs' := msgs + [Broadcast(ScreenShareStop(k))];
    assert |ks + {k}| == |ks| + 1;
    forall k' | k' in ks + {k} ensures Broadcast(ScreenShareStop(k')) in msgs' {
      if k' != k {
        assert Broadcast(ScreenShareStop(k')) in msgs;
      } else {
        assert msgs'[|msgs|] == Broadcast(ScreenShareStop(k));
      }
    }
  }

  /** Step 3 of onLeave, the `forEach` over sharerMap: every computer whose
      sharer is s is deleted, with a STOP broadcast for each. */
  method ReleaseSharers(sharers: map<string, string>, s: string) returns (kept: map<string, string>, stops: seq<Outbound>)
    ensures kept == AB.PurgeSharers(sharers, s)
    ensures StopsFor(stops, AB.StoppedBy(sharers, s))
  {
    kept, stops := sharers, [];
    var computers := sharers.Keys;
    ghost var done: set<string> := {};
    while computers != {}
      invariant computers <= sharers.Keys && kept.Keys <= sharers.Keys
      invariant forall k :: k in sharers ==> (k in kept <==> k in computers || sharers[k] != s)
      invariant forall k :: k in kept ==> kept[k] == sharers[k]
      invariant forall k :: k in done <==> k in sharers && k !in computers && sharers[k] == s
      invariant StopsFor(stops, done)
      decreases computers
    {
      var k :| k in computers;
      if kept[k] == s {
        StopsForAppend(stops, done, k);
        kept := kept - {k};
        stops := stops + [Broadcast(ScreenShareStop(k))];
        done := done + {k};
      }
      computers := computers - {k};
    }
    assert done == AB.StoppedBy(sharers, s);
    assert kept.Keys == AB.PurgeSharers(sharers, s).Keys;
  }

  /** Step 4 of onLeave, the outer `forEach` over pendingRequests: each
      computer's requests are purged, and a map of requests left empty is
      deleted. */
  method PurgePending(pending: map<string, map<string, AB.PendingRequest>>, s: string)
    returns (r: map<string, map<string, AB.PendingRequest>>)
    ensures r == AB.PurgePending(pending, s)
  {
    r := pending;
    var keys := pending.Keys;
    while keys != {}
      invariant keys <= pending.Keys && r.Keys <= pending.Keys
      invariant forall k :: k in pending ==> (k in r <==> k in keys || AB.PurgeRequests(pending[k], s) != map[])
      invariant forall k :: k in r ==> r[k] == if k in keys then pending[k] else AB.PurgeRequests(pending[k], s)
      decreases keys
    {
      var k :| k in keys;
      var requests := PurgeRequests(r[k], s);
      if |requests| == 0 {
        r := r - {k};
      } else {
        r := r[k := requests];
      }
      keys := keys - {k};
    }
    assert r.Keys == AB.PurgePending(pending, s).Keys;
  }

  /** READY_TO_CONNECT: the sender's player, if there is one, becomes
      ready; every other player is kept. */
  function MarkReady(players: map<string, Player>, client: string): (r: map<string, Player>)
    ensures r.Keys == players.Keys
    ensures client in players ==> r[client] == Player(true, players[client].videoConnected)
    ensures forall p :: p in players && p != client ==> r[p] == players[p]
  {
    if client in players then players[client := players[client].(readyToConnect := true)] else players
  }

  /** VIDEO_CONNECTED, VIDEO_DISCONNECTED and END_CALL: the sender's
      player, if there is one, has its video flag set to `on`; every other
      player is kept. */
  function MarkVideo(players: map<string, Player>, client: string, on: bool): (r: map<string, Player>)
    ensures r.Keys == players.Keys
    ensures client in players ==> r[client] == Player(players[client].readyToConnect, on)
    ensures forall p :: p in players && p != client ==> r[p] == players[p]
  {
    if client in players then players[client := players[client].(videoConnected := on)] else players
  }

  class SkyOffice {
    /** computerId -> sharer session id */
    var sharerMap: map<string, string>
    /** computerId -> requesterId -> { sharerId, type } */
    var pendingRequests: map<string, map<string, AB.PendingRequest>>
    /** Session ids of the connected clients (`this.clients`). */
    var clients: set<string>
    /** Everything the room sent or broadcast, in order. */
    var outbox: seq<Outbound>
    const state: OfficeState

    function Broker(): AB.Broker
      reads this
    {
      AB.Broker(sharerMap, pendingRequests)
    }

    predicate Valid()
      reads this
    {
      AB.Valid(Broker())
    }

    /** onCreate: an empty broker and a fresh office state. */
    constructor ()
      ensures Valid() && Broker() == AB.Initial
      ensures clients == {} && outbox == []
      ensures fresh(state) && state.players == map[]
      ensures state.computers.Keys == ItemIds(ComputerCount) && state.whiteboards.Keys == ItemIds(WhiteboardCount)
    {
      state := new OfficeState();
      sharerMap := map[];
      pendingRequests := map[];
      clients := {};
      outbox := [];
      new;
      assert Broker() == AB.Initial;
    }

    /** onJoin: the framework lists the client, and a new player with both
        flags off is registered under its session id. */
    method OnJoin(sessionId: string)
      modifies this, state
      ensures Broker() == old(Broker()) && outbox == old(outbox)
      ensures clients == old(clients) + {sessionId}
      ensures state.players == old(state.players)[sessionId := NewPlayer]
      ensures state.computers == old(state.computers) && state.whiteboards == old(state.whiteboards)
    {
      clients := clients + {sessionId};
      state.players := state.players[sessionId := NewPlayer];
    }

    /** SCREEN_SHARE_START */
    method OnScreenShareStart(client: string, computerId: string)
      requires Valid()
      modifies this
      ensures Valid() && clients == old(clients)
      ensures var step := AB.StartShare(old(Broker()), client, computerId);
              Broker() == step.next && outbox == old(outbox) + step.sent
    {
      sharerMap := sharerMap[computerId := client];
    }

    /** SCREEN_SHARE_STOP */
    method OnScreenShareStop(client: string, computerId: string)
      requires Valid()
      modifies this
      ensures Valid() && clients == old(clients)
      ensures var step := AB.StopShare(old(Broker()), client, computerId);
              Broker() == step.next && outbox == old(outbox) + step.sent
    {
      if computerId in sharerMap && sharerMap[computerId] == client {
        sharerMap := sharerMap - {computerId};
        outbox := outbox + [Broadcast(ScreenShareStop(computerId))];
      }
    }

    /** handleRequest, shared by the view and the control request handlers. */
    method HandleRequest(client: string, computerId: string, t: AccessType)
      requires Valid()
      modifies this
      ensures Valid() && clients == old(clients)
      ensures var step := AB.HandleRequest(old(Broker()), old(clients), client, computerId, t);
              Broker() == step.next && outbox == old(outbox) + step.sent
    {
      ghost var step := AB.HandleRequest(Broker(), clients, client, computerId, t);
      if computerId !in sharerMap || sharerMap[computerId] == "" {
        return;
      }
      var sharerId := sharerMap[computerId];
      ghost var requests := if computerId in pendingRequests then pendingRequests[computerId] else map[];
      assert step.next == AB.Broker(sharerMap, pendingRequests[computerId := requests[client := AB.PendingRequest(sharerId, t)]]);
      if computerId !in pendingRequests {
        pendingRequests := pendingRequests[computerId := map[]];
      }
      assert pendingRequests[computerId] == requests;
      pendingRequests := pendingRequests[computerId := pendingRequests[computerId][client := AB.PendingRequest(sharerId, t)]];
      assert Broker() == step.next;
      if sharerId in clients {
        outbox := outbox + [SendTo(sharerId, ScreenShareRequest(client, computerId, t))];
      }
    }

    /** SCREEN_SHARE_RESPONSE, with its authorisation check. */
    method OnScreenShareResponse(client: string, requesterId: string, computerId: string,
                                 approved: bool, granted: Option<AccessType>)
      requires Valid()
      modifies this
      ensures Valid() && clients == old(clients)
      ensures var step := AB.Respond(old(Broker()), old(clients), client, requesterId, computerId, approved, granted);
              Broker() == step.next && outbox == old(outbox) + step.sent
    {
      if computerId !in pendingRequests || requesterId !in pendingRequests[computerId] {
        return;
      }
      var pending := pendingRequests[computerId][requesterId];
      if pending.sharerId != client {
        return;
      }
      var reply: seq<Outbound> := [];
      if requesterId in clients {
        if approved {
          var t := if granted.Some? then granted.value else pending.accessType;
          reply := [SendTo(requesterId, ScreenShareApproved(computerId, client, t))];
        } else {
          reply := [SendTo(requesterId, ScreenShareDenied(computerId))];
        }
      }
      // the request leaves its computer's map, which goes too once empty
      var requests := pendingRequests[computerId] - {requesterId};
      var remaining := if |requests| == 0 then pendingRequests - {computerId}
                       else pendingRequests[computerId := requests];
      ghost var step := AB.Respond(Broker(), clients, client, requesterId, computerId, approved, granted);
      assert step == AB.Step(AB.Broker(sharerMap, remaining), reply);
      pendingRequests := remaining;
      outbox := outbox + reply;
    }

    /** READY_TO_CONNECT */
    method OnReadyToConnect(client: string)
      modifies state
      ensures state.players == MarkReady(old(state.players), client)
      ensures state.computers == old(state.computers) && state.whiteboards == old(state.whiteboards)
    {
      if client in state.players {
        state.players := state.players[client := state.players[client].(readyToConnect := true)];
      }
    }

    /** VIDEO_CONNECTED (true) and VIDEO_DISCONNECTED / END_CALL (false). */
    method SetVideoConnected(client: string, on: bool)
      modifies state
      ensures state.players == MarkVideo(old(state.players), client, on)
      ensures state.computers == old(state.computers) && state.whiteboards == old(state.whiteboards)
    {
      if client in state.players {
        state.players := state.players[client := state.players[client].(videoConnected := on)];
      }
    }

    /** The message handlers registered in onCreate, for the messages of
        the seat, proximity and screen-share protocol. */
    method OnMessage(client: string, msg: ClientMessage)
      requires Valid()
      modifies this, state
      ensures Valid() && clients == old(clients)
      ensures var step := AB.Receive(old(Broker()), old(clients), client, msg);
              Broker() == step.next && outbox == old(outbox) + step.sent
      ensures state.whiteboards == old(state.whiteboards)
      ensures !(msg.ConnectToComputer? || msg.DisconnectFromComputer?) ==> state.computers == old(state.computers)
      ensures (msg.StartScreenShare? || msg.StopScreenShare? || msg.RequestScreenShare? ||
               msg.RequestRemoteControl? || msg.RespondToRequest?) ==> state.players == old(state.players)
      ensures msg.ReadyToConnect? ==> state.players == MarkReady(old(state.players), client)
      ensures msg.VideoConnected? ==> state.players == MarkVideo(old(state.players), client, true)
      ensures msg.VideoDisconnected? || msg.EndCall? ==> state.players == MarkVideo(old(state.players), client, false)
      ensures msg.ConnectToComputer? ==>
                ComputerCommands.Roster(state.computers, state.players)
                  == ComputerCommands.Added(ComputerCommands.Roster(old(state.computers), old(state.players)), client, msg.computerId)
      ensures msg.DisconnectFromComputer? ==>
                ComputerCommands.Roster(state.computers, state.players)
                  == ComputerCommands.Removed(ComputerCommands.Roster(old(state.computers), old(state.players)), client, msg.computerId)
    {
      match msg {
        case ReadyToConnect => OnReadyToConnect(client);
        case VideoConnected => SetVideoConnected(client, true);
        case VideoDisconnected => SetVideoConnected(client, false);
        case EndCall => SetVideoConnected(client, false);
        case ConnectToComputer(k) => ComputerCommands.AddUser(state, client, k);
        case DisconnectFromComputer(k) => ComputerCommands.RemoveUser(state, client, k);
        case StartScreenShare(k) => OnScreenShareStart(client, k);
        case StopScreenShare(k) => OnScreenShareStop(client, k);
        case RequestScreenShare(k, _) => HandleRequest(client, k, View);
        case RequestRemoteControl(k) => HandleRequest(client, k, Control);
        case RespondToRequest(q, k, approved, granted) => OnScreenShareResponse(client, q, k, approved, granted);
      }
    }

    /** onLeave(s). The framework has already dropped the client. Then s
        leaves every computer and whiteboard, every computer s shares is
        released with one STOP broadcast each, every pending request made
        by s or addressed to s is dropped along with maps of requests left
        empty, and the player is removed. */
    method OnLeave(s: string)
      requires Valid()
      modifies this, state
      ensures Valid()
      ensures Broker() == AB.Leave(old(Broker()), s)
      ensures |outbox| >= |old(outbox)| && outbox[..|old(outbox)|] == old(outbox)
      ensures StopsFor(outbox[|old(outbox)|..], AB.StoppedBy(old(sharerMap), s))
      ensures clients == old(clients) - {s}
      ensures state.computers == WithoutMember(old(state.computers), s)
      ensures state.whiteboards == WithoutMember(old(state.whiteboards), s)
      ensures state.players == old(state.players) - {s}
    {
      clients := clients - {s};
      state.computers := DropMember(state.computers, s);
      state.whiteboards := DropMember(state.whiteboards, s);
      var kept, stops := ReleaseSharers(sharerMap, s);
      sharerMap := kept;
      outbox := outbox + stops;
      pendingRequests := PurgePending(pendingRequests, s);
      assert AB.Valid(old(Broker())) && Broker() == AB.Leave(old(Broker()), s);
      state.players := state.players - {s};
    }
  }
}
