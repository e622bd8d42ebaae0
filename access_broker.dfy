/** The server's screen-share access broker as values: who shares which
    computer, which access requests wait for an answer, and what each
    handler sends. The room class in sky_office.dfy updates its fields in
    place and is proved to follow these functions. */
module AccessBroker {
  import opened Common
  import opened Protocol

  /** `{ sharerId, type }`: the host that must answer, and what was asked for. */
  datatype PendingRequest = PendingRequest(sharerId: string, accessType: AccessType)

  /** `sharerMap`: computerId -> sharer session id.
      `pendingRequests`: computerId -> requesterId -> pending request. */
  datatype Broker = Broker(sharerMap: map<string, string>,
                           pendingRequests: map<string, map<string, PendingRequest>>)

  /** A handler's effect: the new broker state and the messages it emitted,
      in order. */
  datatype Step = Step(next: Broker, sent: seq<Outbound>)

  const Initial := Broker(map[], map[])

  /** No computer keeps an empty map of requests. */
  predicate NoEmptyInner(p: map<string, map<string, PendingRequest>>) {
    forall k :: k in p ==> p[k] != map[]
  }

  /** Every pending request names a (truthy) sharer. */
  predicate NamesSharer(p: map<string, map<string, PendingRequest>>) {
    forall k, q :: k in p && q in p[k] ==> p[k][q].sharerId != ""
  }

  predicate Valid(b: Broker) {
    NoEmptyInner(b.pendingRequests) && NamesSharer(b.pendingRequests)
  }

  /** `sharerMap.get(computerId)` */
  function SharerOf(b: Broker, k: string): Option<string> {
    if k in b.sharerMap then Some(b.sharerMap[k]) else None
  }

  /** `pendingRequests.get(computerId)?.get(requesterId)` */
  function Lookup(p: map<string, map<string, PendingRequest>>, k: string, q: string): Option<PendingRequest> {
    if k in p && q in p[k] then Some(p[k][q]) else None
  }

  /** SCREEN_SHARE_START: the sender becomes the recorded sharer of k,
      whatever was recorded before. Nothing is sent. */
  function StartShare(b: Broker, client: string, k: string): (r: Step)
    ensures r.sent == [] && r.next.pendingRequests == b.pendingRequests
    ensures SharerOf(r.next, k) == Some(client)
    ensures r.next.sharerMap.Keys == b.sharerMap.Keys + {k}
    ensures forall k' :: k' != k ==> SharerOf(r.next, k') == SharerOf(b, k')
    ensures Valid(b) ==> Valid(r.next)
  {
    Step(b.(sharerMap := b.sharerMap[k := client]), [])
  }

  /** SCREEN_SHARE_STOP: only the recorded sharer can stop; it then loses
      the entry and the room hears one STOP. Pending requests for the
      computer are left in place. */
  function StopShare(b: Broker, client: string, k: string): (r: Step)
    ensures r.next.pendingRequests == b.pendingRequests
    ensures SharerOf(b, k) != Some(client) ==> r == Step(b, [])
    ensures SharerOf(b, k) == Some(client) ==>
              && SharerOf(r.next, k) == None
              && r.next.sharerMap.Keys == b.sharerMap.Keys - {k}
              && r.sent == [Broadcast(ScreenShareStop(k))]
    ensures forall k' :: k' != k ==> SharerOf(r.next, k') == SharerOf(b, k')
    ensures Valid(b) ==> Valid(r.next)
  {
    if SharerOf(b, k) == Some(client) then
      Step(b.(sharerMap := b.sharerMap - {k}), [Broadcast(ScreenShareStop(k))])
    else
      Step(b, [])
  }

  /** handleRequest: with no truthy sharer for k nothing happens. Otherwise
      the request of `client` is recorded, replacing an earlier one of the
      same requester for k, and forwarded to the sharer alone if the sharer
      is still connected. */
  function HandleRequest(b: Broker, clients: set<string>, client: string, k: string, t: AccessType): (r: Step)
    ensures r.next.sharerMap == b.sharerMap
    ensures !Truthy(SharerOf(b, k)) ==> r == Step(b, [])
    ensures Truthy(SharerOf(b, k)) ==>
              var sharer := SharerOf(b, k).value;
              && Lookup(r.next.pendingRequests, k, client) == Some(PendingRequest(sharer, t))
              && r.sent == (if sharer in clients then [SendTo(sharer, ScreenShareRequest(client, k, t))] else [])
    ensures forall k', q :: (k' != k || q != client) ==>
              Lookup(r.next.pendingRequests, k', q) == Lookup(b.pendingRequests, k', q)
    ensures forall o :: o in r.sent ==> o.SendTo?
    ensures Valid(b) ==> Valid(r.next)
  {
    var sharer := SharerOf(b, k);
    if !Truthy(sharer) then Step(b, [])
    else
      var requests := if k in b.pendingRequests then b.pendingRequests[k] else map[];
      var p := b.pendingRequests[k := requests[client := PendingRequest(sharer.value, t)]];
      Step(b.(pendingRequests := p),
           if sharer.value in clients then [SendTo(sharer.value, ScreenShareRequest(client, k, t))] else [])
  }

  /** The message a pending request's answer turns into: APPROVED carrying
      the type the host chose, or the requested one if it chose none, or
      DENIED. */
  function Answer(k: string, sharer: string, approved: bool, granted: Option<AccessType>, pending: PendingRequest): (r: ServerMessage)
    ensures r.ScreenShareApproved? <==> approved
    ensures !approved ==> r == ScreenShareDenied(k)
    ensures approved && granted.Some? ==> r == ScreenShareApproved(k, sharer, granted.value)
    ensures approved && granted.None? ==> r == ScreenShareApproved(k, sharer, pending.accessType)
  {
    if approved then ScreenShareApproved(k, sharer, if granted.Some? then granted.value else pending.accessType)
    else ScreenShareDenied(k)
  }

  /** SCREEN_SHARE_RESPONSE: an answer without a matching pending request,
      or from anyone but that request's sharer, changes nothing and sends
      nothing. An authorised answer reaches the requester (if connected)
      and the request is deleted, together with its computer's map of
      requests once that is empty. */
  function Respond(b: Broker, clients: set<string>, client: string, requesterId: string, k: string,
                   approved: bool, granted: Option<AccessType>): (r: Step)
    ensures r.next.sharerMap == b.sharerMap
    ensures var pending := Lookup(b.pendingRequests, k, requesterId);
            pending.None? || pending.value.sharerId != client ==> r == Step(b, [])
    ensures var pending := Lookup(b.pendingRequests, k, requesterId);
            pending.Some? && pending.value.sharerId == client ==>
              && Lookup(r.next.pendingRequests, k, requesterId) == None
              && r.sent == (if requesterId in clients
                            then [SendTo(requesterId, Answer(k, client, approved, granted, pending.value))]
                            else [])
    ensures forall k', q :: (k' != k || q != requesterId) ==>
              Lookup(r.next.pendingRequests, k', q) == Lookup(b.pendingRequests, k', q)
    ensures Valid(b) ==> Valid(r.next)
  {
    var pending := Lookup(b.pendingRequests, k, requesterId);
    if pending.None? || pending.value.sharerId != client then Step(b, [])
    else
      var requests := b.pendingRequests[k] - {requesterId};
      var p := if |requests| == 0 then b.pendingRequests - {k} else b.pendingRequests[k := requests];
      Step(b.(pendingRequests := p),
           if requesterId in clients then [SendTo(requesterId, Answer(k, client, approved, granted, pending.value))]
           else [])
  }

  /** The broker part of the room's message handlers: SCREEN_SHARE_REQUEST
      is always handled as a 'view' request, whatever type its payload
      carries; REMOTE_CONTROL_REQUEST always as 'control'. Other messages
      leave the broker alone. */
  function Receive(b: Broker, clients: set<string>, client: string, msg: ClientMessage): (r: Step)
    ensures Valid(b) ==> Valid(r.next)
    ensures !(msg.StartScreenShare? || msg.StopScreenShare?) ==> r.next.sharerMap == b.sharerMap
    ensures msg.StartScreenShare? || msg.StopScreenShare? ==> r.next.pendingRequests == b.pendingRequests
    ensures (msg.RequestScreenShare? || msg.RequestRemoteControl?) && Truthy(SharerOf(b, msg.computerId)) ==>
              Lookup(r.next.pendingRequests, msg.computerId, client)
                == Some(PendingRequest(SharerOf(b, msg.computerId).value, if msg.RequestRemoteControl? then Control else View))
    ensures (|| msg.ReadyToConnect? || msg.VideoConnected? || msg.VideoDisconnected? || msg.EndCall?
             || msg.ConnectToComputer? || msg.DisconnectFromComputer?) ==> r == Step(b, [])
  {
    match msg
    case StartScreenShare(k) => StartShare(b, client, k)
    case StopScreenShare(k) => StopShare(b, client, k)
    case RequestScreenShare(k, _) => HandleRequest(b, clients, client, k, View)
    case RequestRemoteControl(k) => HandleRequest(b, clients, client, k, Control)
    case RespondToRequest(q, k, approved, granted) => Respond(b, clients, client, q, k, approved, granted)
    case _ => Step(b, [])
  }

  /* ---------------- onLeave cascade ---------------- */

  /** The computers whose recorded sharer is s. */
  function StoppedBy(m: map<string, string>, s: string): (ks: set<string>)
    ensures forall k :: k in ks <==> k in m && m[k] == s
  {
    set k | k in m && m[k] == s
  }

  /** sharerMap after the host s leaves. */
  function PurgeSharers(m: map<string, string>, s: string): (r: map<string, string>)
    ensures r.Keys == m.Keys - StoppedBy(m, s)
    ensures forall k :: k in r ==> r[k] == m[k] && r[k] != s
  {
    map k | k in m && m[k] != s :: m[k]
  }

  /** One computer's requests after s leaves: those made by s or addressed
      to s are gone. */
  function PurgeRequests(requests: map<string, PendingRequest>, s: string): (r: map<string, PendingRequest>)
    ensures forall q :: q in r <==> q in requests && q != s && requests[q].sharerId != s
    ensures forall q :: q in r ==> r[q] == requests[q]
  {
    map q | q in requests && q != s && requests[q].sharerId != s :: requests[q]
  }

  /** pendingRequests after s leaves: every computer's requests purged, and
      every map of requests left empty removed. */
  function PurgePending(p: map<string, map<string, PendingRequest>>, s: string): (r: map<string, map<string, PendingRequest>>)
    ensures NoEmptyInner(r)
    ensures forall k, q :: Lookup(r, k, q).Some? <==>
              Lookup(p, k, q).Some? && q != s && Lookup(p, k, q).value.sharerId != s
    ensures forall k, q :: Lookup(r, k, q).Some? ==> Lookup(r, k, q) == Lookup(p, k, q)
  {
    map k | k in p && PurgeRequests(p[k], s) != map[] :: PurgeRequests(p[k], s)
  }

  /** The broker after onLeave(s). */
  function Leave(b: Broker, s: string): (r: Broker)
    ensures forall k :: k in r.sharerMap ==> r.sharerMap[k] != s
    ensures forall k, q :: Lookup(r.pendingRequests, k, q).Some? ==>
              q != s && Lookup(r.pendingRequests, k, q).value.sharerId != s
    ensures NoEmptyInner(r.pendingRequests)
    ensures Valid(b) ==> Valid(r)
  {
    Broker(PurgeSharers(b.sharerMap, s), PurgePending(b.pendingRequests, s))
  }

  /** onLeave is idempotent: a second run for the same session changes
      nothing and stops no further computer. */
  lemma {:induction false} LeaveIsIdempotent(b: Broker, s: string)
    ensures Leave(Leave(b, s), s) == Leave(b, s)
    ensures StoppedBy(Leave(b, s).sharerMap, s) == {}
  {
    var once := Leave(b, s);
    var twice := Leave(once, s);
    assert twice.sharerMap == once.sharerMap;
    forall k | k in once.pendingRequests
      ensures PurgeRequests(once.pendingRequests[k], s) == once.pendingRequests[k]
    {
      var requests := once.pendingRequests[k];
      forall q | q in requests ensures q != s && requests[q].sharerId != s {
        assert Lookup(once.pendingRequests, k, q).Some?;
      }
    }
    assert twice.pendingRequests == once.pendingRequests;
  }

  /* ---------------- multi-step properties ---------------- */

  /** Starting to share twice in a row leaves one sharerMap entry for k,
      naming the sender: the same state as starting once. */
  lemma StartShareTwice(b: Broker, client: string, k: string)
    ensures StartShare(StartShare(b, client, k).next, client, k) == StartShare(b, client, k)
  {
  }

  /** A second START for an already shared computer silently replaces the
      sharer: nothing checks that the computer is free. */
  lemma StartShareOverwrites(b: Broker, host: string, other: string, k: string)
    requires SharerOf(b, k) == Some(host) && other != host
    ensures SharerOf(StartShare(b, other, k).next, k) == Some(other)
  {
  }

  /** After a legitimate STOP or the sharer's departure, k has no sharer. */
  lemma StopOrLeaveClearsSharer(b: Broker, host: string, k: string)
    requires SharerOf(b, k) == Some(host)
    ensures SharerOf(StopShare(b, host, k).next, k) == None
    ensures SharerOf(Leave(b, host), k) == None && k in StoppedBy(b.sharerMap, host)
  {
  }

  /** A control request through REMOTE_CONTROL_REQUEST, approved without a
      type, reaches the requester as APPROVED{control}; afterwards no
      request of that requester for k is pending. */
  lemma {:induction false} ControlRoundTrip(b: Broker, clients: set<string>, host: string, viewer: string, k: string)
    requires SharerOf(b, k) == Some(host) && host != ""
    requires viewer in clients
    ensures var s1 := Receive(b, clients, viewer, RequestRemoteControl(k));
            var s2 := Receive(s1.next, clients, host, RespondToRequest(viewer, k, true, None));
            && s2.sent == [SendTo(viewer, ScreenShareApproved(k, host, Control))]
            && Lookup(s2.next.pendingRequests, k, viewer) == None
  {
    var s1 := Receive(b, clients, viewer, RequestRemoteControl(k));
    assert Lookup(s1.next.pendingRequests, k, viewer) == Some(PendingRequest(host, Control));
  }

  /** A request sent as SCREEN_SHARE_REQUEST is recorded as 'view' even when
      its payload says 'control', so an approval without a type grants
      'view'. */
  lemma {:induction false} ControlPayloadIsRecordedAsView(b: Broker, clients: set<string>, host: string, viewer: string, k: string)
    requires SharerOf(b, k) == Some(host) && host != ""
    requires viewer in clients
    ensures var s1 := Receive(b, clients, viewer, RequestScreenShare(k, Control));
            && Lookup(s1.next.pendingRequests, k, viewer) == Some(PendingRequest(host, View))
            && Receive(s1.next, clients, host, RespondToRequest(viewer, k, true, None)).sent
               == [SendTo(viewer, ScreenShareApproved(k, host, View))]
  {
    var s1 := Receive(b, clients, viewer, RequestScreenShare(k, Control));
    assert Lookup(s1.next.pendingRequests, k, viewer) == Some(PendingRequest(host, View));
  }

  /** A denial reaches the requester as DENIED and leaves no request of
      that requester for k. */
  lemma {:induction false} DenialRoundTrip(b: Broker, clients: set<string>, host: string, viewer: string, k: string, t: AccessType)
    requires SharerOf(b, k) == Some(host) && host != ""
    requires viewer in clients
    ensures var s1 := HandleRequest(b, clients, viewer, k, t);
            var s2 := Respond(s1.next, clients, host, viewer, k, false, None);
            && s2.sent == [SendTo(viewer, ScreenShareDenied(k))]
            && Lookup(s2.next.pendingRequests, k, viewer) == None
  {
    var s1 := HandleRequest(b, clients, viewer, k, t);
    assert Lookup(s1.next.pendingRequests, k, viewer) == Some(PendingRequest(host, t));
  }

  /** While h shares computer k, two viewers ask h for it, the first for 'view' and the
      second for 'control': both requests coexist; h approves the first,
      who gets APPROVED{view}, while the second stays pending. */
  lemma {:induction false} TwoViewers(b: Broker, clients: set<string>, h: string, v1: string, v2: string, k: string)
    requires SharerOf(b, k) == Some(h) && h != "" && v1 != v2
    requires v1 in clients
    ensures var s1 := Receive(b, clients, v1, RequestScreenShare(k, View));
            var s2 := Receive(s1.next, clients, v2, RequestRemoteControl(k));
            var s3 := Receive(s2.next, clients, h, RespondToRequest(v1, k, true, None));
            && Lookup(s2.next.pendingRequests, k, v1) == Some(PendingRequest(h, View))
            && Lookup(s2.next.pendingRequests, k, v2) == Some(PendingRequest(h, Control))
            && s3.sent == [SendTo(v1, ScreenShareApproved(k, h, View))]
            && Lookup(s3.next.pendingRequests, k, v2) == Some(PendingRequest(h, Control))
  {
    var s1 := Receive(b, clients, v1, RequestScreenShare(k, View));
    var s2 := Receive(s1.next, clients, v2, RequestRemoteControl(k));
    assert Lookup(s1.next.pendingRequests, k, v1) == Some(PendingRequest(h, View));
    assert Lookup(s2.next.pendingRequests, k, v1) == Some(PendingRequest(h, View));
  }

  /** A requester who leaves before the answer takes the request along:
      the host's later answer for that requester is stale and changes
      nothing. */
  lemma {:induction false} StaleAnswerAfterRequesterLeft(b: Broker, clients: set<string>, host: string, viewer: string,
                                                       k: string, approved: bool, granted: Option<AccessType>)
    ensures var left := Leave(b, viewer);
            Respond(left, clients, host, viewer, k, approved, granted) == Step(left, [])
  {
    var left := Leave(b, viewer);
    assert Lookup(left.pendingRequests, k, viewer) == None;
  }
}
