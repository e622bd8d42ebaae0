/** The game scene's share of the conference logic: the conference zone,
    the per-tick proximity decision that asks the room to connect video or
    to end the call, the map of other players, and the routing of item
    membership updates to the computer items. */
module GameScene {
  import opened Common
  import opened Protocol
  import CI = ComputerItem

  /** Positions in whole pixels. */
  datatype Position = Position(x: int, y: int)

  const ZoneXMin := 655
  const ZoneXMax := 845
  const ZoneYMin := 460
  const ZoneYMax := 640
  const ProximityConnectDistance := 80
  /** Declared by the scene but never read. */
  const ProximityDisconnectDistance := 120

  /** isInConferenceZone, bounds included: the rectangle centred on
      (750, 550), 95 pixels to either side and 90 above and below. */
  predicate IsInConferenceZone(p: Position): (r: bool)
    ensures r <==> -95 <= p.x - 750 <= 95 && -90 <= p.y - 550 <= 90
  {
    ZoneXMin <= p.x <= ZoneXMax && ZoneYMin <= p.y <= ZoneYMax
  }

  /** `Distance.Between(a, b) < 80`, compared on squares so that it stays
      in integers: two players are near only when they are less than 80
      pixels apart along each axis, and on a common row or column exactly
      then. */
  predicate Near(a: Position, b: Position): (r: bool)
    ensures r ==> -ProximityConnectDistance < a.x - b.x < ProximityConnectDistance
    ensures r ==> -ProximityConnectDistance < a.y - b.y < ProximityConnectDistance
    ensures a.y == b.y ==> (r <==> -ProximityConnectDistance < a.x - b.x < ProximityConnectDistance)
    ensures a.x == b.x ==> (r <==> -ProximityConnectDistance < a.y - b.y < ProximityConnectDistance)
  {
    SquareBelow(a.x - b.x);
    SquareBelow(a.y - b.y);
    (a.x - b.x) * (a.x - b.x) + (a.y - b.y) * (a.y - b.y) < ProximityConnectDistance * ProximityConnectDistance
  }

  /** A square is below 80 squared exactly when its root lies strictly
      between -80 and 80. */
  lemma SquareBelow(d: int)
    ensures 0 <= d * d
    ensures d * d < ProximityConnectDistance * ProximityConnectDistance <==> -ProximityConnectDistance < d < ProximityConnectDistance
  {
    if d >= ProximityConnectDistance {
      assert d * d >= ProximityConnectDistance * d;
    } else if d <= -ProximityConnectDistance {
      assert d * d >= -ProximityConnectDistance * d;
    } else if d >= 0 {
      assert d * d <= d * (ProximityConnectDistance - 1);
    } else {
      assert d * d <= -d * (ProximityConnectDistance - 1);
    }
  }

  /** Some other player stands near: this depends only on where the others
      stand, not on their ids, and nobody is near in an empty scene. */
  predicate AnyNear(me: Position, others: map<string, Position>): (r: bool)
    ensures r <==> exists p :: p in others.Values && Near(me, p)
    ensures others == map[] ==> !r
  {
    exists id :: id in others && Near(me, others[id])
  }

  /** A player joining or moving to `p` under `id` makes someone near
      exactly when `p` is near or someone else already was. */
  lemma {:induction false} AnyNearAfterJoin(me: Position, others: map<string, Position>, id: string, p: Position)
    ensures AnyNear(me, others[id := p]) <==> Near(me, p) || AnyNear(me, others - {id})
  {
    var after := others[id := p];
    if AnyNear(me, others - {id}) {
      var i :| i in others - {id} && Near(me, (others - {id})[i]);
      assert i in after && after[i] == others[i];
    }
    if AnyNear(me, after) {
      var i :| i in after && Near(me, after[i]);
      if i != id {
        assert i in others - {id};
      }
    }
    assert id in after && after[id] == p;
  }

  /** The three-way branch at the end of update: the message the tick
      sends, if any. */
  function Decide(inZone: bool, connected: bool, anyNear: bool): (r: Option<ClientMessage>)
    ensures r == Some(VideoConnected) <==> (inZone && !connected) || (!inZone && !connected && anyNear)
    ensures r == Some(EndCall) <==> !inZone && connected && !anyNear
    ensures r.Some? ==> r.value == VideoConnected || r.value == EndCall
    ensures inZone && connected ==> r.None?
  {
    if inZone && !connected then Some(VideoConnected)
    else if !inZone && connected && !anyNear then Some(EndCall)
    else if !inZone && !connected && anyNear then Some(VideoConnected)
    else None
  }

  /** Every point on the zone's edges belongs to it, and every point one
      pixel beyond an edge does not. */
  lemma ZoneBoundsAreInclusive(x: int, y: int)
    ensures ZoneYMin <= y <= ZoneYMax ==>
              IsInConferenceZone(Position(ZoneXMin, y)) && IsInConferenceZone(Position(ZoneXMax, y))
              && !IsInConferenceZone(Position(ZoneXMin - 1, y)) && !IsInConferenceZone(Position(ZoneXMax + 1, y))
    ensures ZoneXMin <= x <= ZoneXMax ==>
              IsInConferenceZone(Position(x, ZoneYMin)) && IsInConferenceZone(Position(x, ZoneYMax))
              && !IsInConferenceZone(Position(x, ZoneYMin - 1)) && !IsInConferenceZone(Position(x, ZoneYMax + 1))
  {
  }

  /** Outside the zone, connecting and disconnecting use the same test:
      whenever a disconnected player would be connected, a connected one
      would stay connected, and the other way round. */
  lemma ConnectAndDisconnectShareOneThreshold(anyNear: bool)
    ensures Decide(false, false, anyNear) == Some(VideoConnected) <==> Decide(false, true, anyNear) != Some(EndCall)
  {
  }

  /** With no hysteresis, a connected player outside the zone whose only
      neighbour stands 100 pixels away, inside the unused 120-pixel
      disconnect distance, ends the call. */
  lemma NoHysteresisBetween80And120()
    ensures !AnyNear(Position(0, 0), map["other" := Position(100, 0)])
    ensures Decide(IsInConferenceZone(Position(0, 0)), true, AnyNear(Position(0, 0), map["other" := Position(100, 0)])) == Some(EndCall)
  {
    var others := map["other" := Position(100, 0)];
    forall id | id in others ensures !Near(Position(0, 0), others[id]) {
      assert id == "other";
    }
  }

  /** The item kinds the scene routes membership updates for. */
  datatype ItemType = Chair | Computer | Whiteboard | VendingMachine

  /** A membership update routed to a whiteboard item; the whiteboard's own
      handling is not part of this model. */
  datatype WhiteboardUpdate = UserAdded(itemId: string, playerId: string) | UserRemoved(itemId: string, playerId: string)

  class Game {
    var myPosition: Position
    /** myPlayer.videoConnected */
    var videoConnected: bool
    var otherPlayerMap: map<string, Position>
    var computerMap: map<string, CI.Computer>
    var whiteboardIds: set<string>
    var whiteboardUpdates: seq<WhiteboardUpdate>

    /** Every computer item keeps its host among its users. */
    predicate Valid()
      reads this, computerMap.Values
    {
      forall id :: id in computerMap ==> computerMap[id].Valid()
    }

    /** The proximity part of update: outside the zone, look for another
        player nearer than 80 pixels, stopping at the first; then pick the
        message to send. */
    method ProximityTick() returns (request: Option<ClientMessage>)
      ensures var inZone := IsInConferenceZone(myPosition);
              request == Decide(inZone, videoConnected, !inZone && AnyNear(myPosition, otherPlayerMap))
    {
      var inZone := IsInConferenceZone(myPosition);
      var anyPlayerNear := false;
      if !inZone {
        var todo := otherPlayerMap.Keys;
        while todo != {}
          invariant todo <= otherPlayerMap.Keys
          invariant !anyPlayerNear
          invariant forall id :: id in otherPlayerMap && id !in todo ==> !Near(myPosition, otherPlayerMap[id])
          decreases todo
        {
          var id :| id in todo;
          if Near(myPosition, otherPlayerMap[id]) {
            anyPlayerNear := true;
            break;
          }
          todo := todo - {id};
        }
      }
      if inZone && !videoConnected {
        request := Some(VideoConnected);
      } else if !inZone && videoConnected && !anyPlayerNear {
        request := Some(EndCall);
      } else if !inZone && !videoConnected && anyPlayerNear {
        request := Some(VideoConnected);
      } else {
        request := None;
      }
    }

    /** handlePlayerJoined: a known id is ignored; a new one is placed. */
    method HandlePlayerJoined(id: string, position: Position)
      modifies this
      ensures otherPlayerMap == if id in old(otherPlayerMap) then old(otherPlayerMap) else old(otherPlayerMap)[id := position]
      ensures myPosition == old(myPosition) && videoConnected == old(videoConnected)
      ensures computerMap == old(computerMap) && whiteboardIds == old(whiteboardIds) && whiteboardUpdates == old(whiteboardUpdates)
    {
      if id in otherPlayerMap {
        return;
      }
      otherPlayerMap := otherPlayerMap[id := position];
    }

    /** handlePlayerLeft: the id is removed if present. */
    method HandlePlayerLeft(id: string)
      modifies this
      ensures otherPlayerMap == old(otherPlayerMap) - {id}
      ensures myPosition == old(myPosition) && videoConnected == old(videoConnected)
      ensures computerMap == old(computerMap) && whiteboardIds == old(whiteboardIds) && whiteboardUpdates == old(whiteboardUpdates)
    {
      if id in otherPlayerMap {
        otherPlayerMap := otherPlayerMap - {id};
      }
    }

    /** handleMyVideoConnected / handleMyVideoDisconnected */
    method SetMyVideoConnected(on: bool)
      modifies this
      ensures videoConnected == on && myPosition == old(myPosition) && otherPlayerMap == old(otherPlayerMap)
      ensures computerMap == old(computerMap) && whiteboardIds == old(whiteboardIds) && whiteboardUpdates == old(whiteboardUpdates)
    {
      videoConnected := on;
    }

    /** handleItemUserAdded: a computer known to the scene seats the user, a
        known whiteboard is told; unknown ids and other kinds are ignored. */
    method HandleItemUserAdded(playerId: string, itemId: string, itemType: ItemType)
      requires Valid()
      modifies this, if itemType == Computer && itemId in computerMap then {computerMap[itemId]} else {}
      ensures Valid() && computerMap == old(computerMap) && otherPlayerMap == old(otherPlayerMap)
      ensures myPosition == old(myPosition) && videoConnected == old(videoConnected) && whiteboardIds == old(whiteboardIds)
      ensures itemType == Computer && itemId in computerMap ==>
                var c := computerMap[itemId];
                && c.Seating() == CI.AddUser(old(c.Seating()), playerId)
                && c.id == old(c.id) && c.hasPendingRequest == old(c.hasPendingRequest) && c.dialogText == old(c.dialogText)
      ensures whiteboardUpdates == old(whiteboardUpdates)
                + (if itemType == Whiteboard && itemId in whiteboardIds then [UserAdded(itemId, playerId)] else [])
    {
      if itemType == Computer {
        if itemId in computerMap {
          computerMap[itemId].AddCurrentUser(playerId);
        }
      } else if itemType == Whiteboard {
        if itemId in whiteboardIds {
          whiteboardUpdates := whiteboardUpdates + [UserAdded(itemId, playerId)];
        }
      }
    }

    /** handleItemUserRemoved, routed the same way. */
    method HandleItemUserRemoved(playerId: string, itemId: string, itemType: ItemType)
      requires Valid()
      modifies this, if itemType == Computer && itemId in computerMap then {computerMap[itemId]} else {}
      ensures Valid() && computerMap == old(computerMap) && otherPlayerMap == old(otherPlayerMap)
      ensures myPosition == old(myPosition) && videoConnected == old(videoConnected) && whiteboardIds == old(whiteboardIds)
      ensures itemType == Computer && itemId in computerMap ==>
                var c := computerMap[itemId];
                && c.Seating() == CI.RemoveUser(old(c.Seating()), playerId)
                && c.id == old(c.id) && c.hasPendingRequest == old(c.hasPendingRequest) && c.dialogText == old(c.dialogText)
      ensures whiteboardUpdates == old(whiteboardUpdates)
                + (if itemType == Whiteboard && itemId in whiteboardIds then [UserRemoved(itemId, playerId)] else [])
    {
      if itemType == Computer {
        if itemId in computerMap {
          computerMap[itemId].RemoveCurrentUser(playerId);
        }
      } else if itemType == Whiteboard {
        if itemId in whiteboardIds {
          whiteboardUpdates := whiteboardUpdates + [UserRemoved(itemId, playerId)];
        }
      }
    }
  }
}
