/** The replicated room state: players and the member sets of the
    computers and whiteboards. Colyseus schema objects are updated in
    place, so the state is a class whose fields the handlers reassign. */
module OfficeSchema {

  /** The two player flags the seat and proximity logic touch. */
  datatype Player = Player(readyToConnect: bool, videoConnected: bool)

  /** A player as created on join: both flags off. */
  const NewPlayer := Player(false, false)

  /** The ids "0" .. "n-1" the room creates its items under. */
  function ItemIds(n: nat): (ids: set<string>)
    requires n <= 10
    ensures |ids| == n
    ensures forall id :: id in ids ==> |id| == 1 && '0' <= id[0] < '0' + n as char
  {
    if n == 0 then {}
    else
      var prev := ItemIds(n - 1);
      var id := ['0' + (n - 1) as char];
      assert id !in prev;
      prev + {id}
  }

  /** onCreate creates five computers and three whiteboards. */
  const ComputerCount: nat := 5
  const WhiteboardCount: nat := 3

  class OfficeState {
    var players: map<string, Player>
    /** computerId -> connectedUser */
    var computers: map<string, set<string>>
    /** whiteboardId -> connectedUser */
    var whiteboards: map<string, set<string>>

    /** onCreate: five computers "0".."4" and three whiteboards "0".."2",
        all with nobody connected, and no players. */
    constructor ()
      ensures players == map[]
      ensures computers.Keys == ItemIds(ComputerCount) && whiteboards.Keys == ItemIds(WhiteboardCount)
      ensures forall k :: k in computers ==> computers[k] == {}
      ensures forall k :: k in whiteboards ==> whiteboards[k] == {}
    {
      players := map[];
      computers := map k | k in ItemIds(ComputerCount) :: {};
      whiteboards := map k | k in ItemIds(WhiteboardCount) :: {};
    }
  }
}
