/** ComputerAddUserCommand / ComputerRemoveUserCommand: seat membership on
    the server, kept in a computer's connectedUser set, together with the
    requesting player's video flags. */
module ComputerCommands {
  import opened OfficeSchema

  /** The part of the room state the seat commands read and write. */
  datatype Roster = Roster(computers: map<string, set<string>>, players: map<string, Player>)

  /** ComputerAddUserCommand as a value: the session joins a known computer
      and its known player gets both flags on, unless it was already
      connected; in every other case the roster stays as it was. */
  function Added(r: Roster, sessionId: string, computerId: string): (r': Roster)
    ensures r'.computers.Keys == r.computers.Keys && r'.players.Keys == r.players.Keys
    ensures computerId in r.computers && sessionId in r.players ==>
              r'.computers[computerId] == r.computers[computerId] + {sessionId}
    ensures computerId in r.computers && sessionId in r.players && sessionId !in r.computers[computerId] ==>
              r'.players[sessionId] == Player(true, true)
    ensures computerId !in r.computers || sessionId !in r.players || sessionId in r.computers[computerId] ==> r' == r
    ensures forall k :: k in r.computers && k != computerId ==> r'.computers[k] == r.computers[k]
    ensures forall p :: p in r.players && p != sessionId ==> r'.players[p] == r.players[p]
  {
    if computerId !in r.computers || sessionId !in r.players || sessionId in r.computers[computerId] then r
    else
      Roster(r.computers[computerId := r.computers[computerId] + {sessionId}],
             r.players[sessionId := r.players[sessionId].(videoConnected := true, readyToConnect := true)])
  }

  /** ComputerRemoveUserCommand as a value: the session leaves the computer
      if it was there, and its player, if any, gets both flags off. */
  function Removed(r: Roster, sessionId: string, computerId: string): (r': Roster)
    ensures r'.computers.Keys == r.computers.Keys && r'.players.Keys == r.players.Keys
    ensures computerId in r.computers ==> r'.computers[computerId] == r.computers[computerId] - {sessionId}
    ensures sessionId in r.players ==> r'.players[sessionId] == Player(false, false)
    ensures forall k :: k in r.computers && k != computerId ==> r'.computers[k] == r.computers[k]
    ensures forall p :: p in r.players && p != sessionId ==> r'.players[p] == r.players[p]
  {
    Roster(if computerId in r.computers && sessionId in r.computers[computerId]
           then r.computers[computerId := r.computers[computerId] - {sessionId}] else r.computers,
           if sessionId in r.players
           then r.players[sessionId := r.players[sessionId].(videoConnected := false, readyToConnect := false)]
           else r.players)
  }

  /** Connecting twice is connecting once, and so is disconnecting twice. */
  lemma AddedRemovedAreIdempotent(r: Roster, sessionId: string, computerId: string)
    ensures Added(Added(r, sessionId, computerId), sessionId, computerId) == Added(r, sessionId, computerId)
    ensures Removed(Removed(r, sessionId, computerId), sessionId, computerId) == Removed(r, sessionId, computerId)
  {
    var once := Removed(r, sessionId, computerId);
    var twice := Removed(once, sessionId, computerId);
    assert twice.computers == once.computers;
    assert twice.players == once.players;
  }

  /** Disconnecting after connecting gives the same roster as disconnecting
      alone: the connect leaves no trace. */
  lemma RemovedUndoesAdded(r: Roster, sessionId: string, computerId: string)
    ensures Removed(Added(r, sessionId, computerId), sessionId, computerId) == Removed(r, sessionId, computerId)
  {
    var lhs := Removed(Added(r, sessionId, computerId), sessionId, computerId);
    var rhs := Removed(r, sessionId, computerId);
    assert lhs.computers == rhs.computers;
    assert lhs.players == rhs.players;
  }

  /** ComputerAddUserCommand.execute. Nothing happens when the computer or
      the player is unknown, or when the session is already connected;
      otherwise the session joins the computer and both of its flags are
      switched on. */
  method AddUser(state: OfficeState, sessionId: string, computerId: string)
    modifies state
    ensures state.whiteboards == old(state.whiteboards)
    ensures
      Roster(state.computers, state.players) == Added(Roster(old(state.computers), old(state.players)), sessionId, computerId)
    ensures
      var applies := computerId in old(state.computers) && sessionId in old(state.players)
                     && sessionId !in old(state.computers)[computerId];
      if applies then
        && state.computers == old(state.computers)[computerId := old(state.computers)[computerId] + {sessionId}]
        && state.players == old(state.players)[sessionId := Player(true, true)]
      else
        state.computers == old(state.computers) && state.players == old(state.players)
  {
    if computerId !in state.computers || sessionId !in state.players {
      return;
    }
    var connected := state.computers[computerId];
    if sessionId in connected {
      return;
    }
    state.computers := state.computers[computerId := connected + {sessionId}];
    var player := state.players[sessionId];
    state.players := state.players[sessionId := player.(videoConnected := true, readyToConnect := true)];
  }

  /** ComputerRemoveUserCommand.execute. The session leaves that computer if
      it was connected; both of its flags are switched off whenever the
      player exists, member or not. */
  method RemoveUser(state: OfficeState, sessionId: string, computerId: string)
    modifies state
    ensures state.whiteboards == old(state.whiteboards)
    ensures state.computers.Keys == old(state.computers).Keys
    ensures computerId in state.computers ==>
              state.computers[computerId] == old(state.computers)[computerId] - {sessionId}
    ensures forall k :: k in state.computers && k != computerId ==>
              state.computers[k] == old(state.computers)[k]
    ensures state.players ==
              if sessionId in old(state.players) then old(state.players)[sessionId := Player(false, false)]
              else old(state.players)
    ensures Roster(state.computers, state.players) == Removed(Roster(old(state.computers), old(state.players)), sessionId, computerId)
  {
    if computerId in state.computers && sessionId in state.computers[computerId] {
      state.computers := state.computers[computerId := state.computers[computerId] - {sessionId}];
    }
    if sessionId in state.players {
      var player := state.players[sessionId];
      state.players := state.players[sessionId := player.(videoConnected := false, readyToConnect := false)];
    }
  }

  /** Connecting and then disconnecting the same session from the same
      computer leaves it out of that computer's connectedUser set, and the
      player, if any, with both flags off. */
  method ConnectThenDisconnect(state: OfficeState, sessionId: string, computerId: string)
    modifies state
    ensures computerId in state.computers ==> sessionId !in state.computers[computerId]
    ensures sessionId in state.players ==> state.players[sessionId] == Player(false, false)
    ensures state.computers.Keys == old(state.computers).Keys && state.players.Keys == old(state.players).Keys
  {
    AddUser(state, sessionId, computerId);
    RemoveUser(state, sessionId, computerId);
  }
}
