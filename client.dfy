/** The singletons a client's objects share: the redux store (its
    `computer` and `webcam` slices and the user slice's player names), the
    room connection, the game scene's keyboard, and the transport's record
    of the calls and data channels it was asked to close. Components talk to
    them only through the effects below. */
module ClientRuntime {
  import opened Common
  import opened Protocol
  import CS = ComputerStore
  import WS = WebcamStore

  /** One thing a component does to the shared singletons. */
  datatype Effect =
    | DispatchComputer(action: CS.Action)
    | DispatchWebcam(webcamAction: WS.Action)
    | Send(msg: ClientMessage)
    | CloseCall(call: CallHandle)
    | CloseConn(conn: ConnHandle)

  /** The observable state of the singletons. */
  datatype ClientState = ClientState(
    computer: CS.ComputerState,
    webcam: WS.WebcamState,
    playerNames: map<string, string>,
    sent: seq<ClientMessage>,
    keysEnabled: bool,
    closedCalls: set<CallHandle>,
    closedConns: set<ConnHandle>)

  /** The singletons after one effect. A computer-slice dispatch also
      performs that reducer's own effects. */
  function Apply(c: ClientState, e: Effect, sanitize: string -> string): (r: ClientState)
    ensures r.playerNames == c.playerNames
    ensures |c.sent| <= |r.sent| && r.sent[..|c.sent|] == c.sent
    ensures c.closedCalls <= r.closedCalls && c.closedConns <= r.closedConns
    ensures !e.DispatchComputer? ==> r.computer == c.computer && r.keysEnabled == c.keysEnabled
    ensures !e.DispatchWebcam? ==> r.webcam == c.webcam
  {
    match e
    case DispatchComputer(a) =>
      var reduced := CS.Reduce(c.computer, a, sanitize);
      c.(computer := reduced.next,
         sent := c.sent + reduced.sent,
         keysEnabled := if reduced.keysEnabled.Some? then reduced.keysEnabled.value else c.keysEnabled,
         closedCalls := c.closedCalls + reduced.closedCalls)
    case DispatchWebcam(a) => c.(webcam := WS.Reduce(c.webcam, a))
    case Send(m) => c.(sent := c.sent + [m])
    case CloseCall(call) => c.(closedCalls := c.closedCalls + {call})
    case CloseConn(conn) => c.(closedConns := c.closedConns + {conn})
  }

  /** The singletons after a sequence of effects, in order. */
  function ApplyAll(c: ClientState, es: seq<Effect>, sanitize: string -> string): (r: ClientState)
    ensures r.playerNames == c.playerNames
    ensures |c.sent| <= |r.sent| && r.sent[..|c.sent|] == c.sent
    ensures c.closedCalls <= r.closedCalls && c.closedConns <= r.closedConns
    ensures (forall i :: 0 <= i < |es| ==> es[i].Send? || es[i].CloseCall? || es[i].CloseConn?) ==>
              r.computer == c.computer && r.webcam == c.webcam
    decreases |es|
  {
    if es == [] then c else ApplyAll(Apply(c, es[0], sanitize), es[1..], sanitize)
  }

  /** The messages a sequence of effects sends by itself (not counting
      what a dispatched reducer sends): the payloads of its `Send` effects,
      in order, and nothing else. */
  function SentBy(es: seq<Effect>): (msgs: seq<ClientMessage>)
    ensures |msgs| <= |es|
    ensures forall m :: m in msgs ==> Send(m) in es
  {
    if es == [] then [] else (if es[0].Send? then [es[0].msg] else []) + SentBy(es[1..])
  }

  /** Effects that only send append exactly their messages, in order. */
  lemma {:induction false} SendsAppendInOrder(c: ClientState, es: seq<Effect>, sanitize: string -> string)
    requires forall i :: 0 <= i < |es| ==> es[i].Send?
    ensures ApplyAll(c, es, sanitize) == c.(sent := c.sent + SentBy(es))
    decreases |es|
  {
    if es != [] {
      var c' := c.(sent := c.sent + [es[0].msg]);
      assert forall i :: 0 <= i < |es[1..]| ==> es[1..][i].Send? by {
        forall i | 0 <= i < |es[1..]| ensures es[1..][i].Send? {
          assert es[1..][i] == es[i + 1];
        }
      }
      SendsAppendInOrder(c', es[1..], sanitize);
      ApplyAllSendFirst(c, es, sanitize);
    }
  }

  /** For effects that are all sends, the messages sent are exactly their
      payloads, position by position. */
  lemma {:induction false} SentByAllSends(es: seq<Effect>)
    requires forall i :: 0 <= i < |es| ==> es[i].Send?
    ensures |SentBy(es)| == |es|
    ensures forall i :: 0 <= i < |es| ==> SentBy(es)[i] == es[i].msg
    decreases |es|
  {
    if es != [] {
      SentByAllSends(es[1..]);
      assert SentBy(es) == [es[0].msg] + SentBy(es[1..]);
    }
  }

  /** A leading send appends its message and leaves the rest to the
      remaining effects. */
  lemma ApplyAllSendFirst(c: ClientState, es: seq<Effect>, sanitize: string -> string)
    requires es != [] && es[0].Send?
    ensures ApplyAll(c, es, sanitize) == ApplyAll(c.(sent := c.sent + [es[0].msg]), es[1..], sanitize)
    ensures SentBy(es) == [es[0].msg] + SentBy(es[1..])
    ensures var c' := c.(sent := c.sent + [es[0].msg]);
            c'.(sent := c'.sent + SentBy(es[1..])) == c.(sent := c.sent + SentBy(es))
  {
    assert SentBy(es) == [es[0].msg] + SentBy(es[1..]);
    assert c.sent + [es[0].msg] + SentBy(es[1..]) == c.sent + SentBy(es);
  }

  class Client {
    var computer: CS.ComputerState
    var webcam: WS.WebcamState
    /** The user slice's playerNameMap: session id -> display name. */
    var playerNames: map<string, string>
    /** Every message sent to the room, in order. */
    var sent: seq<ClientMessage>
    var keysEnabled: bool
    var closedCalls: set<CallHandle>
    var closedConns: set<ConnHandle>
    /** network.mySessionId */
    const mySessionId: string
    /** The client's sanitizeId, which the computer slice keys streams by. */
    const sanitize: string -> string

    function State(): ClientState
      reads this
    {
      ClientState(computer, webcam, playerNames, sent, keysEnabled, closedCalls, closedConns)
    }

    /** A fresh client: both slices at their initial state, nothing sent,
        the keyboard enabled, nothing closed. */
    constructor (mySessionId: string, sanitize: string -> string)
      ensures this.mySessionId == mySessionId && this.sanitize == sanitize
      ensures computer == CS.InitialState() && webcam == WS.InitialState()
      ensures playerNames == map[] && sent == [] && keysEnabled
      ensures closedCalls == {} && closedConns == {}
    {
      this.mySessionId := mySessionId;
      this.sanitize := sanitize;
      computer := CS.InitialState();
      webcam := WS.InitialState();
      playerNames := map[];
      sent := [];
      keysEnabled := true;
      closedCalls := {};
      closedConns := {};
    }

    /** Performs one effect on the singletons. */
    method Perform(e: Effect)
      modifies this
      ensures State() == Apply(old(State()), e, sanitize)
    {
      match e
      case DispatchComputer(a) =>
        var reduced := CS.Reduce(computer, a, sanitize);
        computer := reduced.next;
        sent := sent + reduced.sent;
        if reduced.keysEnabled.Some? {
          keysEnabled := reduced.keysEnabled.value;
        }
        closedCalls := closedCalls + reduced.closedCalls;
      case DispatchWebcam(a) =>
        webcam := WS.Reduce(webcam, a);
      case Send(m) =>
        sent := sent + [m];
      case CloseCall(call) =>
        closedCalls := closedCalls + {call};
      case CloseConn(conn) =>
        closedConns := closedConns + {conn};
    }

    /** Performs a sequence of effects, in order. */
    method PerformAll(es: seq<Effect>)
      modifies this
      ensures State() == ApplyAll(old(State()), es, sanitize)
    {
      var i := 0;
      while i < |es|
        invariant 0 <= i <= |es|
        invariant ApplyAll(old(State()), es, sanitize) == ApplyAll(State(), es[i..], sanitize)
      {
        assert es[i..][1..] == es[i + 1..];
        Perform(es[i]);
        i := i + 1;
      }
    }
  }
}
