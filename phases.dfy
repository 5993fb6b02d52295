/**
 * The connection protocol read as a state machine: the phase a connection is
 * in, the packet id each phase expects (handshake 0x00; status request 0x00,
 * then ping 0x01; login start 0x00), and what one packet does in each phase.
 * Running the machine over the client's packets is an independent statement
 * of the protocol; ConnectionFollowsPhases shows that the worker's
 * straight-line code agrees with it on every input.
 */
module Phases {
  import opened Wrappers
  import opened Packets
  import opened Flows

  datatype Phase =
    | Handshaking
    | AwaitRequest(clientProtocol: int32)
    | AwaitPing(clientProtocol: int32)
    | AwaitLoginStart
    | Finished(outcome: Outcome)

  /** The packet id the server expects in each open phase. */
  function ExpectedId(s: Phase): int32
    requires !s.Finished?
  {
    match s
    case Handshaking => 0x00
    case AwaitRequest(_) => 0x00
    case AwaitPing(_) => 0x01
    case AwaitLoginStart => 0x00
  }

  /** Position of a phase along the protocol; every step moves forward. */
  function Rank(s: Phase): nat
  {
    match s
    case Handshaking => 0
    case AwaitRequest(_) => 1
    case AwaitLoginStart => 1
    case AwaitPing(_) => 2
    case Finished(_) => 3
  }

  /** The most socket events a run from each phase can still cause. */
  function MaxEvents(s: Phase): nat
  {
    match s
    case Handshaking => 3
    case AwaitRequest(_) => 3
    case AwaitPing(_) => 2
    case AwaitLoginStart => 2
    case Finished(_) => 0
  }

  /** Nothing happens on the socket after it has been closed. */
  predicate CloseIsLast(events: seq<Event>)
  {
    forall i | 0 <= i < |events| && events[i] == Close :: i == |events| - 1
  }

  /** One packet in one open phase: the next phase and the events it causes. */
  function Step(props: Properties, online: nat, uuidOf: string -> string, s: Phase, p: Incoming): (r: (Phase, seq<Event>))
    requires !s.Finished?
    // transitions are one-directional
    ensures Rank(r.0) > Rank(s)
    // what a step causes fits in what its phase may still cause
    ensures |r.1| + MaxEvents(r.0) <= MaxEvents(s)
    // a packet that fails its checks ends the run silently
    ensures !Accepts(p, ExpectedId(s)) ==> r == (Finished(Halted), [])
    // a close is always the last thing a run does
    ensures Close in r.1 ==> r.0.Finished? && r.1[|r.1| - 1] == Close && CloseIsLast(r.1)
  {
    if !Accepts(p, ExpectedId(s)) then (Finished(Halted), [])
    else match s
      case Handshaking =>
        (match p.body
         case HandshakeBody(protocolVersion, nextState) =>
           if nextState == STATUS then (AwaitRequest(protocolVersion), [])
           else if nextState == LOGIN then (AwaitLoginStart, [])
           else (Finished(BadNextState), [Close])
         case _ => (Finished(Aborted), []))
      case AwaitRequest(clientProtocol) =>
        (AwaitPing(clientProtocol), [Send(Response(props, online, clientProtocol))])
      case AwaitPing(_) =>
        (match p.body
         case PingBody(payload) => (Finished(StatusServed), [Send(Pong(payload)), Close])
         case _ => (Finished(Aborted), []))
      case AwaitLoginStart =>
        (match p.body
         case LoginStartBody(None) => (Finished(Kicked), [Send(LoginDisconnect), Close])
         case LoginStartBody(Some(name)) =>
           (Finished(Joined(name, uuidOf(name))), [Send(LoginSuccess(uuidOf(name), name))])
         case _ => (Finished(Aborted), []))
  }

  /** The machine run from phase `s` over the packets still to come. */
  function Run(props: Properties, online: nat, uuidOf: string -> string, s: Phase, packets: seq<Incoming>): (f: Flow)
    decreases |packets|
    ensures s.Finished? ==> f == Flow([], s.outcome)
    ensures CloseIsLast(f.events)
    // a whole connection causes at most three socket events
    ensures |f.events| <= MaxEvents(s)
  {
    if s.Finished? then Flow([], s.outcome)
    else if packets == [] then Flow([], Aborted)
    else
      var (next, events) := Step(props, online, uuidOf, s, packets[0]);
      var rest := Run(props, online, uuidOf, next, packets[1..]);
      assert rest.events != [] ==> !next.Finished? && Close !in events;
      Flow(events + rest.events, rest.outcome)
  }

  /** The handshake dispatch does exactly what the machine does from the handshake phase. */
  lemma {:induction false} ConnectionFollowsPhases(props: Properties, online: nat, uuidOf: string -> string, packets: seq<Incoming>)
    ensures ConnectionFlow(props, online, uuidOf, packets) == Run(props, online, uuidOf, Handshaking, packets)
  {
    if HandshakeArrives(packets) {
      var body := packets[0].body;
      var tail := packets[1..];
      if body.nextState == STATUS {
        StatusFollowsPhases(props, online, body.protocolVersion, uuidOf, tail);
      } else if body.nextState == LOGIN {
        LoginFollowsPhases(props, online, uuidOf, tail);
      }
    }
  }

  lemma StatusFollowsPhases(props: Properties, online: nat, clientProtocol: int32, uuidOf: string -> string, packets: seq<Incoming>)
    ensures StatusFlow(props, online, clientProtocol, packets) == Run(props, online, uuidOf, AwaitRequest(clientProtocol), packets)
  {
  }

  lemma LoginFollowsPhases(props: Properties, online: nat, uuidOf: string -> string, packets: seq<Incoming>)
    ensures LoginFlow(uuidOf, packets) == Run(props, online, uuidOf, AwaitLoginStart, packets)
  {
  }
}
