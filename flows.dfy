/**
 * What one connection worker of CraftServer does, as functions of the packets
 * the client sends: the status exchange (`manageStatusRequest`), the login
 * exchange (`makePlayerJoin`, its socket side) and the handshake dispatch that
 * chooses between them (`doConnectionActions`). Each yields the events the
 * worker causes on its socket and how the worker ended.
 */
module Flows {
  import opened Wrappers
  import opened Packets

  /** The protocol version this server speaks (`PROTOCOL`). */
  const PROTOCOL: int32 := 47

  /** The handshake's `nextState` values that lead somewhere. */
  const STATUS: int32 := 1
  const LOGIN: int32 := 2

  /** The part of the server properties the status response reports. */
  datatype Properties = Properties(maxPlayers: int32, motd: string)

  /** How a worker's run over one connection ends. */
  datatype Outcome =
    | Halted                              // a header check failed and the method returned
    | Aborted                             // the stream ended or a body did not decode: an exception ended the worker
    | BadNextState                        // the handshake asked for neither status nor login
    | StatusServed                        // response and pong sent, socket closed
    | Kicked                              // login start without a name: disconnect sent, socket closed
    | Joined(name: string, uuid: string)  // login success sent; the player is to be registered

  datatype Flow = Flow(events: seq<Event>, outcome: Outcome)

  /** The status response for a client that announced `clientProtocol`. */
  function Response(props: Properties, online: nat, clientProtocol: int32): Outgoing
  {
    StatusResponse(PROTOCOL, clientProtocol, props.maxPlayers, online, props.motd)
  }

  /** The socket trace of a status exchange that runs to its end. */
  function StatusTrace(props: Properties, online: nat, clientProtocol: int32, payload: int64): seq<Event>
  {
    [Send(Response(props, online, clientProtocol)), Send(Pong(payload)), Close]
  }

  /** A status request followed by a ping that passes its checks and decodes. */
  predicate PingArrives(packets: seq<Incoming>)
  {
    |packets| >= 2 && Accepts(packets[0], 0x00) && Accepts(packets[1], 0x01) && packets[1].body.PingBody?
  }

  /** A login start that passes its checks and decodes. */
  predicate StartArrives(packets: seq<Incoming>)
  {
    |packets| >= 1 && Accepts(packets[0], 0x00) && packets[0].body.LoginStartBody?
  }

  /** A handshake that passes its checks and decodes. */
  predicate HandshakeArrives(packets: seq<Incoming>)
  {
    |packets| >= 1 && Accepts(packets[0], 0x00) && packets[0].body.HandshakeBody?
  }

  predicate IsStatusEvent(e: Event)
  {
    e.Close? || e.packet.StatusResponse? || e.packet.Pong?
  }

  predicate IsLoginEvent(e: Event)
  {
    e.Close? || e.packet.LoginDisconnect? || e.packet.LoginSuccess?
  }

  /**
   * `manageStatusRequest`: expect the status request (id 0x00), answer it,
   * expect the ping (id 0x01), echo its payload in a pong, close.
   */
  function StatusFlow(props: Properties, online: nat, clientProtocol: int32, packets: seq<Incoming>): (f: Flow)
    // no response unless the request passes its checks
    ensures f.events == [] <==> |packets| == 0 || !Accepts(packets[0], 0x00)
    // the exchange completes exactly when a ping arrives, and then the trace is
    // one response, one pong echoing the ping, one close
    ensures f.outcome == StatusServed <==> PingArrives(packets)
    ensures PingArrives(packets) ==> f.events == StatusTrace(props, online, clientProtocol, packets[1].body.payload)
    // otherwise at most the response goes out: no pong and no close
    ensures !PingArrives(packets) ==>
      f.events == [] || f.events == [Send(Response(props, online, clientProtocol))]
    ensures f.outcome in {Halted, Aborted, StatusServed}
  {
    if |packets| == 0 then Flow([], Aborted)
    else if !Accepts(packets[0], 0x00) then Flow([], Halted)
    else
      var response := Send(Response(props, online, clientProtocol));
      if |packets| == 1 then Flow([response], Aborted)
      else if !Accepts(packets[1], 0x01) then Flow([response], Halted)
      else match packets[1].body
        case PingBody(payload) => Flow([response, Send(Pong(payload)), Close], StatusServed)
        case _ => Flow([response], Aborted)
  }

  /**
   * `makePlayerJoin`, on the socket: expect the login start (id 0x00); a
   * missing name is answered with a disconnect and a close, a name with a
   * login success carrying the name and its derived UUID.
   */
  function LoginFlow(uuidOf: string -> string, packets: seq<Incoming>): (f: Flow)
    ensures f.events == [] <==> !StartArrives(packets)
    ensures f.outcome == Kicked <==> StartArrives(packets) && packets[0].body.name.None?
    ensures f.outcome == Kicked ==> f.events == [Send(LoginDisconnect), Close]
    ensures f.outcome.Joined? <==> StartArrives(packets) && packets[0].body.name.Some?
    ensures f.outcome.Joined? ==>
      var name := packets[0].body.name.value;
      f.outcome == Joined(name, uuidOf(name)) && f.events == [Send(LoginSuccess(uuidOf(name), name))]
    ensures f.outcome in {Halted, Aborted, Kicked} || f.outcome.Joined?
  {
    if |packets| == 0 then Flow([], Aborted)
    else if !Accepts(packets[0], 0x00) then Flow([], Halted)
    else match packets[0].body
      case LoginStartBody(None) => Flow([Send(LoginDisconnect), Close], Kicked)
      case LoginStartBody(Some(name)) =>
        var uuid := uuidOf(name);
        Flow([Send(LoginSuccess(uuid, name))], Joined(name, uuid))
      case _ => Flow([], Aborted)
  }

  /**
   * `doConnectionActions`: expect the handshake (id 0x00) and route on its
   * `nextState`: 1 to the status exchange, 2 to the login exchange, anything
   * else to a close with nothing sent.
   */
  function ConnectionFlow(props: Properties, online: nat, uuidOf: string -> string, packets: seq<Incoming>): (f: Flow)
    // without a handshake the worker stops and touches nothing
    ensures !HandshakeArrives(packets) ==> f.events == [] && f.outcome in {Halted, Aborted}
    // a nextState other than 1 and 2 closes the socket and sends nothing
    ensures f.outcome == BadNextState <==>
      HandshakeArrives(packets) && packets[0].body.nextState !in {STATUS, LOGIN}
    ensures f.outcome == BadNextState ==> f.events == [Close]
    // status packets only after nextState 1, login packets only after nextState 2
    ensures (exists e | e in f.events :: !IsLoginEvent(e)) ==>
      HandshakeArrives(packets) && packets[0].body.nextState == STATUS
    ensures (exists e | e in f.events :: !IsStatusEvent(e)) ==>
      HandshakeArrives(packets) && packets[0].body.nextState == LOGIN
    // the complete status exchange, end to end
    ensures f.outcome == StatusServed <==>
      HandshakeArrives(packets) && packets[0].body.nextState == STATUS && PingArrives(packets[1..])
    ensures f.outcome == StatusServed ==>
      f.events == StatusTrace(props, online, packets[0].body.protocolVersion, packets[2].body.payload)
    // the complete login, end to end
    ensures f.outcome.Joined? <==>
      HandshakeArrives(packets) && packets[0].body.nextState == LOGIN &&
      StartArrives(packets[1..]) && packets[1].body.name.Some?
    ensures f.outcome.Joined? ==>
      var name := packets[1].body.name.value;
      f.outcome == Joined(name, uuidOf(name)) && f.events == [Send(LoginSuccess(uuidOf(name), name))]
    ensures f.outcome == Kicked <==>
      HandshakeArrives(packets) && packets[0].body.nextState == LOGIN &&
      StartArrives(packets[1..]) && packets[1].body.name.None?
    ensures f.outcome == Kicked ==> f.events == [Send(LoginDisconnect), Close]
    // a status exchange that stops before the pong sends at most the response and never closes
    ensures HandshakeArrives(packets) && packets[0].body.nextState == STATUS && !PingArrives(packets[1..]) ==>
      f.events == [] || f.events == [Send(Response(props, online, packets[0].body.protocolVersion))]
    // after the handshake the worker is exactly the status or the login exchange on the remaining packets
    ensures HandshakeArrives(packets) && packets[0].body.nextState == STATUS ==>
      f == StatusFlow(props, online, packets[0].body.protocolVersion, packets[1..])
    ensures HandshakeArrives(packets) && packets[0].body.nextState == LOGIN ==>
      f == LoginFlow(uuidOf, packets[1..])
  {
    if |packets| == 0 then Flow([], Aborted)
    else if !Accepts(packets[0], 0x00) then Flow([], Halted)
    else match packets[0].body
      case HandshakeBody(protocolVersion, nextState) =>
        if nextState == STATUS then StatusFlow(props, online, protocolVersion, packets[1..])
        else if nextState == LOGIN then LoginFlow(uuidOf, packets[1..])
        else Flow([Close], BadNextState)
      case _ => Flow([], Aborted)
  }
}
