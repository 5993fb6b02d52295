/**
 * Whole runs of the server on concrete clients: a server-list ping, and a
 * player who logs in twice under one name and is then removed. They use only
 * the contracts of the server's methods.
 */
module Scenarios {
  import opened Wrappers
  import opened Packets
  import opened Flows
  import opened Server

  /** Handshake with nextState 1, status request, ping 123456789. */
  method ServerListPing(props: Properties, uuidOf: string -> string) returns (trace: seq<Event>)
    ensures trace == [Event.Send(StatusResponse(47, 47, props.maxPlayers, 0, props.motd)),
                      Event.Send(Pong(123456789)), Event.Close]
  {
    var server := new CraftServer(props, uuidOf);
    var socket := new Socket();
    var packets := [
      Incoming(true, 0x00, HandshakeBody(47, 1)),
      Incoming(true, 0x00, StatusRequestBody),
      Incoming(true, 0x01, PingBody(123456789))];
    assert PingArrives(packets[1..]);
    server.DoConnectionActions(socket, packets);
    trace := socket.trace;
  }

  /**
   * "Steve" logs in on two connections, then `removePlayer("Steve")`: the
   * name is gone, the second login's thread is gone, the first login's
   * thread entry is still there.
   */
  method DoubleLoginThenRemove(props: Properties, uuidOf: string -> string) returns (names: nat, threads: nat)
    ensures names == 0 && threads == 1
  {
    var server := new CraftServer(props, uuidOf);
    var login := [
      Incoming(true, 0x00, HandshakeBody(47, 2)),
      Incoming(true, 0x00, LoginStartBody(Some("Steve")))];
    assert StartArrives(login[1..]);

    var first := new Socket();
    server.DoConnectionActions(first, login);
    assert first.trace == [Event.Send(LoginSuccess(uuidOf("Steve"), "Steve"))];
    var steve := server.players["Steve"];
    assert server.playersThreads.Keys == {steve};

    var second := new Socket();
    server.DoConnectionActions(second, login);
    var steve2 := server.players["Steve"];
    assert steve2 != steve;
    assert server.playersThreads.Keys == {steve, steve2};

    server.RemovePlayer("Steve");
    assert server.playersThreads.Keys == {steve};
    names, threads := |server.players|, |server.playersThreads|;
  }
}
