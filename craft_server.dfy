/**
 * CraftServer itself: the player registry as two map fields that the login
 * and removal methods update in place, and the per-connection worker, which
 * reads the client's packets in order and acts on its socket as it goes.
 * Each method is proved against the functions of Flows and Players.
 */
module Server {
  import opened Packets
  import opened Flows
  import opened Players

  /** The client's socket, as far as the worker writes to it and closes it. */
  class Socket {
    var trace: seq<Event>

    constructor ()
      ensures trace == []
    {
      trace := [];
    }

    method Send(packet: Outgoing)
      modifies this
      ensures trace == old(trace) + [Event.Send(packet)]
    {
      trace := trace + [Event.Send(packet)];
    }

    method Close()
      modifies this
      ensures trace == old(trace) + [Event.Close]
    {
      trace := trace + [Event.Close];
    }
  }

  class CraftServer {
    var players: map<string, CraftPlayer>
    var playersThreads: map<CraftPlayer, PlayerThread>
    const serverProprieties: Properties
    /** How a login success packet derives a UUID from a name. */
    const uuidOf: string -> string

    function Model(): Registry
      reads this
    {
      Registry(players, playersThreads)
    }

    /** The registry invariant, and every registered player carries its name's UUID. */
    ghost predicate Valid()
      reads this
    {
      Consistent(Model()) && forall n | n in players :: players[n].uuid == uuidOf(n)
    }

    constructor (serverProprieties: Properties, uuidOf: string -> string)
      ensures Valid()
      ensures players == map[] && playersThreads == map[]
      ensures this.serverProprieties == serverProprieties && this.uuidOf == uuidOf
    {
      this.players := map[];
      this.playersThreads := map[];
      this.serverProprieties := serverProprieties;
      this.uuidOf := uuidOf;
    }

    /**
     * The worker of one connection. A login registers the player; every
     * other path leaves the registry as it was.
     */
    method DoConnectionActions(socket: Socket, packets: seq<Incoming>)
      requires Valid()
      modifies this, socket
      ensures Valid()
      ensures var f := ConnectionFlow(serverProprieties, |old(players)|, uuidOf, packets);
        && socket.trace == old(socket.trace) + f.events
        && (f.outcome.Joined? ==> JoinedAs(f.outcome.name, f.outcome.uuid))
        && (!f.outcome.Joined? ==> Model() == old(Model()))
    {
      if |packets| == 0 || !Accepts(packets[0], 0x00) {
        return;
      }
      match packets[0].body {
        case HandshakeBody(protocolVersion, nextState) =>
          if nextState == STATUS {
            ManageStatusRequest(socket, packets[1..], protocolVersion);
          } else if nextState == LOGIN {
            MakePlayerJoin(socket, packets[1..]);
          } else {
            socket.Close();
          }
        case _ =>
      }
    }

    /**
     * The login of `name` added a new player with that name and UUID and a
     * new thread for it, and changed nothing else.
     */
    twostate predicate JoinedAs(name: string, uuid: string)
      reads this
    {
      && name in players
      && fresh(players[name])
      && players[name].nickname == name && players[name].uuid == uuid
      && players[name] in playersThreads && fresh(playersThreads[players[name]])
      && Model() == Join(old(Model()), players[name], playersThreads[players[name]])
    }

    method ManageStatusRequest(socket: Socket, packets: seq<Incoming>, protocolVersion: int32)
      modifies socket
      ensures socket.trace == old(socket.trace) + StatusFlow(serverProprieties, |players|, protocolVersion, packets).events
    {
      if |packets| == 0 || !Accepts(packets[0], 0x00) {
        return;
      }
      socket.Send(StatusResponse(PROTOCOL, protocolVersion, serverProprieties.maxPlayers, |players|, serverProprieties.motd));
      if |packets| == 1 || !Accepts(packets[1], 0x01) || !packets[1].body.PingBody? {
        return;
      }
      var payload := packets[1].body.payload;
      socket.Send(Pong(payload));
      socket.Close();
    }

    method MakePlayerJoin(socket: Socket, packets: seq<Incoming>)
      requires Valid()
      modifies this, socket
      ensures Valid()
      ensures var f := LoginFlow(uuidOf, packets);
        && socket.trace == old(socket.trace) + f.events
        && (f.outcome.Joined? ==> JoinedAs(f.outcome.name, f.outcome.uuid))
        && (!f.outcome.Joined? ==> Model() == old(Model()))
    {
      if |packets| == 0 || !Accepts(packets[0], 0x00) || !packets[0].body.LoginStartBody? {
        return;
      }
      var name := packets[0].body.name;
      if name.None? {
        socket.Send(LoginDisconnect);
        socket.Close();
        return;
      }
      var nickname := name.value;
      var uuid := uuidOf(nickname);
      socket.Send(LoginSuccess(uuid, nickname));
      var craftPlayer := new CraftPlayer(nickname, uuid);
      players := players[nickname := craftPlayer];
      var thread := new PlayerThread(nickname);
      playersThreads := playersThreads[craftPlayer := thread];
    }

    method RemovePlayer(player: string)
      requires Valid()
      modifies this
      ensures Valid()
      ensures Model() == Remove(old(Model()), player)
    {
      if player in players {
        playersThreads := playersThreads - {players[player]};
      }
      players := players - {player};
    }
  }
}
