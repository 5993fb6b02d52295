# Jubug CraftServer: handshake, status and login, and the player registry

This project models the network front end of Jubug, a Minecraft Java Edition
server speaking protocol version 47. The model covers `CraftServer`:
- The connection worker (`doConnectionActions`) reads the handshake packet and
  routes on its `nextState`.
- `nextState` 1 leads to the server-list exchange (`manageStatusRequest`):
  status request, status response, ping, pong echoing the ping, close.
- `nextState` 2 leads to the login exchange (`makePlayerJoin`): login start,
  then either a disconnect for a missing name, or a login success followed by
  registration of the player.
- Any other value closes the socket and sends nothing.
- The registry is two maps: `players` maps a name to a `CraftPlayer`, and
  `playersThreads` maps a `CraftPlayer` to its session thread.
  `removePlayer` takes entries out of both.

Files:
- `wrappers.dfy`: `Option`, standing for Java's nullable references.
- `packets.dfy`: the abstract packets. Each incoming packet carries the
  verdict of the length check, its id and its decoded body.
- `flows.dfy`: what a worker does, as pure functions of the client's packets.
  Each function yields the socket events (packets sent, close) and how the
  worker ended.
- `phases.dfy`: the protocol written as an explicit state machine, with the
  packet id each phase expects. It includes the proof that the worker's
  straight-line code agrees with the machine on every input.
- `players.dfy`: the registry updates as functions on the two maps, the
  invariant they keep, and what any sequence of logins and removals does. In
  particular, thread entries left behind by a re-login are never reclaimed.
- `craft_server.dfy`: the `CraftServer` class, whose map fields its methods
  update in place, and the `Socket` the worker writes to. Each method is
  proved against the functions above.
- `scenarios.dfy`: two client runs that use only the methods' contracts.

Modelling choices:
- Helpers defined outside `CraftServer.java` are inputs, not code. The header
  checks (`PacketsCheckingUtils`) become the `lengthOk` flag and the `id` of
  each packet. The packet classes' `readPacket` becomes the typed body.
- A body of the wrong kind, or a missing packet (end of stream), ends the
  worker as an exception would, with nothing more done (`Aborted`).
- The UUID derivation of `LoginSuccessPacket` is the function `uuidOf`, which
  the server holds.
- `CraftPlayer` and the session thread are objects, so the thread map is keyed
  by identity, as Java's `HashMap<CraftPlayer, Thread>` is when `CraftPlayer`
  does not override `equals`.

Behaviour of the code worth knowing:
- `CraftServer` itself closes the socket only after the pong, after a
  disconnect and on a bad `nextState`. What `PacketsCheckingUtils` does to the
  socket on a failed check is not modelled. When an exception ends the worker,
  `CraftServer` does not close the socket.
- A second login under a registered name does not evict the earlier session.
  It overwrites `players[name]` and leaves the earlier player's
  `playersThreads` entry in place for good (`ReloginLeavesStaleThread`,
  `StaleThreadSurvives`).
- `CraftServer` itself rejects only a null name (line 116). Whether
  `LoginStartPacket.readPacket` yields null for an empty, over-long or
  ill-formed name is not modelled.

## Model

| member | source | states |
|---|---|---|
| Flows.StatusFlow | src/main/java/com/github/lory24/jubug/CraftServer.java:88-108 | No response unless the status request passes the length and id 0x00 checks. The flow completes exactly when a ping passes the id 0x01 checks. The trace is then one response carrying protocol 47, the client's version, max players, the online count and the MOTD; one pong with the ping's payload; and a close. Otherwise no pong and no close. |
| Flows.LoginFlow | src/main/java/com/github/lory24/jubug/CraftServer.java:111-126 | Nothing is sent unless the login start passes its checks and decodes. A null name gives exactly a disconnect and a close. A name gives exactly one login success with uuidOf(name) and the name, and the player is to join under them. |
| Flows.ConnectionFlow | src/main/java/com/github/lory24/jubug/CraftServer.java:60-86 | Without a valid handshake, nothing happens. nextState outside {1, 2} gives exactly a close. Status packets go out only after nextState 1, and login packets only after nextState 2. After the handshake, the run is exactly StatusFlow (nextState 1) or LoginFlow (nextState 2) on the remaining packets. It characterises end to end when the status exchange completes, when a player joins and when one is kicked, with the exact trace of each. A status exchange that stops before the pong sends at most the response and never closes. |
| Phases.Step | src/main/java/com/github/lory24/jubug/CraftServer.java:66-125 | Per phase, a packet failing its checks against the phase's expected id ends the run silently. Every transition moves strictly forward, and the events it causes fit in what its phase may still cause. A close is always the final event. |
| Phases.Run | src/main/java/com/github/lory24/jubug/CraftServer.java:61-126 | A run never touches the socket after closing it, causes at most three socket events per connection (MaxEvents of its starting phase), and does nothing from a finished phase. |
| Phases.ConnectionFollowsPhases | src/main/java/com/github/lory24/jubug/CraftServer.java:60-86 | The handshake dispatch equals the state machine run from the handshake phase, on every packet sequence. |
| Phases.StatusFollowsPhases | src/main/java/com/github/lory24/jubug/CraftServer.java:88-108 | The status exchange equals the machine run from the awaiting-request phase. |
| Phases.LoginFollowsPhases | src/main/java/com/github/lory24/jubug/CraftServer.java:111-126 | The socket side of the login equals the machine run from the awaiting-login-start phase. |
| Players.Join | src/main/java/com/github/lory24/jubug/CraftServer.java:128-140 | The name now denotes the new player and overwrites any earlier one. The new player gets its thread. No other name or thread entry changes. The registry invariant is kept. |
| Players.Remove | src/main/java/com/github/lory24/jubug/CraftServer.java:143-146 | The name is gone. Only the thread of the player the name denoted is removed. Every other entry is unchanged. The invariant is kept. |
| Players.RemoveIdempotent | src/main/java/com/github/lory24/jubug/CraftServer.java:143-146 | Removing twice is removing once. Removing an absent name changes nothing. |
| Players.ReloginLeavesStaleThread | src/main/java/com/github/lory24/jubug/CraftServer.java:130-140 | After a re-login under a registered name, the first player keeps its thread entry but is reachable by no name. |
| Players.ApplyKeepsConsistent | src/main/java/com/github/lory24/jubug/CraftServer.java:128-146 | Any sequence of logins and removals keeps the registry invariant: each name denotes a player of that name, which has a thread. |
| Players.StaleThreadSurvives | src/main/java/com/github/lory24/jubug/CraftServer.java:140-146 | A stale thread entry stays, unchanged, through any later logins (of other players) and removals. |
| Players.ThreadsCoverPlayers | src/main/java/com/github/lory24/jubug/CraftServer.java:26-27 | There are never fewer thread entries than names. The difference is exactly the number of stale entries. |
| Players.ReloginGrowsThreads | src/main/java/com/github/lory24/jubug/CraftServer.java:128-140 | A re-login with a new player keeps the number of names and adds one thread entry. |
| Server.CraftServer.constructor | src/main/java/com/github/lory24/jubug/CraftServer.java:31-35 | Both maps start empty and the invariant holds. |
| Server.CraftServer.DoConnectionActions | src/main/java/com/github/lory24/jubug/CraftServer.java:60-86 | Appends exactly ConnectionFlow's events to the socket. A join registers a fresh player, with the name and UUID sent, and a fresh thread; otherwise the registry is unchanged. The invariant is kept. |
| Server.CraftServer.ManageStatusRequest | src/main/java/com/github/lory24/jubug/CraftServer.java:88-108 | Appends exactly StatusFlow's events, with online = players.size(). |
| Server.CraftServer.MakePlayerJoin | src/main/java/com/github/lory24/jubug/CraftServer.java:110-141 | Appends exactly LoginFlow's events. On a join, players and playersThreads become Join of their old values with a fresh player and thread. Otherwise both maps are unchanged. |
| Server.CraftServer.RemovePlayer | src/main/java/com/github/lory24/jubug/CraftServer.java:143-146 | The two maps become Remove of their old values. |
| Scenarios.ServerListPing | src/main/java/com/github/lory24/jubug/CraftServer.java:66-107 | A handshake with nextState 1, a request and ping 123456789 give the response, pong 123456789 and a close. |
| Scenarios.DoubleLoginThenRemove | src/main/java/com/github/lory24/jubug/CraftServer.java:124-146 | Two logins as "Steve" and one removePlayer("Steve") leave no names but one thread entry. |

## Left out

- `runServer` and `waitForConnections`: binding the server socket, the endless accept loop and one thread per connection. These are I/O and concurrency. The model runs one worker at a time.
- The `Thread.sleep(220)` before the login and the `Thread.sleep(450)` before the session starts are timing only. The model hands off at once. The concurrent, unsynchronised `HashMap` updates under simultaneous logins are not modelled; the registry is updated sequentially.
- `CraftPlayer.startPlayerConnectionState` and the gameplay session the thread runs. A `PlayerThread` records only the nickname it will look up.
- Byte-level framing and the packet codecs. `PacketsCheckingUtils` and the packet classes are not part of this model. What their checks do to the socket on failure (whether they close it) is not modelled either.
- Failures to write a packet. In the source, `sendPacket` can throw. At line 125 a throw ends `makePlayerJoin` before the player is registered (lines 128-140). At line 96 the throw is swallowed at line 71 before the ping is read. The model's `Socket.Send` always succeeds, so a login that reaches the success packet always registers the player.
- The handshake's server address and port. `HandshakePacket` reads them, but `CraftServer` never uses them.
- The reason text of `LoginDisconnectPacket`. It is set in a class that is not part of this model.
- The UUID derivation of `LoginSuccessPacket`. It is an arbitrary function `uuidOf`. The model assumes `getNickname()` returns the name it was built from.
- Loading `ServerProprieties`: the constructor takes the max-players and MOTD values. `Logger` output and the exceptions swallowed at lines 69-71: an exception is "worker ends, nothing more happens".
- The `PlayerConnection` a `CraftPlayer` holds.
- Flows.StatusFlow: the online count is `|players|` as an unbounded number; `HashMap.size()` saturating at 2^31-1 is not modelled.
