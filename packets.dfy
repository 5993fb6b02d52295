/**
 * The packets of the handshake, status and login states of the Minecraft Java
 * Edition protocol (version 47), as the connection worker sees them: already
 * framed and, where the worker reads a body, already decoded. Byte-level
 * framing and the per-packet codecs live in classes that are not part of this
 * model; what survives of them is an abstract incoming packet carrying the
 * verdict of the length check, the packet id and the typed body.
 */
module Packets {
  import opened Wrappers

  /** Java `int` and `long`. */
  newtype int32 = x: int | -0x8000_0000 <= x < 0x8000_0000
  newtype int64 = x: int | -0x8000_0000_0000_0000 <= x < 0x8000_0000_0000_0000

  /** What `readPacket` of the packet class the worker expects at that point yields. */
  datatype Body =
    | HandshakeBody(protocolVersion: int32, nextState: int32)
    | StatusRequestBody
    | PingBody(payload: int64)
    | LoginStartBody(name: Option<string>)

  /**
   * One packet as the client sends it. `lengthOk` is the verdict of
   * `checkPacketLengthError` (false: the check reports an error), `id` is the
   * packet id `checkPacketError` compares, `body` is what the packet class
   * decodes.
   */
  datatype Incoming = Incoming(lengthOk: bool, id: int32, body: Body)

  /** The two checks every packet passes before the worker acts on it. */
  predicate Accepts(p: Incoming, expectedId: int32)
  {
    p.lengthOk && p.id == expectedId
  }

  /** Packets the server writes. */
  datatype Outgoing =
    | StatusResponse(serverProtocol: int32, clientProtocol: int32, maxPlayers: int32, online: nat, motd: string)
    | Pong(payload: int64)
    | LoginDisconnect
    | LoginSuccess(uuid: string, nickname: string)

  /** What the worker does to its socket, in order. */
  datatype Event = Send(packet: Outgoing) | Close
}
