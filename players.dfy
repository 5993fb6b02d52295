/**
 * The player registry of CraftServer: `players` maps a nickname to its
 * CraftPlayer, `playersThreads` maps a CraftPlayer to the thread that starts
 * its session. Players and threads are objects: the thread map is keyed by
 * player identity, so a second login under a name creates a new key and the
 * first player's entry stays behind. This module states the two updates the
 * server makes (`makePlayerJoin`'s two puts, `removePlayer`'s two removes) as
 * functions on the pair of maps, and what sequences of them do.
 */
module Players {

  /** A logged-in player; the server never changes its name or UUID. */
  class CraftPlayer {
    const nickname: string
    const uuid: string

    constructor (nickname: string, uuid: string)
      ensures this.nickname == nickname && this.uuid == uuid
    {
      this.nickname := nickname;
      this.uuid := uuid;
    }
  }

  /** The thread a login spawns; when it runs it looks its player up by nickname. */
  class PlayerThread {
    const nickname: string

    constructor (nickname: string)
      ensures this.nickname == nickname
    {
      this.nickname := nickname;
    }
  }

  datatype Registry = Registry(players: map<string, CraftPlayer>, threads: map<CraftPlayer, PlayerThread>)

  /**
   * Every name is mapped to a player of that name (so no player is under two
   * names), every registered player has a thread, and every thread was
   * spawned for its player's name.
   */
  predicate Consistent(r: Registry)
  {
    && (forall n | n in r.players :: r.players[n].nickname == n && r.players[n] in r.threads)
    && (forall p | p in r.threads :: r.threads[p].nickname == p.nickname)
  }

  /** Thread entries whose player is no longer registered under any name. */
  function Stale(r: Registry): set<CraftPlayer>
  {
    r.threads.Keys - r.players.Values
  }

  /** `makePlayerJoin`: `players.put(nickname, player)` then `playersThreads.put(player, thread)`. */
  function Join(r: Registry, p: CraftPlayer, t: PlayerThread): (r': Registry)
    // the name now denotes the new player, whatever it denoted before
    ensures r'.players.Keys == r.players.Keys + {p.nickname} && r'.players[p.nickname] == p
    ensures forall n | n in r.players && n != p.nickname :: r'.players[n] == r.players[n]
    // the new player has its thread; no other thread entry changes or goes away
    ensures r'.threads.Keys == r.threads.Keys + {p} && r'.threads[p] == t
    ensures forall q | q in r.threads && q != p :: r'.threads[q] == r.threads[q]
    ensures Consistent(r) && t.nickname == p.nickname ==> Consistent(r')
  {
    Registry(r.players[p.nickname := p], r.threads[p := t])
  }

  /** `removePlayer`: `playersThreads.remove(players.get(name))` then `players.remove(name)`. */
  function Remove(r: Registry, name: string): (r': Registry)
    ensures r'.players.Keys == r.players.Keys - {name}
    ensures forall n | n in r'.players :: r'.players[n] == r.players[n]
    // only the thread of the player the name currently denotes goes
    ensures r'.threads.Keys == if name in r.players then r.threads.Keys - {r.players[name]} else r.threads.Keys
    ensures forall q | q in r'.threads :: r'.threads[q] == r.threads[q]
    ensures Consistent(r) ==> Consistent(r')
  {
    var threads := if name in r.players then r.threads - {r.players[name]} else r.threads;
    Registry(r.players - {name}, threads)
  }

  /** Removing a name twice is removing it once. */
  lemma RemoveIdempotent(r: Registry, name: string)
    ensures Remove(Remove(r, name), name) == Remove(r, name)
    ensures name !in r.players ==> Remove(r, name) == r
  {
  }

  /**
   * A second login under a registered name replaces the name's player but
   * leaves the first player's thread entry in place, now unreachable by name.
   */
  lemma ReloginLeavesStaleThread(r: Registry, p: CraftPlayer, t: PlayerThread)
    requires Consistent(r)
    requires p.nickname in r.players && r.players[p.nickname] != p
    ensures var first := r.players[p.nickname]; var r' := Join(r, p, t);
      first in r'.threads && r'.threads[first] == r.threads[first] && first in Stale(r')
  {
  }

  /** An event that changes the registry: a login or a `removePlayer` call. */
  datatype Op = Login(player: CraftPlayer, thread: PlayerThread) | Logout(name: string)

  function Apply(r: Registry, ops: seq<Op>): Registry
    decreases |ops|
  {
    if ops == [] then r
    else
      var r' := match ops[0]
        case Login(p, t) => Join(r, p, t)
        case Logout(name) => Remove(r, name);
      Apply(r', ops[1..])
  }

  /** Every login's thread was spawned for the name it logs in under. */
  predicate ThreadsNamed(ops: seq<Op>)
  {
    forall i | 0 <= i < |ops| && ops[i].Login? :: ops[i].thread.nickname == ops[i].player.nickname
  }

  /** The registry invariant holds after any sequence of logins and removals. */
  lemma {:induction false} ApplyKeepsConsistent(r: Registry, ops: seq<Op>)
    requires Consistent(r) && ThreadsNamed(ops)
    ensures Consistent(Apply(r, ops))
    decreases |ops|
  {
    if ops != [] {
      var r' := match ops[0]
        case Login(p, t) => Join(r, p, t)
        case Logout(name) => Remove(r, name);
      assert ThreadsNamed(ops[1..]) by {
        forall i | 0 <= i < |ops[1..]| && ops[1..][i].Login?
          ensures ops[1..][i].thread.nickname == ops[1..][i].player.nickname
        {
          assert ops[1..][i] == ops[i + 1];
        }
      }
      ApplyKeepsConsistent(r', ops[1..]);
    }
  }

  /**
   * A stale thread entry is never reclaimed: `removePlayer` can only reach
   * the thread of the player a name currently denotes, and a login only adds.
   * So no later sequence of logins (by other player objects) and removals
   * removes or changes it.
   */
  lemma {:induction false} StaleThreadSurvives(r: Registry, ops: seq<Op>, q: CraftPlayer)
    requires q in Stale(r)
    requires forall i | 0 <= i < |ops| && ops[i].Login? :: ops[i].player != q
    ensures q in Stale(Apply(r, ops)) && Apply(r, ops).threads[q] == r.threads[q]
    decreases |ops|
  {
    if ops != [] {
      var r' := match ops[0]
        case Login(p, t) => Join(r, p, t)
        case Logout(name) => Remove(r, name);
      assert q in Stale(r') && r'.threads[q] == r.threads[q] by {
        match ops[0]
        case Login(p, t) =>
          assert q != p;
          forall n | n in r'.players ensures r'.players[n] != q {
            if n != p.nickname { assert r'.players[n] == r.players[n]; }
          }
        case Logout(name) =>
          assert name in r.players ==> r.players[name] != q;
          forall n | n in r'.players ensures r'.players[n] != q {
            assert r'.players[n] == r.players[n];
          }
      }
      assert forall i | 0 <= i < |ops[1..]| && ops[1..][i].Login? :: ops[1..][i].player != q by {
        forall i | 0 <= i < |ops[1..]| && ops[1..][i].Login? ensures ops[1..][i].player != q {
          assert ops[1..][i] == ops[i + 1];
        }
      }
      StaleThreadSurvives(r', ops[1..], q);
    }
  }

  /** A map whose every value carries its own key has as many values as keys. */
  lemma {:induction false} NamedValuesCount(m: map<string, CraftPlayer>)
    requires forall n | n in m :: m[n].nickname == n
    ensures |m.Values| == |m|
    decreases |m|
  {
    if m != map[] {
      var n :| n in m;
      var m' := m - {n};
      assert m.Values == m'.Values + {m[n]} by {
        forall p | p in m.Values ensures p in m'.Values + {m[n]} {
          var k :| k in m && m[k] == p;
          if k != n { assert m'[k] == p; }
        }
      }
      assert m[n] !in m'.Values by {
        forall k | k in m' ensures m'[k] != m[n] {
          assert m'[k].nickname == k != n;
        }
      }
      NamedValuesCount(m');
    }
  }

  /** There are never fewer thread entries than registered names. */
  lemma ThreadsCoverPlayers(r: Registry)
    requires Consistent(r)
    ensures |r.players| <= |r.threads|
    ensures |r.threads| == |r.players| + |Stale(r)|
  {
    NamedValuesCount(r.players);
    assert r.players.Values <= r.threads.Keys;
    assert r.threads.Keys == r.players.Values + Stale(r);
    assert r.players.Values !! Stale(r);
  }

  /**
   * A re-login of a registered name with a new player object keeps the number
   * of names and adds one thread entry: the gap is the leaked entry.
   */
  lemma ReloginGrowsThreads(r: Registry, p: CraftPlayer, t: PlayerThread)
    requires p.nickname in r.players && p !in r.threads
    ensures |Join(r, p, t).players| == |r.players|
    ensures |Join(r, p, t).threads| == |r.threads| + 1
  {
  }
}
