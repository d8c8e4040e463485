/** The relay server's matchmaker (relay_model): two connections with the same token become
    the two ends of a relay. */
module Relay {
  import opened Bytes
  import opened Wrappers
  import opened UniqueId

  type Token = nat

  datatype Peer = Peer(addr: nat, token: Token, stream: nat)
  datatype RelayPair = RelayPair(id: nat, first: Peer, second: Peer)
  datatype RelayState = Waiting | Relaying

  /* ---------- what should happen, read off the log of connections ---------- */

  // The connections with token t, in order.
  function Of(log: seq<Peer>, t: Token): (r: seq<Peer>)
    ensures forall p :: p in r ==> p.token == t
  {
    if log == [] then []
    else
      var n := |log| - 1;
      Of(log[..n], t) + if log[n].token == t then [log[n]] else []
  }

  // First with second, third with fourth, and so on.
  function PairUp(s: seq<Peer>): (r: seq<(Peer, Peer)>)
    ensures |r| == |s| / 2 && forall k :: 0 <= k < |r| ==> r[k] == (s[2 * k], s[2 * k + 1])
  {
    seq(|s| / 2, k requires 0 <= k < |s| / 2 => (s[2 * k], s[2 * k + 1]))
  }

  // The relays ever made for token t.
  function Made(pairs: seq<RelayPair>, t: Token): seq<(Peer, Peer)> {
    if pairs == [] then []
    else
      var n := |pairs| - 1;
      Made(pairs[..n], t) + if pairs[n].first.token == t then [(pairs[n].first, pairs[n].second)] else []
  }

  lemma PairUpAppend(s: seq<Peer>, p: Peer)
    ensures |s| % 2 == 0 ==> PairUp(s + [p]) == PairUp(s)
    ensures |s| % 2 == 1 ==> PairUp(s + [p]) == PairUp(s) + [(s[|s| - 1], p)]
  {
    var n := |s| / 2;
    if |s| % 2 == 0 {
      assert |s| == 2 * n && |PairUp(s + [p])| == n;
    } else {
      assert |s| == 2 * n + 1 && |PairUp(s + [p])| == n + 1;
    }
  }

  lemma OfAppend(log: seq<Peer>, p: Peer, t: Token)
    ensures Of(log + [p], t) == Of(log, t) + if p.token == t then [p] else []
  {
    assert (log + [p])[..|log|] == log;
  }

  lemma MadeAppend(pairs: seq<RelayPair>, r: RelayPair, t: Token)
    ensures Made(pairs + [r], t) == Made(pairs, t) + if r.first.token == t then [(r.first, r.second)] else []
  {
    assert (pairs + [r])[..|pairs|] == pairs;
  }

  // Token t's part of the state is what the log says: pairs in order of arrival, and the odd
  // connection out, if any, alone in waiting.
  predicate TokenOk(waiting: map<Token, seq<Peer>>, pairs: seq<RelayPair>, log: seq<Peer>, t: Token) {
    var mine := Of(log, t);
    && Made(pairs, t) == PairUp(mine)
    && (t in waiting <==> |mine| % 2 == 1)
    && (t in waiting ==> waiting[t] == [mine[|mine| - 1]])
  }

  // Erasing the first entry under a token from the multimap.
  function EraseFirst(waiting: map<Token, seq<Peer>>, t: Token): map<Token, seq<Peer>>
    requires t in waiting && waiting[t] != []
  {
    if |waiting[t]| == 1 then waiting - {t} else waiting[t := waiting[t][1..]]
  }

  ghost predicate TokensOk(waiting: map<Token, seq<Peer>>, pairs: seq<RelayPair>, log: seq<Peer>) {
    forall t: Token {:trigger TokenOk(waiting, pairs, log, t)} :: TokenOk(waiting, pairs, log, t)
  }

  // A connection that finds nobody waiting under its token.
  lemma NewcomerWaits(waiting: map<Token, seq<Peer>>, pairs: seq<RelayPair>, log: seq<Peer>, p: Peer)
    requires TokensOk(waiting, pairs, log) && p.token !in waiting
    ensures TokensOk(waiting[p.token := [p]], pairs, log + [p])
  {
    var waiting', log' := waiting[p.token := [p]], log + [p];
    forall t: Token ensures TokenOk(waiting', pairs, log', t) {
      assert TokenOk(waiting, pairs, log, t);
      OfAppend(log, p, t);
      PairUpAppend(Of(log, t), p);
    }
  }

  // A connection that is paired with the one waiting.
  lemma NewcomerIsPaired(waiting: map<Token, seq<Peer>>, pairs: seq<RelayPair>, log: seq<Peer>, p: Peer, id: nat)
    requires TokensOk(waiting, pairs, log) && p.token in waiting
    ensures |waiting[p.token]| == 1 && waiting[p.token][0].token == p.token
    ensures TokensOk(waiting - {p.token}, pairs + [RelayPair(id, waiting[p.token][0], p)], log + [p])
  {
    assert TokenOk(waiting, pairs, log, p.token);
    var mine := Of(log, p.token);
    var first := mine[|mine| - 1];
    assert waiting[p.token] == [first] && first in mine && first.token == p.token;
    var r := RelayPair(id, first, p);
    var waiting', pairs', log' := waiting - {p.token}, pairs + [r], log + [p];
    forall t: Token ensures TokenOk(waiting', pairs', log', t) {
      assert TokenOk(waiting, pairs, log, t);
      OfAppend(log, p, t);
      MadeAppend(pairs, r, t);
      PairUpAppend(Of(log, t), p);
    }
  }

  class RelayModel {
    var waitingMap: map<Token, seq<Peer>>  // a multimap: the entries under each token
    var relayMap: map<nat, RelayPair>
    const idGenerator: IdGenerator
    ghost var log: seq<Peer>          // every connection so far
    ghost var pairs: seq<RelayPair>   // every relay ever made
    ghost var removed: nat

    // The ids in use are the keys of the relay table.
    ghost predicate IdsOk()
      reads this, idGenerator
    {
      && idGenerator.Valid() && idGenerator.max == 0xFFFF_FFFF
      && idGenerator.calls == |pairs|
      && idGenerator.orderedSet == relayMap.Keys
    }

    // Every live relay is one that was made, unaltered, for two connections of one token.
    ghost predicate RelaysOk()
      reads this
    {
      forall id :: id in relayMap ==>
        relayMap[id].id == id && relayMap[id] in pairs && relayMap[id].first.token == relayMap[id].second.token
    }

    // Every connection waits, or is one end of a relay, live or removed.
    ghost predicate CountsOk()
      reads this
    {
      |pairs| == |relayMap| + removed && |log| == |waitingMap| + 2 * |pairs|
    }

    ghost predicate Valid()
      reads this, idGenerator
    {
      IdsOk() && RelaysOk() && CountsOk() && TokensOk(waitingMap, pairs, log)
    }

    constructor ()
      ensures Valid() && log == [] && removed == 0 && fresh(idGenerator)
    {
      idGenerator := new IdGenerator(0xFFFF_FFFF);
      waitingMap, relayMap := map[], map[];
      log, pairs, removed := [], [], 0;
    }

    // The pairing step, for a newcomer p whose token is waited for.
    method Pair(p: Peer) returns (id: nat)
      requires Valid() && p.token in waitingMap
      modifies this, idGenerator
      ensures log == old(log) + [p] && removed == old(removed)
      ensures id == 0 <==> old(idGenerator.Exhausted())
      ensures id == 0 ==> old(|pairs|) >= 0xFFFF_FFFF
      ensures id != 0 ==> Valid()
      ensures id !in old(relayMap) && |old(waitingMap)[p.token]| == 1
              && waitingMap == old(waitingMap) - {p.token}
              && relayMap == old(relayMap)[id := RelayPair(id, old(waitingMap)[p.token][0], p)]
    {
      id := idGenerator.Next();
      NewcomerIsPaired(waitingMap, pairs, log, p, id);
      var made := RelayPair(id, waitingMap[p.token][0], p);
      ghost var relays, waiting := relayMap, waitingMap;
      if id !in relayMap {
        relayMap := relayMap[id := made];
      }
      waitingMap := EraseFirst(waitingMap, p.token);
      assert waitingMap.Keys == waiting.Keys - {p.token};
      assert id != 0 ==> relayMap.Keys == relays.Keys + {id};
      log, pairs := log + [p], pairs + [made];
    }

    // Waiting unless somebody with this token waits already; then a relay of the two under a
    // new id. Only with the id space exhausted, which takes 2^32 - 1 relays, is the id 0; the
    // relay is then in the table under 0, which the allocator does not know.
    method TryConnect(addr: nat, token: Token, stream: nat) returns (state: RelayState, id: nat)
      requires Valid()
      modifies this, idGenerator
      ensures log == old(log) + [Peer(addr, token, stream)] && removed == old(removed)
      ensures state.Relaying? <==> token in old(waitingMap)
      ensures state.Waiting? ==>
                Valid() && id == 0 && relayMap == old(relayMap)
                && waitingMap == old(waitingMap)[token := [Peer(addr, token, stream)]]
      ensures state.Relaying? ==> (id == 0 <==> old(idGenerator.Exhausted()))
      ensures state.Relaying? && id != 0 ==> Valid()
      ensures state.Relaying? ==>
                id !in old(relayMap) && |old(waitingMap)[token]| == 1
                && waitingMap == old(waitingMap) - {token}
                && relayMap == old(relayMap)[id := RelayPair(id, old(waitingMap)[token][0], Peer(addr, token, stream))]
      ensures old(|pairs|) < 0xFFFF_FFFF ==> Valid()
    {
      var p := Peer(addr, token, stream);
      if token in waitingMap {
        id := Pair(p);
        return Relaying, id;
      }
      NewcomerWaits(waitingMap, pairs, log, p);
      ghost var before := waitingMap;
      waitingMap := waitingMap[token := [p]];
      assert waitingMap.Keys == before.Keys + {token};
      log := log + [p];
      return Waiting, 0;
    }

    function GetRelayPair(id: nat): Option<RelayPair>
      reads this
    {
      if id in relayMap then Some(relayMap[id]) else None
    }

    // Afterwards the id may be used again, and nothing else has changed.
    method RemoveRelay(id: nat) returns (found: bool)
      requires Valid()
      modifies this, idGenerator
      ensures Valid() && found == (id in old(relayMap))
      ensures relayMap == old(relayMap) - {id} && GetRelayPair(id) == None
      ensures waitingMap == old(waitingMap) && log == old(log) && pairs == old(pairs)
      ensures removed == old(removed) + if found then 1 else 0
    {
      if id in relayMap {
        ghost var before := relayMap;
        relayMap := relayMap - {id};
        assert relayMap.Keys == before.Keys - {id};
        removed := removed + 1;
        var _ := idGenerator.Remove(id);
        return true;
      }
      return false;
    }

    // Announces a removal but removes nothing.
    method RemoveWaiting(token: Token) returns (found: bool)
      requires Valid()
      ensures found == (token in waitingMap)
    {
      return token in waitingMap;
    }
  }
}
