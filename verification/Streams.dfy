/** The registry of forwarded streams and its per-peer connection counts. */
module Streams {

  const UINT64 := 0x1_0000_0000_0000_0000

  type Peer = nat

  class Stream {
    const peer: Peer
    var id: nat
    var open: bool

    constructor (peer: Peer)
      ensures this.peer == peer
    {
      this.peer, id, open := peer, 0, true;
    }
  }

  ghost function IdsOf(streams: map<nat, Stream>, p: Peer): set<nat> {
    set id | id in streams && streams[id].peer == p
  }

  class StreamRegistry {
    var streams: map<nat, Stream>
    var conns: map<Peer, int>
    var nextID: nat
    // The peers tagged with the connection manager.
    var tagged: set<Peer>

    constructor ()
      ensures Valid() && streams == map[] && nextID == 0
    {
      streams, conns, nextID, tagged := map[], map[], 0, {};
    }

    // Counts are exact, a peer is tagged iff it has a stream, ids are used up.
    ghost predicate Valid()
      reads this
    {
      && (forall p :: p in conns <==> |IdsOf(streams, p)| > 0)
      && (forall p :: p in conns ==> conns[p] == |IdsOf(streams, p)|)
      && tagged == conns.Keys
      && (forall id :: id in streams ==> id < nextID)
      && nextID < 0x1_0000_0000_0000_0000
    }

    method Register(s: Stream)
      requires Valid() && nextID + 1 < 0x1_0000_0000_0000_0000
      modifies this, s`id
      ensures Valid()
      ensures s.id == old(nextID) && s.id !in old(streams) && nextID == old(nextID) + 1
      ensures streams == old(streams)[s.id := s]
    {
      hide IdsOf;
      var p := s.peer;
      tagged := tagged + {p};
      conns := conns[p := (if p in conns then conns[p] else 0) + 1];
      s.id := nextID;
      ghost var before := streams;
      streams := streams[nextID := s];
      nextID := (nextID + 1) % UINT64;
      IdsAfterAdd(before, old(nextID), s);
    }

    method Deregister(streamID: nat)
      requires Valid()
      modifies this
      ensures Valid() && nextID == old(nextID)
      ensures streams == old(streams) - {streamID}
      ensures streamID !in old(streams) ==> conns == old(conns) && tagged == old(tagged)
    {
      hide IdsOf;
      if streamID !in streams {
        assert streams - {streamID} == streams;
        return;
      }
      var p := streams[streamID].peer;
      ghost var before := streams;
      IdsAfterRemove(before, streamID);
      assert |IdsOf(before, p)| == |IdsOf(before - {streamID}, p)| + 1;
      conns := conns[p := conns[p] - 1];
      if conns[p] < 1 {
        conns := conns - {p};
        tagged := tagged - {p};
      }
      streams := streams - {streamID};
    }

    // Both copying goroutines end in one of these; the second call finds the
    // stream gone.
    method Close(s: Stream)
      requires Valid()
      modifies this, s`open
      ensures Valid() && nextID == old(nextID)
      ensures streams == old(streams) - {s.id} && !s.open
      ensures s.id !in old(streams) ==> conns == old(conns) && tagged == old(tagged)
    {
      s.open := false;
      Deregister(s.id);
    }

    method Reset(s: Stream)
      requires Valid()
      modifies this, s`open
      ensures Valid() && nextID == old(nextID)
      ensures streams == old(streams) - {s.id} && !s.open
      ensures s.id !in old(streams) ==> conns == old(conns) && tagged == old(tagged)
    {
      s.open := false;
      Deregister(s.id);
    }
  }

  lemma IdsAfterAdd(streams: map<nat, Stream>, id: nat, s: Stream)
    requires id !in streams
    ensures |IdsOf(streams[id := s], s.peer)| == |IdsOf(streams, s.peer)| + 1
    ensures forall p :: p != s.peer ==> IdsOf(streams[id := s], p) == IdsOf(streams, p)
  {
    var ids := IdsOf(streams, s.peer);
    assert IdsOf(streams[id := s], s.peer) == ids + {id} && id !in ids;
  }

  lemma IdsAfterRemove(streams: map<nat, Stream>, id: nat)
    requires id in streams
    ensures |IdsOf(streams, streams[id].peer)| == |IdsOf(streams - {id}, streams[id].peer)| + 1
    ensures forall p :: p != streams[id].peer ==> IdsOf(streams - {id}, p) == IdsOf(streams, p)
  {
    var ids := IdsOf(streams, streams[id].peer);
    assert IdsOf(streams - {id}, streams[id].peer) == ids - {id} && id in ids;
  }
}
