/** Content identifiers and what a node's fetcher answers for them. */
module Blocks {
  import opened Dag

  type Multihash = seq<bv8>

  const DAG_PROTOBUF := 0x70
  const RAW := 0x55

  // A version 0 identifier always has the dag-pb codec.
  datatype Cid = CidV0(hash: Multihash) | CidV1(codec: nat, hash: Multihash)

  // Same content, version 1.
  function ToCidV1(c: Cid): (r: Cid)
    ensures r.CidV1? && SameContent(c, r)
  {
    if c.CidV0? then CidV1(DAG_PROTOBUF, c.hash) else c
  }

  // r names what c names: the hash is the same, and so is the codec, which for
  // a version 0 identifier is 0x70.
  predicate SameContent(c: Cid, r: Cid) {
    && c.hash == r.hash
    && (if c.CidV0? then 0x70 else c.codec) == (if r.CidV0? then 0x70 else r.codec)
  }

  function RawCid(h: Multihash): (r: Cid)
    ensures r == CidV1(0x55, h)
  {
    CidV1(RAW, h)
  }

  // The answer of a links fetch; anything not in World.fetch is not found.
  datatype Fetch = Links(cids: seq<Cid>) | Failed

  // fetch is keyed by codec and multihash (a version 1 identifier), so the
  // two versions of one dag-pb identifier always have the same links.
  datatype World = World(fetch: map<Cid, Fetch>, insecure: set<Multihash>) {

    function LinksOf(c: Cid): seq<Cid> {
      if HasLinks(c) then fetch[ToCidV1(c)].cids else []
    }

    predicate HasLinks(c: Cid) {
      ToCidV1(c) in fetch && fetch[ToCidV1(c)].Links?
    }

    predicate NotFound(c: Cid) {
      ToCidV1(c) !in fetch
    }
  }

  // How a walk treats identifiers and fetch errors: Strict and BestEffort are
  // the collector's two walks, Plain is the walk of the pin listing.
  datatype Mode = Strict | BestEffort | Plain

  function Norm(mode: Mode, c: Cid): Cid {
    if mode.Plain? then c else ToCidV1(c)
  }

  function NormSet(mode: Mode, cs: set<Cid>): set<Cid> {
    set c | c in cs :: Norm(mode, c)
  }

  function NormSeq(mode: Mode, cs: seq<Cid>): seq<Cid> {
    seq(|cs|, i requires 0 <= i < |cs| => Norm(mode, cs[i]))
  }

  function Elements<T>(s: seq<T>): set<T> {
    set x | x in s
  }

  // The fetch error ends the walk.
  predicate Aborts(w: World, mode: Mode, c: Cid) {
    if mode.Plain? then !w.HasLinks(c) else c.hash in w.insecure
  }

  // The fetch error is recorded and the walk goes on.
  predicate Flags(w: World, mode: Mode, c: Cid) {
    match mode
    case Strict => !w.HasLinks(c)
    case BestEffort => !w.HasLinks(c) && !w.NotFound(c)
    case Plain => false
  }

  predicate Healthy(w: World, mode: Mode, c: Cid) {
    !Aborts(w, mode, c) && !Flags(w, mode, c)
  }

  function AllKeys(w: World): set<Cid> {
    w.fetch.Keys + (set c | c in w.fetch && c == CidV1(DAG_PROTOBUF, c.hash) :: CidV0(c.hash))
  }

  function AllLinks(w: World): set<Cid> {
    set k, c | k in w.fetch && w.fetch[k].Links? && c in w.fetch[k].cids :: c
  }

  // The graph a walk follows, on normalised identifiers.
  function Follows(w: World, mode: Mode): Graph<Cid> {
    map c | c in AllKeys(w) && Norm(mode, c) == c && !Aborts(w, mode, c) :: NormSeq(mode, w.LinksOf(c))
  }

  // The collector's graph, on version 1 identifiers.
  function LinkGraph(w: World): Graph<Cid> {
    Follows(w, Strict)
  }

  lemma FollowsLinks(w: World, mode: Mode, c: Cid)
    requires !Aborts(w, mode, c)
    ensures Elements(Succ(Follows(w, mode), Norm(mode, c))) == NormSet(mode, Elements(w.LinksOf(c)))
    ensures Elements(w.LinksOf(c)) <= AllLinks(w)
  {
    var n := Norm(mode, c);
    var ls := w.LinksOf(c);
    if w.HasLinks(c) {
      assert ToCidV1(c) in AllKeys(w);
      assert c in AllKeys(w);
      assert Succ(Follows(w, mode), n) == NormSeq(mode, ls);
      forall x | x in NormSet(mode, Elements(ls)) ensures x in NormSeq(mode, ls) {
        var y :| y in ls && Norm(mode, y) == x;
        var i :| 0 <= i < |ls| && ls[i] == y;
        assert NormSeq(mode, ls)[i] == x;
      }
    } else {
      assert ls == [];
      assert NormSeq(mode, ls) == [];
    }
  }

  // ---- The same, read off the fetch results directly ----

  // Strictly, an identifier can be expanded iff its links were fetched and its
  // hash is secure; without block or with an error it cannot.
  lemma StrictHealth(w: World, c: Cid)
    requires c.CidV1?
    ensures Healthy(w, Strict, c) <==> c in w.fetch && w.fetch[c].Links? && c.hash !in w.insecure
  {
  }

  // Best effort is only spoilt by an insecure hash or an error that is not
  // "not found".
  lemma BestEffortHealth(w: World, c: Cid)
    requires c.CidV1?
    ensures Healthy(w, BestEffort, c) <==> c.hash !in w.insecure && !(c in w.fetch && w.fetch[c].Failed?)
  {
  }

  // The links the collector follows.
  lemma LinkGraphExact(w: World, b: Cid, c: Cid)
    ensures c in Succ(LinkGraph(w), b) <==>
            && b.CidV1? && b in w.fetch && w.fetch[b].Links? && b.hash !in w.insecure
            && c.CidV1? && exists l :: l in w.fetch[b].cids && SameContent(l, c)
  {
    if b.CidV1? && w.HasLinks(b) && b.hash !in w.insecure {
      FollowsLinks(w, Strict, b);
      hide Follows;
      var ls := Elements(w.LinksOf(b));
      assert c in Succ(LinkGraph(w), b) <==> c in Elements(Succ(LinkGraph(w), b));
      if l :| l in w.fetch[b].cids && SameContent(l, c) && c.CidV1? {
        assert Norm(Strict, l) == c;
        assert c in NormSet(Strict, ls);
      }
    } else if b in LinkGraph(w) {
      assert LinkGraph(w)[b] == NormSeq(Strict, w.LinksOf(b));
    }
  }

  lemma ReachedIsV1(w: World, roots: set<Cid>)
    ensures forall c :: Reachable(LinkGraph(w), NormSet(Strict, roots), c) ==> c.CidV1?
  {
    hide Follows;
    forall c | Reachable(LinkGraph(w), NormSet(Strict, roots), c) ensures c.CidV1? {
      var k: nat :| ReachIn(LinkGraph(w), NormSet(Strict, roots), c, k);
      if k > 0 {
        var b :| ReachIn(LinkGraph(w), NormSet(Strict, roots), b, k - 1) && c in Succ(LinkGraph(w), b);
        LinkGraphExact(w, b, c);
      }
    }
  }

  // The links the pin listing follows, on identifiers as they are.
  lemma PlainLinksExact(w: World, b: Cid, c: Cid)
    ensures c in Succ(Follows(w, Plain), b) <==>
            exists v: Cid :: v.CidV1? && SameContent(b, v) && v in w.fetch && w.fetch[v].Links? && c in w.fetch[v].cids
  {
    if w.HasLinks(b) {
      FollowsLinks(w, Plain, b);
      hide Follows;
      var ls := Elements(w.LinksOf(b));
      assert c in Succ(Follows(w, Plain), b) <==> c in Elements(Succ(Follows(w, Plain), b));
      if c in w.LinksOf(b) {
        assert Norm(Plain, c) in NormSet(Plain, ls);
        assert c in w.fetch[ToCidV1(b)].cids;
      }
    } else {
      assert b !in Follows(w, Plain);
    }
    forall v: Cid | v.CidV1? && SameContent(b, v) ensures v == ToCidV1(b) {
    }
  }

  // Whether something outside fails now: the context is cancelled, the pinner,
  // the blockstore or the client fails. It may at any time, if it may at all.
  method Fault(possible: bool) returns (happens: bool)
    ensures happens ==> possible
  {
    happens := *;
    happens := happens && possible;
  }
}
