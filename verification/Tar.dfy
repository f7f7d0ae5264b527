/** Streaming a directory of stored tar headers back out as a tar file. */
module Tar {
  import opened Wrappers

  newtype byte = x: int | 0 <= x < 256
  type Bytes = seq<byte>

  const BLOCK_SIZE := 512

  // The data of an archive's root node.
  const MAGIC := "ipfs/tar"

  // What a link of the archive leads to. Broken is a link that cannot be
  // fetched or decoded; file data that cannot be opened is BadData; a file that
  // is not intact has a block missing after the given data.
  datatype Entry = Broken | Entry(header: Bytes, body: Body)
  datatype Body = NoBody | BadData | File(data: Bytes, intact: bool) | Dir(entries: seq<Entry>)

  // A byte stream that ends either at EOF (ok) or in an error.
  datatype Stream = Stream(bytes: Bytes, ok: bool)

  function Zeros(n: nat): Bytes {
    seq(n, _ => 0)
  }

  // Bytes needed to fill n up to a whole number of blocks.
  function Padding(n: nat): nat {
    (BLOCK_SIZE - n % BLOCK_SIZE) % BLOCK_SIZE
  }

  function Then(a: Stream, b: Stream): Stream {
    if a.ok then Stream(a.bytes + b.bytes, b.ok) else a
  }

  // ---- The format: headers, padded data and children, in preorder ----

  function Serial(entries: seq<Entry>): Stream {
    if entries == [] then Stream([], true)
    else Then(SerialEntry(entries[0]), Serial(entries[1..]))
  }

  function SerialEntry(e: Entry): Stream {
    match e
    case Broken => Stream([], false)
    case Entry(header, body) =>
      match body
      case NoBody => Stream(header, true)
      case BadData => Stream([], false)
      case File(data, intact) =>
        if intact then Stream(header + data + Zeros(Padding(|data|)), true) else Stream(header + data, false)
      case Dir(entries) => Then(Stream(header, true), Serial(entries))
  }

  // Headers come from a tar writer, which pads them to whole blocks.
  predicate WholeHeaders(entries: seq<Entry>) {
    forall e :: e in entries && e.Entry? ==>
      |e.header| % BLOCK_SIZE == 0 && (e.body.Dir? ==> WholeHeaders(e.body.entries))
  }

  lemma ZerosLength(n: nat)
    ensures |Zeros(n)| == n
  {
  }

  lemma SumWhole(a: nat, b: nat)
    requires a % BLOCK_SIZE == 0 && b % BLOCK_SIZE == 0
    ensures (a + b) % BLOCK_SIZE == 0
  {
  }

  lemma PaddingFills(n: nat)
    ensures (n + Padding(n)) % BLOCK_SIZE == 0 && Padding(n) < BLOCK_SIZE
  {
  }

  // A complete archive is a whole number of blocks.
  lemma {:induction false} SerialWholeBlocks(entries: seq<Entry>)
    requires WholeHeaders(entries)
    requires Serial(entries).ok
    ensures |Serial(entries).bytes| % BLOCK_SIZE == 0
    decreases entries
  {
    hide Zeros, Padding;
    if entries != [] {
      assert entries[0] in entries;
      assert forall x :: x in entries[1..] ==> x in entries;
      SerialWholeBlocks(entries[1..]);
      EntryWholeBlocks(entries[0]);
      SumWhole(|SerialEntry(entries[0]).bytes|, |Serial(entries[1..]).bytes|);
    }
  }

  lemma EntryWholeBlocks(e: Entry)
    requires SerialEntry(e).ok && |e.header| % BLOCK_SIZE == 0 && (e.body.Dir? ==> WholeHeaders(e.body.entries))
    ensures |SerialEntry(e).bytes| % BLOCK_SIZE == 0
    decreases e
  {
    hide Serial, WholeHeaders, Zeros;
    match e.body {
      case File(data, _) =>
        PaddingFills(|data|);
        assert |Zeros(Padding(|data|))| == Padding(|data|) by { ZerosLength(Padding(|data|)); }
      case Dir(es) => SerialWholeBlocks(es);
      case NoBody =>
    }
  }

  // The archive, entry by entry: a header, the data up to the next whole block
  // with zero bytes in between, and the children; a broken link, data that
  // cannot be opened or a missing block ends it with what came before.
  lemma SerialStep(e: Entry, rest: seq<Entry>)
    ensures var s, t := Serial([e] + rest), Serial(rest);
            match e
            case Broken => s == Stream([], false)
            case Entry(h, NoBody) => s == Stream(h + t.bytes, t.ok)
            case Entry(h, BadData) => s == Stream([], false)
            case Entry(h, File(data, true)) =>
              exists zeros: Bytes :: (forall b :: b in zeros ==> b == 0) && |zeros| < 512 && (|data| + |zeros|) % 512 == 0
                                     && s == Stream(h + data + zeros + t.bytes, t.ok)
            case Entry(h, File(data, false)) => s == Stream(h + data, false)
            case Entry(h, Dir(children)) =>
              var c := Serial(children);
              s == if c.ok then Stream(h + c.bytes + t.bytes, t.ok) else Stream(h + c.bytes, false)
  {
    hide Zeros, Padding, Serial;
    FirstEntry(e, rest);
    if e.Entry? && e.body.File? && e.body.intact { FileBytes(e.header, e.body.data); }
  }

  lemma FirstEntry(e: Entry, rest: seq<Entry>)
    ensures Serial([e] + rest) == Then(SerialEntry(e), Serial(rest))
  {
    assert ([e] + rest)[1..] == rest;
  }

  lemma FileBytes(header: Bytes, data: Bytes)
    ensures exists zeros: Bytes :: (forall b :: b in zeros ==> b == 0) && |zeros| < 512 && (|data| + |zeros|) % 512 == 0
                                   && SerialEntry(Entry(header, File(data, true))) == Stream(header + data + zeros, true)
  {
    hide Padding;
    var zeros := Zeros(Padding(|data|));
    PaddingFills(|data|);
    assert forall b :: b in zeros ==> b == 0;
    assert |zeros| == Padding(|data|);
  }

  // ---- The reader ----

  // An error may come with the last bytes before it.
  datatype Outcome = Data(bytes: Bytes) | EOF | Err(bytes: Bytes)

  function Min(a: nat, b: nat): nat {
    if a < b then a else b
  }

  // Upper bound on the reads of an entry list after its links are opened.
  function Work(entries: seq<Entry>): nat {
    if entries == [] then 0 else WorkEntry(entries[0]) + Work(entries[1..])
  }

  function WorkEntry(e: Entry): nat {
    match e
    case Broken => 0
    case Entry(header, body) =>
      |header| + 2 + match body
                     case File(data, _) => |data| + 1 + BLOCK_SIZE
                     case Dir(entries) => Work(entries) + 1
                     case _ => 0
  }

  datatype End = More | AtEOF | Failed

  // A reader over a file's data that counts what it delivered. The data
  // reader below it may return short reads, and may report the end, or the
  // error at a missing block, together with the last bytes or afterwards.
  class CountReader {
    const intact: bool
    var rest: Bytes
    var n: nat

    constructor (data: Bytes, intact: bool)
      ensures rest == data && n == 0 && this.intact == intact
    {
      rest, n, this.intact := data, 0, intact;
    }

    method Read(cap: nat) returns (bytes: Bytes, end: End)
      modifies this
      ensures |bytes| <= cap && old(rest) == bytes + rest && n == old(n) + |bytes|
      ensures end.AtEOF? ==> rest == [] && intact
      ensures end.Failed? ==> rest == [] && !intact
      ensures end.More? && cap > 0 ==> bytes != []
    {
      var k :| 0 <= k <= cap && k <= |rest| && (cap > 0 && rest != [] ==> k > 0) by {
        var least := if cap > 0 && rest != [] then 1 else 0;
        assert 0 <= least <= cap && least <= |rest| && (cap > 0 && rest != [] ==> least > 0);
      }
      bytes := rest[..k];
      rest, n := rest[k..], n + k;
      var early := *;
      end := More;
      if rest == [] && (early || bytes == []) { end := if intact then AtEOF else Failed; }
    }
  }

  lemma NothingBefore(s: Stream)
    ensures Then(Stream([], true), s) == s
    ensures Zeros(0) == []
  {
  }

  lemma ThenAssoc(a: Stream, b: Stream, c: Stream)
    ensures Then(Then(a, b), c) == Then(a, Then(b, c))
  {
    if a.ok && b.ok {
      assert (a.bytes + b.bytes) + c.bytes == a.bytes + (b.bytes + c.bytes);
    }
  }

  // What opening the first link makes of the stream.
  lemma OpenedStream(links: seq<Entry>)
    requires links != []
    ensures links[0].Broken? || links[0].body.BadData? ==> Serial(links) == Stream([], false)
    ensures links[0].Entry? && !links[0].body.BadData? ==>
              && Serial(links) == Opened(links[0].header, links[0].body, Serial(links[1..]))
              && Work(links) > OpenedWork(links[0].header, links[0].body) + Work(links[1..])
  {
    var e, s := links[0], Serial(links[1..]);
    if e.Entry? {
      match e.body {
        case File(data, _) =>
          assert e.header + data + Zeros(Padding(|data|)) == e.header + (data + Zeros(Padding(|data|)));
          ThenAssoc(Stream(e.header, true), FileEnd(data, 0, e.body.intact), s);
        case Dir(es) =>
          ThenAssoc(Stream(e.header, true), Serial(es), s);
        case _ =>
      }
      NothingBefore(s);
      NothingBefore(Then(Serial(if e.body.Dir? then e.body.entries else []), s));
    }
  }

  // What is left of a file of which n bytes were delivered.
  function FileEnd(rest: Bytes, n: nat, intact: bool): Stream {
    if intact then Stream(rest + Zeros(Padding(n + |rest|)), true) else Stream(rest, false)
  }

  // An opened entry: its header and file data, then its children, then the rest.
  function Opened(header: Bytes, body: Body, s: Stream): Stream {
    match body
    case File(data, intact) => Then(Stream(header, true), Then(FileEnd(data, 0, intact), Then(Stream([], true), s)))
    case Dir(es) => Then(Stream(header, true), Then(Stream(Zeros(0), true), Then(if es == [] then Stream([], true) else Serial(es), s)))
    case _ => Then(Stream(header, true), Then(Stream(Zeros(0), true), Then(Stream([], true), s)))
  }

  function OpenedWork(header: Bytes, body: Body): nat {
    |header| + 1 + match body
                   case File(data, _) => |data| + 1 + BLOCK_SIZE
                   case Dir(es) => if es == [] then 0 else Work(es) + 1
                   case _ => 0
  }

  // A read of the file; at its end the padding is what is left to fill a block.
  lemma FileDelivers(cap: nat, bytes: Bytes, rest0: Bytes, n0: nat, rest1: Bytes, n1: nat, intact: bool, more: Stream, work: nat)
    requires |bytes| <= cap && rest0 == bytes + rest1 && n1 == n0 + |bytes|
    ensures cap == 0 || bytes != [] ==>
              Delivers(cap, Data(bytes), Then(FileEnd(rest0, n0, intact), more), |rest0| + 1 + BLOCK_SIZE + work,
                       Then(FileEnd(rest1, n1, intact), more), |rest1| + 1 + BLOCK_SIZE + work)
    ensures rest1 == [] && intact ==>
              var pad := (BLOCK_SIZE - (n1 % BLOCK_SIZE)) % BLOCK_SIZE;
              Delivers(cap, Data(bytes), Then(FileEnd(rest0, n0, intact), more), |rest0| + 1 + BLOCK_SIZE + work,
                       Then(Stream(Zeros(pad), true), more), pad + work)
    ensures rest1 == [] && !intact ==>
              Delivers(cap, Err(bytes), Then(FileEnd(rest0, n0, intact), more), |rest0| + 1 + BLOCK_SIZE + work,
                       Then(FileEnd(rest1, n1, intact), more), |rest1| + 1 + BLOCK_SIZE + work)
  {
    var zeros := Zeros(Padding(n0 + |rest0|));
    assert zeros == Zeros(Padding(n1 + |rest1|));
    assert rest0 + zeros == bytes + (rest1 + zeros);
    PrefixDelivers(bytes, FileEnd(rest1, n1, intact), more);
    assert rest1 == [] ==> rest1 + zeros == zeros && bytes + rest1 == bytes;
  }

  // Delivering the first bytes of a stream leaves the rest of it.
  lemma PrefixDelivers(a: Bytes, t: Stream, s: Stream)
    ensures Then(Stream(a + t.bytes, t.ok), s) == Stream(a + Then(t, s).bytes, Then(t, s).ok)
  {
    assert (a + t.bytes) + s.bytes == a + (t.bytes + s.bytes);
  }

  // What a nested reader delivers, its parent delivers.
  lemma ChildDelivers(cap: nat, out: Outcome, c0: Stream, l0: nat, c1: Stream, l1: nat, rest: Stream, more: nat)
    requires Delivers(cap, out, c0, l0, c1, l1)
    ensures !out.EOF? ==> Delivers(cap, out, Then(c0, rest), l0 + 1 + more, Then(c1, rest), l1 + 1 + more)
    ensures out.EOF? ==> Delivers(cap, Data([]), Then(c0, rest), l0 + 1 + more, rest, more)
  {
    if out.Data? && c0.ok {
      assert (out.bytes + c1.bytes) + rest.bytes == out.bytes + (c1.bytes + rest.bytes);
    }
  }

  class TarReader {
    var links: seq<Entry>
    var childRead: TarReader?
    var hdrBuf: Option<Bytes>
    var fileRead: CountReader?
    var pad: nat
    ghost var Repr: set<object>

    constructor (links: seq<Entry>)
      ensures Valid() && fresh(Repr)
      ensures Remaining() == Serial(links) && Left() == Work(links)
    {
      this.links, childRead, hdrBuf, fileRead, pad := links, null, None, null, 0;
      Repr := {this};
      new;
      NothingBefore(Serial(links));
    }

    ghost predicate Valid()
      reads this, Repr
      decreases Repr
    {
      && this in Repr
      && (childRead != null ==>
            childRead in Repr && childRead.Repr <= Repr && this !in childRead.Repr && childRead.Valid())
      && (fileRead != null ==> fileRead in Repr && childRead == null && pad == 0)
      && (childRead != null ==> pad == 0)
    }

    // The bytes still to be delivered, and how the stream ends.
    ghost function Remaining(): Stream
      requires Valid()
      reads this, Repr
      decreases Repr
    {
      Then(Stream(Header(), true), Then(FileTail(), Then(Child(), Serial(links))))
    }

    ghost function Header(): Bytes
      reads this
    {
      if hdrBuf.Some? then hdrBuf.value else []
    }

    ghost function FileTail(): Stream
      reads this, fileRead
    {
      if fileRead != null then FileEnd(fileRead.rest, fileRead.n, fileRead.intact) else Stream(Zeros(pad), true)
    }

    ghost function Child(): Stream
      requires Valid()
      reads this, Repr
      decreases Repr, 0
    {
      if childRead != null then childRead.Remaining() else Stream([], true)
    }

    // Upper bound on the number of further successful non-empty reads.
    ghost function Left(): nat
      requires Valid()
      reads this, Repr
      decreases Repr
    {
      (if hdrBuf.Some? then |hdrBuf.value| + 1 else 0)
      + (if fileRead != null then |fileRead.rest| + 1 + BLOCK_SIZE else pad)
      + (if childRead != null then childRead.Left() + 1 else 0)
      + Work(links)
    }

    method ReadHeader(cap: nat) returns (out: Outcome)
      requires Valid() && hdrBuf.Some?
      modifies this
      ensures Valid() && Repr == old(Repr)
      ensures Delivers(cap, out, old(Remaining()), old(Left()), Remaining(), Left())
    {
      hide Serial, Work, Zeros, Padding, Then;
      var h := hdrBuf.value;
      ghost var rest := Then(FileTail(), Then(Child(), Serial(links)));
      if h == [] {
        hdrBuf := None;
        PrefixDelivers([], Stream([], true), rest);
        return Data([]);
      }
      var n := Min(cap, |h|);
      hdrBuf := Some(h[n..]);
      out := Data(h[..n]);
      assert h == h[..n] + h[n..];
      PrefixDelivers(h[..n], Stream(h[n..], true), rest);
    }

    method ReadChild(cap: nat) returns (out: Outcome)
      requires Valid() && hdrBuf.None? && childRead != null
      modifies Repr
      ensures Valid() && fresh(Repr - old(Repr))
      ensures Delivers(cap, out, old(Remaining()), old(Left()), Remaining(), Left())
      decreases Left(), 0
    {
      hide Serial, Work, Zeros, Padding, Then;
      ghost var c0, l0, rest := childRead.Remaining(), childRead.Left(), Serial(links);
      NothingBefore(Then(c0, rest));
      assert Remaining() == Then(c0, rest) && Left() == l0 + 1 + Work(links);
      out := childRead.Read(cap);
      Repr := Repr + childRead.Repr;
      ChildDelivers(cap, out, c0, l0, childRead.Remaining(), childRead.Left(), rest, Work(links));
      NothingBefore(Then(childRead.Remaining(), rest));
      if out.EOF? {
        childRead := null;
        NothingBefore(rest);
        out := Data([]);
      }
    }

    method ReadFile(cap: nat) returns (out: Outcome)
      requires Valid() && hdrBuf.None? && childRead == null && fileRead != null
      modifies Repr
      ensures Valid() && Repr == old(Repr)
      ensures Delivers(cap, out, old(Remaining()), old(Left()), Remaining(), Left())
    {
      hide Serial, Work, Then, Zeros, Padding, Delivers;
      ghost var rest0, n0, more := fileRead.rest, fileRead.n, Then(Child(), Serial(links));
      NothingBefore(Then(FileTail(), more));
      assert Remaining() == Then(FileEnd(rest0, n0, fileRead.intact), more);
      var bytes, end := fileRead.Read(cap);
      FileDelivers(cap, bytes, rest0, n0, fileRead.rest, fileRead.n, fileRead.intact, more, Work(links));
      NothingBefore(Then(FileTail(), more));
      assert Remaining() == Then(FileEnd(fileRead.rest, fileRead.n, fileRead.intact), more);
      out := Data(bytes);
      match end {
        case More =>
        case Failed => out := Err(bytes);
        case AtEOF =>
          pad := (BLOCK_SIZE - (fileRead.n % BLOCK_SIZE)) % BLOCK_SIZE;
          fileRead := null;
          NothingBefore(Then(Stream(Zeros(pad), true), more));
      }
    }

    method ReadPad(cap: nat) returns (out: Outcome)
      requires Valid() && hdrBuf.None? && childRead == null && fileRead == null && pad > 0
      modifies this
      ensures Valid() && Repr == old(Repr)
      ensures Delivers(cap, out, old(Remaining()), old(Left()), Remaining(), Left())
    {
      hide Serial, Work, Then;
      var n := Min(cap, pad);
      ghost var more := Then(Child(), Serial(links));
      PrefixDelivers(Zeros(n), Stream(Zeros(pad - n), true), more);
      assert Zeros(pad) == Zeros(n) + Zeros(pad - n);
      NothingBefore(Then(Stream(Zeros(pad), true), more));
      NothingBefore(Then(Stream(Zeros(pad - n), true), more));
      pad := pad - n;
      out := Data(Zeros(n));
    }

    // Opens the next link; the header it leads to is read before anything else.
    method OpenNext() returns (ok: bool)
      requires Valid() && hdrBuf.None? && childRead == null && fileRead == null && pad == 0 && links != []
      modifies this
      ensures Valid() && fresh(Repr - old(Repr))
      ensures ok ==> Remaining() == old(Remaining()) && Left() < old(Left()) && hdrBuf.Some?
      ensures !ok ==> old(Remaining()) == Stream([], false)
    {
      hide Serial, Work, Then, Zeros, Padding;
      var next := links[0];
      OpenedStream(links);
      ghost var more := Serial(links[1..]);
      NothingBefore(Serial(links));
      NothingBefore(more);
      links := links[1..];
      if next.Broken? { return false; }
      hdrBuf := Some(next.header);
      match next.body {
        case NoBody =>
        case BadData => return false;
        case File(data, intact) =>
          fileRead := new CountReader(data, intact);
          Repr := Repr + {fileRead};
        case Dir(entries) =>
          if entries != [] {
            childRead := new TarReader(entries);
            Repr := Repr + childRead.Repr;
          }
      }
      ok := true;
    }

    method Read(cap: nat) returns (out: Outcome)
      requires Valid()
      modifies Repr
      ensures Valid() && fresh(Repr - old(Repr))
      ensures Delivers(cap, out, old(Remaining()), old(Left()), Remaining(), Left())
      decreases Left(), 1
    {
      if hdrBuf.Some? {
        out := ReadHeader(cap);
      } else if childRead != null {
        out := ReadChild(cap);
      } else if fileRead != null {
        out := ReadFile(cap);
      } else if pad > 0 {
        out := ReadPad(cap);
      } else if links == [] {
        out := EOF;
      } else {
        var ok := OpenNext();
        if !ok { return Err([]); }
        out := Read(cap);
      }
    }
  }

  // Reading an archive through buffers of any non-zero sizes, until it ends.
  method Export(root: string, links: seq<Entry>, sizes: nat -> nat) returns (out: Bytes, ok: bool)
    requires forall i: nat :: sizes(i) > 0
    ensures ok <==> root == "ipfs/tar" && Serial(links).ok
    ensures root == "ipfs/tar" ==> out == Serial(links).bytes
  {
    hide Serial, Work, Then, Zeros, Padding, TarReader.Valid, TarReader.Remaining, TarReader.Left;
    out, ok := [], false;
    if root != MAGIC { return; }
    var tr := new TarReader(links);
    var i := 0;
    while true
      invariant tr.Valid() && fresh(tr.Repr)
      invariant Serial(links) == Stream(out + tr.Remaining().bytes, tr.Remaining().ok)
      decreases tr.Left()
    {
      var r := tr.Read(sizes(i));
      i := i + 1;
      match r {
        case EOF => return out, true;
        case Err(bytes) => return out + bytes, false;
        case Data(bytes) => out := out + bytes;
      }
    }
  }

  // One read: the bytes are the next ones of the stream and a non-empty buffer
  // makes progress; EOF and Err come exactly where the stream ends.
  predicate Delivers(cap: nat, out: Outcome, before: Stream, left0: nat, after: Stream, left: nat) {
    match out
    case Data(bytes) => |bytes| <= cap && before == Stream(bytes + after.bytes, after.ok) && (cap > 0 ==> left < left0)
    case EOF => before == Stream([], true)
    case Err(bytes) => |bytes| <= cap && before == Stream(bytes, false)
  }
}
