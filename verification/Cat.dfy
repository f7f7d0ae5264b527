/** Cutting an offset and a length out of several files read in a row. */
module Cat {

  newtype byte = x: int | 0 <= x < 256
  type Bytes = seq<byte>

  const INT64 := 0x8000_0000_0000_0000
  const UINT64 := 0x1_0000_0000_0000_0000

  // What a path resolves to; Failed is a failed fetch, size or seek.
  datatype Node = File(data: Bytes) | Directory | Unsupported | Failed

  datatype Result = Ok(readers: seq<Bytes>, length: nat) | Err

  function Concat(readers: seq<Bytes>): Bytes {
    if readers == [] then [] else Concat(readers[..|readers| - 1]) + readers[|readers| - 1]
  }

  // How many files come before the first path that is not a readable file.
  function Readable(nodes: seq<Node>): (n: nat)
    ensures n <= |nodes|
    ensures forall i :: 0 <= i < n ==> nodes[i].File?
    ensures n < |nodes| ==> !nodes[n].File?
  {
    if nodes == [] || !nodes[0].File? then 0 else 1 + Readable(nodes[1..])
  }

  function Contents(nodes: seq<Node>): Bytes
    requires forall n :: n in nodes ==> n.File?
  {
    if nodes == [] then [] else Contents(nodes[..|nodes| - 1]) + nodes[|nodes| - 1].data
  }

  // s without its first offset bytes, cut to max bytes unless max is negative.
  function Window(s: Bytes, offset: nat, max: int): Bytes {
    var rest := if offset <= |s| then s[offset..] else [];
    if 0 <= max < |rest| then rest[..max] else rest
  }

  lemma {:induction false} ContentsGrow(nodes: seq<Node>, i: nat)
    requires i <= |nodes| && forall n :: n in nodes ==> n.File?
    ensures Contents(nodes[..i]) <= Contents(nodes)
    decreases |nodes|
  {
    if i < |nodes| {
      var most := nodes[..|nodes| - 1];
      ContentsGrow(most, i);
      assert most[..i] == nodes[..i];
    } else {
      assert nodes[..i] == nodes;
    }
  }

  // Bytes past the end of the window do not matter.
  lemma WindowOfPrefix(s: Bytes, t: Bytes, offset: nat, max: int)
    requires s <= t && 0 <= max && offset + max <= |s|
    ensures Window(s, offset, max) == Window(t, offset, max)
  {
  }

  // One more file in the row.
  lemma WindowAppend(s: Bytes, data: Bytes, offset: nat)
    ensures offset <= |s| ==> Window(s + data, offset, -1) == Window(s, offset, -1) + data
    ensures |s| <= offset <= |s| + |data| ==> Window(s + data, offset, -1) == data[offset - |s|..]
    ensures |s| + |data| <= offset ==> Window(s + data, offset, -1) == []
  {
  }

  lemma ConcatAppend(readers: seq<Bytes>, r: Bytes)
    ensures Concat(readers + [r]) == Concat(readers) + r
    ensures Concat([]) == []
  {
    assert (readers + [r])[..|readers|] == readers;
  }

  lemma ContentsAppend(nodes: seq<Node>, i: nat)
    requires i < |nodes| && forall k :: 0 <= k <= i ==> nodes[k].File?
    ensures Contents(nodes[..i + 1]) == Contents(nodes[..i]) + nodes[i].data
  {
    assert nodes[..i + 1][..i] == nodes[..i];
  }

  // The limit is reached inside the first i of n files.
  lemma LimitReached(nodes: seq<Node>, i: nat, n: nat, offset: nat, max: nat)
    requires i <= n <= |nodes| && forall k :: 0 <= k < n ==> nodes[k].File?
    requires 0 < max <= |Window(Contents(nodes[..i]), offset, -1)|
    ensures Window(Contents(nodes[..n]), offset, max) == Window(Contents(nodes[..i]), offset, -1)[..max]
    ensures |Contents(nodes[..n])| >= offset + max
  {
    ContentsGrow(nodes[..n], i);
    assert nodes[..n][..i] == nodes[..i];
    WindowOfPrefix(Contents(nodes[..i]), Contents(nodes[..n]), offset, max);
  }

  // The limit was not reached.
  lemma LimitNotReached(s: Bytes, offset: nat, max: int)
    requires max > 0 ==> |Window(s, offset, -1)| < max
    requires max != 0
    ensures Window(s, offset, max) == Window(s, offset, -1)
    ensures max < 0 || |s| < offset + max
  {
  }

  // The readable prefix of the paths supplies all the bytes; a path that is no
  // readable file is an error unless the limit was reached before it.
  method Cat(nodes: seq<Node>, offset0: nat, max: int) returns (res: Result)
    requires forall n :: n in nodes && n.File? ==> |n.data| < INT64
    requires max < INT64
    ensures var n := Readable(nodes);
            res.Err? <==> max != 0 && n < |nodes| && (max < 0 || |Contents(nodes[..n])| < offset0 + max)
    ensures res.Ok? ==> Concat(res.readers) == Window(Contents(nodes[..Readable(nodes)]), offset0, max)
    ensures res.Ok? ==> res.length == |Concat(res.readers)| % 0x1_0000_0000_0000_0000
    ensures res.Ok? && max >= 0 ==> res.length == |Concat(res.readers)|
  {
    hide Window, Concat, Contents, Wrap;
    WrapAdd(0, 0);
    ConcatAppend([], []);
    ghost var n := Readable(nodes);
    NoContents(Contents(nodes[..n]), offset0);
    WrapIs(0);
    if max == 0 { return Ok([], 0); }
    var readers, length, offset := [], 0, offset0;
    for i := 0 to |nodes|
      invariant i <= n
      invariant offset >= 0
      invariant if readers == [] then offset0 == |Contents(nodes[..i])| + offset
                else offset == 0 && offset0 <= |Contents(nodes[..i])|
      invariant Concat(readers) == Window(Contents(nodes[..i]), offset0, -1)
      invariant length == Wrap(|Concat(readers)|)
      invariant max > 0 ==> length == |Concat(readers)| < max
    {
      ghost var done := Contents(nodes[..i]);
      if !nodes[i].File? {
        LimitNotReached(done, offset0, max);
        return Err;
      }
      var data := nodes[i].data;
      var fsize := |data|;
      ContentsAppend(nodes, i);
      WindowAppend(done, data, offset0);
      if offset > fsize {
        offset := offset - fsize;
        continue;
      }
      var count := offset;
      offset := 0;
      var size := fsize - count;
      WrapAdd(|Concat(readers)|, size);
      length := Wrap(length + size);
      var r := data[count..];
      ConcatAppend(readers, r);
      assert Concat(readers) + r == Window(done + data, offset0, -1);
      if max > 0 && length >= max {
        LimitReached(nodes, i + 1, n, offset0, max);
        var overshoot := length - max;
        if overshoot != 0 {
          ghost var kept := Concat(readers);
          r := r[..size - overshoot];
          length := max;
          assert kept + r == (kept + data[count..])[..max];
          ConcatAppend(readers, r);
          WrapAdd(max, 0);
        }
        WrapIs(|Concat(readers + [r])|);
        return Ok(readers + [r], length);
      }
      readers := readers + [r];
    }
    assert nodes[..|nodes|] == nodes[..n];
    LimitNotReached(Contents(nodes[..n]), offset0, max);
    res := Ok(readers, length);
    WrapIs(|Concat(readers)|);
  }

  // The running length is a uint64.
  function Wrap(n: nat): nat {
    n % UINT64
  }

  lemma WrapIs(n: nat)
    ensures Wrap(n) == n % 0x1_0000_0000_0000_0000
  {
  }

  lemma WrapAdd(a: nat, b: nat)
    ensures Wrap(Wrap(a) + b) == Wrap(a + b)
    ensures a + b < UINT64 ==> Wrap(a + b) == a + b
  {
  }

  lemma NoContents(s: Bytes, offset: nat)
    ensures Contents([]) == [] && Window([], offset, -1) == [] && Window(s, offset, 0) == []
  {
  }
}
