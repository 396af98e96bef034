/** Segments put together from chunks in any state, for examples that need one. */
module Assembly {
  import opened Bytes
  import opened Wire
  import opened Memory
  import opened Reader
  import opened Layout
  import opened Segments

  function ImagesOf(chunks: seq<Chunk<()>>, total: nat): (r: seq<seq<byte>>)
    ensures |r| == |chunks|
  {
    Images(chunks, ImageIn(total))
  }

  /** A segment whose every chunk is claimed, in these states. */
  function Assembled(g: SegmentHeader, chunks: seq<Chunk<()>>): Segment<()>
    requires MadeOk(g, 0)
  {
    Segment(g, HeaderBytes(g), 0, |chunks|,
            HeaderBytes(g) + Zeros(g.headerBytes - SEGMENT_HEADER_SIZE) + Flatten(ImagesOf(chunks, g.chunkBytes)),
            |chunks|, chunks, multiset{})
  }

  lemma StartShift(front: nat, stride: nat, i: nat)
    requires i > 0
    ensures Start(front + stride, stride, i - 1) == Start(front, stride, i)
  {}

  lemma FirstSlice(front: seq<byte>, slice: seq<byte>, rest: seq<byte>, mem: seq<byte>)
    requires mem == front + (slice + rest)
    ensures Holds(mem, |front|, slice) && mem == (front + slice) + rest
  {
    assert mem[|front|..|front| + |slice|] == slice;
  }

  /** Slices of one size, laid end to end behind a front, stand one stride apart. */
  lemma {:induction false} FlattenTiles(front: seq<byte>, stride: nat, slices: seq<seq<byte>>)
    requires forall i :: 0 <= i < |slices| ==> |slices[i]| == stride
    ensures Start(|front|, stride, |slices|) == |front| + |Flatten(slices)|
    ensures forall i :: 0 <= i < |slices| ==> Holds(front + Flatten(slices), Start(|front|, stride, i), slices[i])
    decreases |slices|
  {
    if slices != [] {
      var mem, rest := front + Flatten(slices), slices[1..];
      assert Start(|front|, stride, 0) == |front|;
      hide Start, Holds;
      FlattenTiles(front + slices[0], stride, rest);
      FirstSlice(front, slices[0], Flatten(rest), mem);
      StartShift(|front|, stride, |slices|);
      forall i | 0 <= i < |slices|
        ensures Holds(mem, Start(|front|, stride, i), slices[i])
      {
        if i > 0 {
          StartShift(|front|, stride, i);
          assert rest[i - 1] == slices[i];
        }
      }
    }
  }

  lemma AssembledOk(g: SegmentHeader, chunks: seq<Chunk<()>>)
    requires MadeOk(g, 0) && g.segmentBytes == g.headerBytes + |chunks| * g.chunkBytes
    requires forall c :: 0 <= c < |chunks| ==> ChunkOk(chunks[c], g.chunkBytes) && Stamped(g, 0, chunks[c].stamp)
    ensures Labelled(Assembled(g, chunks)) && SegOk(Assembled(g, chunks))
  {
    hide HeaderBytes, Stamped, Image, ChunkOk;
    var s, slices := Assembled(g, chunks), ImagesOf(chunks, g.chunkBytes);
    forall c | 0 <= c < |chunks|
      ensures |slices[c]| == g.chunkBytes && OkIn(g.chunkBytes)(chunks[c])
    {
      ImageSize(chunks[c], g.chunkBytes);
    }
    var front := HeaderBytes(g) + Zeros(g.headerBytes - SEGMENT_HEADER_SIZE);
    FlattenTiles(front, g.chunkBytes, slices);
    assert s.mem == front + Flatten(slices);
    HoldsFront(s.header, Zeros(g.headerBytes - SEGMENT_HEADER_SIZE), Flatten(slices), s.mem);
    WholeCount(|chunks|, g.chunkBytes);
  }

  lemma ImageSize(ch: Chunk<()>, total: nat)
    requires ChunkOk(ch, total)
    ensures |Image(ch, total)| == total
  {}

  lemma HoldsFront(header: seq<byte>, gap: seq<byte>, rest: seq<byte>, mem: seq<byte>)
    requires mem == header + gap + rest
    ensures Holds(mem, 0, header)
  {
    assert mem[0..|header|] == header;
  }

  lemma WholeCount(n: nat, d: nat)
    requires d > 0
    ensures n * d / d == n
  {
    var x := n * d;
    var q := x / d;
    assert q * d <= x < q * d + d;
    if q < n {
      StartsApart(0, d, q, n);
    } else if n < q {
      StartsApart(0, d, n, q);
    }
  }
}
