/** Bytes that land one store at a time: partly written regions and the slices they live in. */
module Memory {
  import opened Bytes

  function Overwrite(mem: seq<byte>, o: nat, bytes: seq<byte>): (r: seq<byte>)
    requires o + |bytes| <= |mem|
    ensures |r| == |mem|
  {
    mem[..o] + bytes + mem[o + |bytes|..]
  }

  function Span(o: nat, n: nat): (s: set<nat>)
    ensures forall i :: i in s <==> o <= i < o + n
  {
    if n == 0 then {} else Span(o, n - 1) + {o + n - 1}
  }

  /** The bytes of `target` that have been stored; the rest are still zero. */
  function Masked(target: seq<byte>, stored: set<nat>): (r: seq<byte>)
    ensures |r| == |target|
  {
    seq(|target|, i requires 0 <= i < |target| => if i in stored then target[i] else 0)
  }

  lemma MaskedStore(target: seq<byte>, stored: set<nat>, o: nat, n: nat)
    requires o + n <= |target|
    ensures Masked(target, stored + Span(o, n)) == Overwrite(Masked(target, stored), o, target[o..o + n])
  {}

  lemma MaskedNone(target: seq<byte>)
    ensures Masked(target, {}) == Zeros(|target|)
  {}

  lemma MaskedAll(target: seq<byte>, stored: set<nat>)
    requires forall i :: 0 <= i < |target| ==> i in stored
    ensures Masked(target, stored) == target
  {}

  /** A region of `total` bytes: a finished front, a part being written, then space. */
  function Region(front: seq<byte>, target: seq<byte>, stored: set<nat>, total: nat): (r: seq<byte>)
    requires |front| + |target| <= total
    ensures |r| == total
  {
    front + Masked(target, stored) + Zeros(total - |front| - |target|)
  }

  lemma RegionStore(front: seq<byte>, target: seq<byte>, stored: set<nat>, total: nat, o: nat, n: nat)
    requires |front| + |target| <= total && o + n <= |target|
    ensures Region(front, target, stored + Span(o, n), total)
            == Overwrite(Region(front, target, stored, total), |front| + o, target[o..o + n])
  {
    MaskedStore(target, stored, o, n);
  }

  /** Handing out space changes no byte. */
  lemma RegionReserve(front: seq<byte>, target: seq<byte>, total: nat)
    requires |front| + |target| <= total
    ensures Region(front, [], {}, total) == Region(front, target, {}, total)
  {}

  /** A part whose every byte is stored is finished. */
  lemma RegionFinish(front: seq<byte>, target: seq<byte>, stored: set<nat>, total: nat)
    requires |front| + |target| <= total
    requires forall i :: 0 <= i < |target| ==> i in stored
    ensures Region(front, target, stored, total) == Region(front + target, [], {}, total)
  {
    MaskedAll(target, stored);
  }

  // ------------------------------------------------------------------ slices

  function Start(header: nat, stride: nat, c: nat): nat { header + c * stride }

  /** A chunk lies before the next one. */
  lemma StartsApart(header: nat, stride: nat, c: nat, d: nat)
    requires c < d
    ensures Start(header, stride, c) + stride <= Start(header, stride, d)
  {
    assert (d - c) * stride >= stride by {
      if d - c >= 2 {
        assert (d - c) * stride == stride + (d - c - 1) * stride;
      }
    }
    assert d * stride == c * stride + (d - c) * stride;
  }

  /** `bytes` sits in the image at `offset`. */
  predicate Holds(image: seq<byte>, offset: nat, bytes: seq<byte>) {
    offset + |bytes| <= |image| && image[offset..offset + |bytes|] == bytes
  }

  lemma HoldsSplit(image: seq<byte>, offset: nat, a: seq<byte>, b: seq<byte>)
    ensures Holds(image, offset, a + b) <==> Holds(image, offset, a) && Holds(image, offset + |a|, b)
  {
    if offset + |a| + |b| <= |image| {
      var s := image[offset..offset + |a + b|];
      assert s[..|a|] == image[offset..offset + |a|];
      assert s[|a|..] == image[offset + |a|..offset + |a| + |b|];
      assert s == s[..|a|] + s[|a|..];
      assert (a + b)[..|a|] == a && (a + b)[|a|..] == b;
    }
  }

  lemma OverwriteElsewhere(mem: seq<byte>, o: nat, bytes: seq<byte>, p: nat, slice: seq<byte>)
    requires o + |bytes| <= |mem| && Holds(mem, p, slice)
    requires p + |slice| <= o || o + |bytes| <= p
    ensures Holds(Overwrite(mem, o, bytes), p, slice)
  {
    var mem' := Overwrite(mem, o, bytes);
    assert mem'[p..p + |slice|] == mem[p..p + |slice|];
  }

  lemma OverwriteInside(mem: seq<byte>, p: nat, slice: seq<byte>, o: nat, bytes: seq<byte>)
    requires Holds(mem, p, slice) && o + |bytes| <= |slice|
    ensures Holds(Overwrite(mem, p + o, bytes), p, Overwrite(slice, o, bytes))
  {
    var mem' := Overwrite(mem, p + o, bytes);
    forall i | 0 <= i < |slice|
      ensures mem'[p..p + |slice|][i] == Overwrite(slice, o, bytes)[i]
    {
      assert mem[p + i] == mem[p..p + |slice|][i] == slice[i];
    }
  }

  /** Equal-sized slices one after another from `header`, then only zeros. */
  ghost predicate Tiled(mem: seq<byte>, header: nat, stride: nat, slices: seq<seq<byte>>) {
    && (forall i :: 0 <= i < |slices| ==> |slices[i]| == stride && Holds(mem, Start(header, stride, i), slices[i]))
    && (forall o :: Start(header, stride, |slices|) <= o < |mem| ==> mem[o] == 0)
  }

  /** A store inside one slice changes that slice and nothing else. */
  lemma TiledStore(mem: seq<byte>, header: nat, stride: nat, slices: seq<seq<byte>>, c: nat, k: nat, bytes: seq<byte>)
    requires Tiled(mem, header, stride, slices) && c < |slices| && k + |bytes| <= stride
    ensures Start(header, stride, c) + k + |bytes| <= |mem|
    ensures |slices[c]| == stride
    ensures Tiled(Overwrite(mem, Start(header, stride, c) + k, bytes), header, stride,
                  slices[c := Overwrite(slices[c], k, bytes)])
  {
    var at := Start(header, stride, c);
    assert Holds(mem, at, slices[c]);
    var mem', slices' := Overwrite(mem, at + k, bytes), slices[c := Overwrite(slices[c], k, bytes)];
    forall i | 0 <= i < |slices|
      ensures |slices'[i]| == stride && Holds(mem', Start(header, stride, i), slices'[i])
    {
      if i < c {
        StartsApart(header, stride, i, c);
        OverwriteElsewhere(mem, at + k, bytes, Start(header, stride, i), slices[i]);
      } else if i > c {
        StartsApart(header, stride, c, i);
        OverwriteElsewhere(mem, at + k, bytes, Start(header, stride, i), slices[i]);
      } else {
        OverwriteInside(mem, at, slices[c], k, bytes);
      }
    }
    StartsApart(header, stride, c, |slices|);
  }

  /** The next slice starts out zero. */
  lemma TiledGrow(mem: seq<byte>, header: nat, stride: nat, slices: seq<seq<byte>>)
    requires Tiled(mem, header, stride, slices) && Start(header, stride, |slices| + 1) <= |mem|
    ensures Tiled(mem, header, stride, slices + [Zeros(stride)])
  {
    var n := |slices|;
    StartsApart(header, stride, n, n + 1);
    var at := Start(header, stride, n);
    assert Start(header, stride, n + 1) == at + stride;
    assert mem[at..at + stride] == Zeros(stride);
  }

  /** A store before the first slice changes none. */
  lemma TiledBefore(mem: seq<byte>, header: nat, stride: nat, slices: seq<seq<byte>>, o: nat, bytes: seq<byte>)
    requires Tiled(mem, header, stride, slices) && o + |bytes| <= header <= |mem|
    ensures Tiled(Overwrite(mem, o, bytes), header, stride, slices)
  {
    forall i | 0 <= i < |slices|
      ensures Holds(Overwrite(mem, o, bytes), Start(header, stride, i), slices[i])
    {
      OverwriteElsewhere(mem, o, bytes, Start(header, stride, i), slices[i]);
    }
  }

  /** A fixed prefix, then the slices. */
  ghost predicate Framed(mem: seq<byte>, prefix: seq<byte>, header: nat, stride: nat, slices: seq<seq<byte>>) {
    |prefix| <= header <= |mem| && Holds(mem, 0, prefix) && Tiled(mem, header, stride, slices)
  }

  lemma FramedStore(mem: seq<byte>, prefix: seq<byte>, header: nat, stride: nat, slices: seq<seq<byte>>,
                    c: nat, k: nat, bytes: seq<byte>)
    requires Framed(mem, prefix, header, stride, slices) && c < |slices| && k + |bytes| <= stride
    ensures Start(header, stride, c) + k + |bytes| <= |mem|
    ensures |slices[c]| == stride
    ensures Framed(Overwrite(mem, Start(header, stride, c) + k, bytes), prefix, header, stride,
                   slices[c := Overwrite(slices[c], k, bytes)])
  {
    hide Tiled, Overwrite, Holds;
    var at := Start(header, stride, c) + k;
    TiledStore(mem, header, stride, slices, c, k, bytes);
    PrefixKept(mem, prefix, at, bytes);
    Frame(Overwrite(mem, at, bytes), prefix, header, stride, slices[c := Overwrite(slices[c], k, bytes)]);
  }

  lemma Frame(mem: seq<byte>, prefix: seq<byte>, header: nat, stride: nat, slices: seq<seq<byte>>)
    requires |prefix| <= header <= |mem| && Holds(mem, 0, prefix) && Tiled(mem, header, stride, slices)
    ensures Framed(mem, prefix, header, stride, slices)
  {}

  lemma PrefixKept(mem: seq<byte>, prefix: seq<byte>, o: nat, bytes: seq<byte>)
    requires |prefix| <= o && o + |bytes| <= |mem| && Holds(mem, 0, prefix)
    ensures Holds(Overwrite(mem, o, bytes), 0, prefix)
  {
    OverwriteElsewhere(mem, o, bytes, 0, prefix);
  }

  /** A store between the prefix and the slices, as the claim cursor's is. */
  lemma FramedBetween(mem: seq<byte>, prefix: seq<byte>, header: nat, stride: nat, slices: seq<seq<byte>>,
                      o: nat, bytes: seq<byte>)
    requires Framed(mem, prefix, header, stride, slices) && |prefix| <= o && o + |bytes| <= header
    ensures Framed(Overwrite(mem, o, bytes), prefix, header, stride, slices)
  {
    TiledBefore(mem, header, stride, slices, o, bytes);
    PrefixKept(mem, prefix, o, bytes);
  }

  lemma FramedGrow(mem: seq<byte>, prefix: seq<byte>, header: nat, stride: nat, slices: seq<seq<byte>>, slice: seq<byte>)
    requires Framed(mem, prefix, header, stride, slices) && Start(header, stride, |slices| + 1) <= |mem|
    requires slice == Zeros(stride)
    ensures Framed(mem, prefix, header, stride, slices + [slice])
  {
    TiledGrow(mem, header, stride, slices);
  }
}
