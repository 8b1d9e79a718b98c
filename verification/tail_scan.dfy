/** How large a hidden volume may be (spike/spike3b_hidden.cpp:102-148,
    262-272): the free clusters at the end of the outer volume, found by
    scanning its bitmap chunk by chunk, less what is kept in reserve. */
module TailScan {
  import opened Wrappers

  // -- The longest free end ----------------------------------------------------------------------------

  /** A cluster is `true` when it is in use. */
  predicate FreeEnd(bitmap: seq<bool>, n: nat) {
    n <= |bitmap| && forall i :: |bitmap| - n <= i < |bitmap| ==> !bitmap[i]
  }

  function FreeSuffix(bitmap: seq<bool>): (n: nat)
    ensures FreeEnd(bitmap, n)
  {
    if bitmap == [] || bitmap[|bitmap| - 1] then 0
    else 1 + FreeSuffix(bitmap[..|bitmap| - 1])
  }

  /** No longer end is free. */
  lemma {:induction false} FreeSuffixIsLongest(bitmap: seq<bool>, n: nat)
    requires FreeEnd(bitmap, n)
    ensures n <= FreeSuffix(bitmap)
  {
    if n > 0 {
      assert !bitmap[|bitmap| - 1];
      FreeSuffixIsLongest(bitmap[..|bitmap| - 1], n - 1);
    }
  }

  // -- The volume's bitmap -------------------------------------------------------------------------------

  function BitSet(b: bv8, i: nat): bool
    requires i < 8
  {
    (b >> i) & 1 == 1
  }

  /** One answer of the volume: whole bytes from the place asked for, and how
      many clusters there are from there to the end. */
  datatype Chunk = Chunk(start: nat, remaining: nat, bytes: seq<bv8>)

  /** The bytes say what the bitmap says, as far as both go. */
  ghost predicate Shows(c: Chunk, bitmap: seq<bool>) {
    && c.start + c.remaining == |bitmap|
    && forall i :: 0 <= i < c.remaining && i / 8 < |c.bytes| ==> BitSet(c.bytes[i / 8], i % 8) == bitmap[c.start + i]
  }

  lemma ByteOfBit(start: nat, i: nat)
    requires start % 8 == 0
    ensures (start + i) / 8 == start / 8 + i / 8 && (start + i) % 8 == i % 8
  {
  }

  class Volume {
    ghost const bitmap: seq<bool>
    const bytes: seq<bv8>
    const clusters: nat

    constructor (bytes: seq<bv8>, clusters: nat)
      requires clusters <= 8 * |bytes|
      ensures |bitmap| == clusters
      ensures forall i :: 0 <= i < clusters ==> bitmap[i] == BitSet(bytes[i / 8], i % 8)
      ensures this.bytes == bytes && this.clusters == clusters
    {
      this.bytes, this.clusters := bytes, clusters;
      bitmap := seq(clusters, i requires 0 <= i < clusters => BitSet(bytes[i / 8], i % 8));
    }

    ghost predicate Valid() {
      && |bitmap| == clusters <= 8 * |bytes|
      && forall i :: 0 <= i < clusters ==> bitmap[i] == BitSet(bytes[i / 8], i % 8)
    }

    /** Fails, or answers with at least one byte and any number of further ones;
        `more` says that the bytes do not reach the end. */
    method ReadBitmap(start: nat) returns (r: Option<Chunk>, more: bool)
      requires Valid() && start <= clusters && start % 8 == 0
      ensures r.Some? ==>
        && r.value.start == start && Shows(r.value, bitmap)
        && (more <==> 8 * |r.value.bytes| < r.value.remaining)
        && (more ==> r.value.bytes != [])
    {
      if * {
        return None, false;
      }
      var first := start / 8;
      var size: int := *;
      var last := if size <= 0 then first + 1 else first + size;
      last := if last > |bytes| then |bytes| else last;
      var c := Chunk(start, clusters - start, bytes[first..last]);
      forall i | 0 <= i < c.remaining && i / 8 < |c.bytes| ensures BitSet(c.bytes[i / 8], i % 8) == bitmap[start + i] {
        ByteOfBit(start, i);
      }
      return Some(c), 8 * |c.bytes| < c.remaining;
    }
  }

  /** The number of free clusters at the end, whatever pieces the bitmap comes
      in. A failed answer is never replaced by a guess. */
  method ScanTailFreeClusters(v: Volume) returns (tail: Option<nat>)
    requires v.Valid()
    ensures tail.Some? ==> tail.value == FreeSuffix(v.bitmap)
  {
    var free, start, more := 0, 0, true;
    while more
      invariant start <= v.clusters && (more ==> start % 8 == 0)
      invariant free == FreeSuffix(v.bitmap[..start])
      invariant !more ==> start == v.clusters
      decreases v.clusters - start, more
    {
      var ok;
      ok, free, start, more := ScanNext(v, free, start);
      if !ok {
        return None;
      }
    }
    assert v.bitmap[..start] == v.bitmap;
    return Some(free);
  }

  /** A chunk that does not reach the end stops at a whole byte. */
  lemma ChunkEnds(start: nat, clusters: nat, n: nat)
    requires start % 8 == 0 && start + 8 * n < clusters
    ensures (start + 8 * n) % 8 == 0
  {
  }

  /** One answer of the volume, counted through. */
  method ScanNext(v: Volume, before: nat, start: nat) returns (ok: bool, free: nat, next: nat, more: bool)
    requires v.Valid() && start <= v.clusters && start % 8 == 0
    requires before == FreeSuffix(v.bitmap[..start])
    ensures ok ==>
      && start <= next <= v.clusters && free == FreeSuffix(v.bitmap[..next])
      && (if more then start < next && next % 8 == 0 else next == v.clusters)
  {
    var answer;
    answer, more := v.ReadBitmap(start);
    if answer.None? {
      return false, 0, 0, false;
    }
    var c := answer.value;
    var bits := if c.remaining < 8 * |c.bytes| then c.remaining else 8 * |c.bytes|;
    if more {
      ChunkEnds(start, v.clusters, |c.bytes|);
    }
    free := ScanChunk(c, bits, before, v.bitmap);
    return true, free, c.start + bits, more;
  }

  method ScanChunk(c: Chunk, bits: nat, before: nat, ghost bitmap: seq<bool>) returns (free: nat)
    requires Shows(c, bitmap) && bits <= c.remaining && bits <= 8 * |c.bytes|
    requires before == FreeSuffix(bitmap[..c.start])
    ensures free == FreeSuffix(bitmap[..c.start + bits])
  {
    free := before;
    for i := 0 to bits
      invariant free == FreeSuffix(bitmap[..c.start + i])
    {
      assert bitmap[..c.start + i + 1][..c.start + i] == bitmap[..c.start + i];
      assert i / 8 < |c.bytes|;
      if BitSet(c.bytes[i / 8], i % 8) {
        free := 0;
      } else {
        free := free + 1;
      }
    }
  }

  // -- The size that fits --------------------------------------------------------------------------------

  const END_AREA := 4096
  const RESERVE_CAP := 10 * 1024 * 1024

  function Reserve(host: nat): nat {
    if host / 200 > RESERVE_CAP then RESERVE_CAP else host / 200
  }

  /** Whether a hidden volume of this size leaves the end area and the reserve. */
  predicate Fits(size: nat, tailBytes: nat, host: nat) {
    size + END_AREA + Reserve(host) <= tailBytes
  }

  /** The largest whole number of clusters that fits; too small a tail is
      refused. */
  function HiddenSize(tailBytes: nat, host: nat, cluster: nat): (r: Option<nat>)
    requires cluster > 0
    ensures r.Some? <==> END_AREA + Reserve(host) < tailBytes
    ensures r.Some? ==> r.value % cluster == 0 && Fits(r.value, tailBytes, host)
    ensures r.Some? ==> forall n: nat :: Fits(n * cluster, tailBytes, host) ==> n * cluster <= r.value
  {
    var most := tailBytes - END_AREA - Reserve(host);
    if most <= 0 then None
    else
      RoundedDown(most, cluster);
      Some(most - most % cluster)
  }

  lemma RoundedDown(most: nat, cluster: nat)
    requires cluster > 0
    ensures (most - most % cluster) % cluster == 0
    ensures forall n: nat :: n * cluster <= most ==> n * cluster <= most - most % cluster
  {
    var q := most / cluster;
    assert most == q * cluster + most % cluster;
    MultipleOf(q, cluster);
    forall n: nat | n * cluster <= most ensures n * cluster <= q * cluster {
      if n > q {
        assert n * cluster >= (q + 1) * cluster by {
          Grows(q + 1, n, cluster);
        }
      } else {
        Grows(n, q, cluster);
      }
    }
  }

  lemma Grows(a: nat, b: nat, c: nat)
    requires a <= b
    ensures a * c <= b * c
  {
  }

  lemma MultipleOf(q: nat, c: nat)
    requires c > 0
    ensures (q * c) % c == 0
  {
    var d, r := (q * c) / c, (q * c) % c;
    assert q * c == d * c + r;
    if d < q {
      Grows(d + 1, q, c);
    } else {
      Grows(q, d, c);
    }
  }

  /** An accepted size is a volume at all exactly when a whole cluster fits: a
      tail just above the limit is accepted with size zero. */
  lemma AcceptedSizeMayBeZero(tailBytes: nat, host: nat, cluster: nat)
    requires cluster > 0 && HiddenSize(tailBytes, host, cluster).Some?
    ensures HiddenSize(tailBytes, host, cluster).value > 0 <==> Fits(cluster, tailBytes, host)
  {
  }

  lemma ZeroSizeAccepted()
    ensures HiddenSize(16 * 4096, 200 * 60000, 4096) == Some(0)
  {
  }

  /** The whole step: scan, then size. */
  method MaximumHiddenVolume(v: Volume, host: nat, cluster: nat) returns (size: Option<nat>)
    requires v.Valid() && cluster > 0
    ensures size.Some? ==>
      var tailBytes := FreeSuffix(v.bitmap) * cluster;
      && size.value % cluster == 0 && Fits(size.value, tailBytes, host)
      && forall n: nat :: Fits(n * cluster, tailBytes, host) ==> n * cluster <= size.value
  {
    var tail := ScanTailFreeClusters(v);
    if tail.None? {
      return None;
    }
    size := HiddenSize(tail.value * cluster, host, cluster);
  }
}
