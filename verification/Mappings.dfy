/** Where one process has its chunks mapped. */
module Mappings {
  import opened DivMod
  import opened Platform
  import opened Chunks

  /** The process-local segment list: chunk i is mapped at bases[i]. */
  datatype Proc = Proc(chunks: seq<Chunk>, bases: seq<nat>)

  predicate RangesApart(b: nat, n: nat, c: nat, m: nat) {
    b + n <= c || c + m <= b
  }

  /** What mmap guarantees of a new range: page-aligned, inside the address space, clear of the
      process's other mappings. An empty range cannot be mapped. */
  predicate CanMap(p: Proc, base: nat, size: nat) {
    && base > 0 && Rem(base, PAGE_SIZE) == 0 && size > 0 && base + size <= ADDRESS_SPACE
    && |p.bases| == |p.chunks|
    && forall i :: 0 <= i < |p.bases| ==> RangesApart(p.bases[i], p.chunks[i].size, base, size)
  }

  ghost predicate Placed(p: Proc) {
    && |p.bases| == |p.chunks|
    && (forall i :: 0 <= i < |p.bases| ==>
          p.bases[i] > 0 && Rem(p.bases[i], PAGE_SIZE) == 0 && p.bases[i] + p.chunks[i].size <= ADDRESS_SPACE)
    && (forall i, j :: 0 <= i < j < |p.bases| ==>
          RangesApart(p.bases[i], p.chunks[i].size, p.bases[j], p.chunks[j].size))
  }

  function WithChunk(p: Proc, c: Chunk, base: nat): Proc {
    Proc(p.chunks + [c], p.bases + [base])
  }

  /** Later in the same process: more chunks, none moved. */
  predicate ProcGrows(p: Proc, q: Proc) {
    p.chunks <= q.chunks && p.bases <= q.bases
  }

  lemma PlacedAppend(p: Proc, c: Chunk, base: nat)
    requires Placed(p) && CanMap(p, base, c.size)
    ensures Placed(WithChunk(p, c, base))
  {
  }

  // ---- disjoint ranges cannot add up to more than the space they lie in ----

  ghost function Bytes(base: nat, size: nat): (r: set<nat>)
    ensures forall a :: a in r <==> base <= a < base + size
  {
    if size == 0 then {} else Bytes(base, size - 1) + {base + size - 1}
  }

  lemma {:induction false} BytesCount(base: nat, size: nat)
    ensures |Bytes(base, size)| == size
  {
    if size > 0 {
      BytesCount(base, size - 1);
    }
  }

  ghost function AllBytes(p: Proc, n: nat): set<nat>
    requires n <= |p.bases| == |p.chunks|
  {
    if n == 0 then {} else AllBytes(p, n - 1) + Bytes(p.bases[n - 1], p.chunks[n - 1].size)
  }

  lemma {:induction false} AllBytesMember(p: Proc, n: nat, a: nat)
    requires n <= |p.bases| == |p.chunks|
    ensures a in AllBytes(p, n) ==> exists i :: 0 <= i < n && p.bases[i] <= a < p.bases[i] + p.chunks[i].size
  {
    if n > 0 {
      AllBytesMember(p, n - 1, a);
    }
  }

  lemma LastApart(p: Proc, n: nat)
    requires Placed(p) && 0 < n <= |p.bases|
    ensures AllBytes(p, n - 1) !! Bytes(p.bases[n - 1], p.chunks[n - 1].size)
  {
    var all, last := AllBytes(p, n - 1), Bytes(p.bases[n - 1], p.chunks[n - 1].size);
    forall a | a in all ensures a !in last {
      AllBytesMember(p, n - 1, a);
    }
  }

  lemma {:induction false} AllBytesCount(p: Proc, n: nat)
    requires Placed(p) && n <= |p.bases|
    ensures |AllBytes(p, n)| == TotalSize(p.chunks[..n])
  {
    if n > 0 {
      AllBytesCount(p, n - 1);
      BytesCount(p.bases[n - 1], p.chunks[n - 1].size);
      LastApart(p, n);
      DisjointUnionSize(AllBytes(p, n - 1), Bytes(p.bases[n - 1], p.chunks[n - 1].size));
      assert p.chunks[..n][..n - 1] == p.chunks[..n - 1];
    }
  }

  lemma DisjointUnionSize<T>(a: set<T>, b: set<T>)
    requires a !! b
    ensures |a + b| == |a| + |b|
  {
  }

  lemma SubsetSize<T>(a: set<T>, b: set<T>)
    requires a <= b
    ensures |a| <= |b|
  {
    assert b == a + (b - a);
  }

  lemma TotalWithin(p: Proc, space: nat)
    requires Placed(p)
    requires forall i :: 0 <= i < |p.bases| ==> p.bases[i] + p.chunks[i].size <= space
    ensures TotalSize(p.chunks) <= space
  {
    var n := |p.bases|;
    AllBytesCount(p, n);
    BytesCount(0, space);
    var all, whole := AllBytes(p, n), Bytes(0, space);
    forall a | a in all ensures a in whole {
      AllBytesMember(p, n, a);
    }
    SubsetSize(AllBytes(p, n), Bytes(0, space));
    assert p.chunks[..n] == p.chunks;
  }

  /** Pairwise disjoint mappings add up to at most the address space. */
  lemma TotalFits(p: Proc)
    requires Placed(p)
    ensures TotalSize(p.chunks) <= ADDRESS_SPACE
  {
    TotalWithin(p, ADDRESS_SPACE);
  }
}
