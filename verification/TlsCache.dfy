/** The 16-entry move-to-front cache of one thread (ncrit_trie::tls_cache_t). */
module TlsCache {

  const CACHE_SIZE: nat := 16

  /** One cached range. `leaf` identifies the trie slot that vouches for it. */
  datatype Entry<K> = Vacant | Used(base: nat, end: nat, seg: nat, leaf: K)

  predicate Covers<K>(e: Entry<K>, addr: nat) {
    e.Used? && e.base <= addr < e.end
  }

  /** Index of the first entry at or after i that covers the address; the length if none does. */
  function FirstCover<K>(es: seq<Entry<K>>, addr: nat, i: nat): (j: nat)
    requires i <= |es|
    ensures i <= j <= |es|
    ensures forall k :: i <= k < j ==> !Covers(es[k], addr)
    ensures j < |es| ==> Covers(es[j], addr)
    decreases |es| - i
  {
    if i == |es| || Covers(es[i], addr) then i else FirstCover(es, addr, i + 1)
  }

  function MoveToFront<K>(es: seq<Entry<K>>, i: nat): seq<Entry<K>>
    requires i < |es|
  {
    [es[i]] + es[..i] + es[i + 1..]
  }

  function Evict<K>(es: seq<Entry<K>>, i: nat): seq<Entry<K>>
    requires i < |es|
  {
    es[..i] + es[i + 1..] + [Vacant]
  }

  function Push<K>(es: seq<Entry<K>>, e: Entry<K>): seq<Entry<K>>
    requires |es| > 0
  {
    [e] + es[..|es| - 1]
  }

  /** Gives the top entry the bounds of the whole segment, if it belongs to that segment. */
  function Widen<K>(es: seq<Entry<K>>, base: nat, size: nat, seg: nat): seq<Entry<K>>
    requires |es| > 0
  {
    if es[0].Used? && es[0].seg == seg then es[0 := es[0].(base := base, end := base + size)] else es
  }

  function AllVacant<K>(): seq<Entry<K>> {
    seq(CACHE_SIZE, _ => Vacant)
  }

  /** The array, changed in place by shifting loops. */
  class Cache<K(==)> {
    const entries: array<Entry<K>>

    ghost predicate Valid() {
      entries.Length == CACHE_SIZE
    }

    constructor ()
      ensures Valid() && fresh(entries) && entries[..] == AllVacant()
    {
      entries := new Entry<K>[CACHE_SIZE](_ => Vacant);
    }

    /** The scan of lookup_impl: the first covering entry, or the size. */
    method FindCovering(addr: nat) returns (i: nat)
      requires Valid()
      ensures i == FirstCover(entries[..], addr, 0)
    {
      i := 0;
      while i < CACHE_SIZE && !Covers(entries[i], addr)
        invariant i <= CACHE_SIZE
        invariant FirstCover(entries[..], addr, 0) == FirstCover(entries[..], addr, i)
      {
        i := i + 1;
      }
    }

    /** Shifts the entries before i down by one and puts entry i on top. */
    method ToFront(i: nat)
      requires Valid() && i < CACHE_SIZE
      modifies entries
      ensures entries[..] == MoveToFront(old(entries[..]), i)
    {
      var temp := entries[i];
      var j := i;
      while j > 0
        invariant j <= i
        invariant forall k :: 0 <= k <= j ==> entries[k] == old(entries[k])
        invariant forall k :: j < k <= i ==> entries[k] == old(entries[k - 1])
        invariant forall k :: i < k < CACHE_SIZE ==> entries[k] == old(entries[k])
      {
        entries[j] := entries[j - 1];
        j := j - 1;
      }
      entries[0] := temp;
    }

    /** Shifts the entries after i up by one and empties the last. */
    method Drop(i: nat)
      requires Valid() && i < CACHE_SIZE
      modifies entries
      ensures entries[..] == Evict(old(entries[..]), i)
    {
      var j := i;
      while j < CACHE_SIZE - 1
        invariant i <= j <= CACHE_SIZE - 1
        invariant forall k :: 0 <= k < i ==> entries[k] == old(entries[k])
        invariant forall k :: i <= k < j ==> entries[k] == old(entries[k + 1])
        invariant forall k :: j <= k < CACHE_SIZE ==> entries[k] == old(entries[k])
      {
        entries[j] := entries[j + 1];
        j := j + 1;
      }
      entries[CACHE_SIZE - 1] := Vacant;
    }

    /** Shifts everything down by one and stores the new entry on top. */
    method Insert(e: Entry<K>)
      requires Valid()
      modifies entries
      ensures entries[..] == Push(old(entries[..]), e)
    {
      var i := CACHE_SIZE - 1;
      while i > 0
        invariant 0 <= i < CACHE_SIZE
        invariant forall k :: 0 <= k <= i ==> entries[k] == old(entries[k])
        invariant forall k :: i < k < CACHE_SIZE ==> entries[k] == old(entries[k - 1])
      {
        entries[i] := entries[i - 1];
        i := i - 1;
      }
      entries[0] := e;
    }

    method Invalidate()
      requires Valid()
      modifies entries
      ensures entries[..] == AllVacant()
    {
      for i := 0 to CACHE_SIZE
        invariant forall k :: 0 <= k < i ==> entries[k] == Vacant
      {
        entries[i] := Vacant;
      }
    }

    method ExpandTop(base: nat, size: nat, seg: nat)
      requires Valid()
      modifies entries
      ensures entries[..] == Widen(old(entries[..]), base, size, seg)
    {
      if entries[0].Used? && entries[0].seg == seg {
        entries[0] := entries[0].(base := base, end := base + size);
      }
    }
  }

  // ---- the order of the entries ----

  /** What lookups do to the order: an entry is used again, evicted, or comes in new. */
  datatype Change<K> = Touch(i: nat) | Remove(i: nat) | Add(e: Entry<K>)

  predicate ChangeOk<K>(es: seq<Entry<K>>, op: Change<K>) {
    if op.Add? then es != [] else op.i < |es|
  }

  function Apply<K>(es: seq<Entry<K>>, op: Change<K>): seq<Entry<K>>
    requires ChangeOk(es, op)
  {
    match op
    case Touch(i) => MoveToFront(es, i)
    case Remove(i) => Evict(es, i)
    case Add(e) => Push(es, e)
  }

  /** Where entry p of n is afterwards; n or more when it is gone. */
  function PlaceAfter<K>(n: nat, op: Change<K>, p: nat): nat {
    match op
    case Touch(i) => if p == i then 0 else if p < i then p + 1 else p
    case Remove(i) => if p == i then n else if p > i then p - 1 else p
    case Add(_) => p + 1
  }

  /** Every entry is where it should be: a used or new entry on top, all others in their old order. */
  lemma PlaceKept<K>(es: seq<Entry<K>>, op: Change<K>, p: nat)
    requires ChangeOk(es, op) && p < |es|
    ensures var es', q := Apply(es, op), PlaceAfter(|es|, op, p);
            |es'| == |es| && (q < |es| ==> es'[q] == es[p]) && (op.Add? ==> es'[0] == op.e)
  {
  }

  /** Cache contents along a series of such changes. */
  ghost predicate IsSeries<K>(states: seq<seq<Entry<K>>>, ops: seq<Change<K>>) {
    && |states| == |ops| + 1
    && forall i :: 0 <= i < |ops| ==> ChangeOk(states[i], ops[i]) && states[i + 1] == Apply(states[i], ops[i])
  }

  /** Where the entry at place p is after n changes. */
  function PlaceIn<K>(size: nat, ops: seq<Change<K>>, p: nat, n: nat): nat
    requires n <= |ops|
  {
    if n == 0 then p else PlaceAfter(size, ops[n - 1], PlaceIn(size, ops, p, n - 1))
  }

  /** Least recently used goes first: an entry on top is still cached after fewer than |cache| further changes, and no
      further back than their number, unless it is itself evicted as stale. */
  lemma {:induction false} RecentStays<K>(states: seq<seq<Entry<K>>>, ops: seq<Change<K>>, n: nat)
    requires IsSeries(states, ops) && n <= |ops| && n < |states[0]|
    requires forall j :: 0 <= j < n ==> ops[j] != Remove(PlaceIn(|states[0]|, ops, 0, j))
    ensures |states[n]| == |states[0]|
    ensures PlaceIn(|states[0]|, ops, 0, n) <= n && states[n][PlaceIn(|states[0]|, ops, 0, n)] == states[0][0]
  {
    if n > 0 {
      RecentStays(states, ops, n - 1);
      PlaceKept(states[n - 1], ops[n - 1], PlaceIn(|states[0]|, ops, 0, n - 1));
    }
  }
}
