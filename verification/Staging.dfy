/** Pinned staging buffers by power-of-two capacity, and the work descriptors that point into them. */
module Staging {
  import opened Basics

  /** Python's int.bit_length, which ignores the sign. */
  function BitLength(n: int): nat
    decreases if n < 0 then -n else n
  {
    var m := if n < 0 then -n else n;
    if m == 0 then 0 else 1 + BitLength(m / 2)
  }

  lemma {:induction false} BitLengthExact(n: nat)
    ensures n < Pow2(BitLength(n))
    ensures n > 0 ==> 2 * n >= Pow2(BitLength(n))
    decreases n
  {
    if n > 1 { BitLengthExact(n / 2); }
  }

  /** 1 << max(0, (count - 1).bit_length()) */
  function Capacity(count: int): nat { Pow2(BitLength(count - 1)) }

  predicate PowerOfTwo(c: nat) { c >= 1 && Pow2(BitLength(c - 1)) == c }

  lemma {:induction false} Powers(k: nat)
    ensures BitLength(Pow2(k) - 1) == k
  {
    if k > 0 {
      Powers(k - 1);
      assert (Pow2(k) - 1) / 2 == Pow2(k - 1) - 1;
    }
  }

  /** The capacity is the smallest power of two that holds the count; an empty batch gets two slots. */
  lemma CapacityExact(count: nat)
    ensures PowerOfTwo(Capacity(count)) && Capacity(count) >= count
    ensures count >= 1 ==> forall k: nat :: Pow2(k) >= count ==> Pow2(k) >= Capacity(count)
    ensures count >= 2 ==> Capacity(count) < 2 * count
    ensures count == 0 ==> Capacity(count) == 2
  {
    Powers(BitLength(count - 1));
    if count >= 1 {
      BitLengthExact(count - 1);
      forall k: nat | Pow2(k) >= count
        ensures Pow2(k) >= Capacity(count)
      {
        if Pow2(k) < Capacity(count) { PowOrder(k, BitLength(count - 1)); }
      }
    } else {
      assert BitLength(1) == 1 + BitLength(0);
    }
  }

  lemma {:induction false} PowOrder(k: nat, b: nat)
    requires Pow2(k) < Pow2(b)
    ensures 2 * Pow2(k) <= Pow2(b)
  {
    if k == 0 || b == 0 {
    } else {
      PowOrder(k - 1, b - 1);
    }
  }

  /** An allocated staging set: an identity and its number of rows. */
  datatype Buffers = Buffers(id: nat, rows: nat)

  /** The descriptor a graph replays: where the staging is, and the count the callback is given. */
  datatype Work = Work(buffers: Buffers, count: nat)

  type Key = (int, nat)

  /** Every staging set has its key's capacity and an identity of its own. */
  ghost predicate Distinct(staging: map<Key, Buffers>, allocations: nat) {
    && (forall k :: k in staging ==> staging[k].rows == k.1 && staging[k].id < allocations)
    && forall j, k :: j in staging && k in staging && staging[j].id == staging[k].id ==> j == k
  }

  /** The work for (device, count) points into the one staging set of its capacity, which holds its count. */
  predicate Serves(staging: map<Key, Buffers>, k: Key, w: Work) {
    && w.count == k.1 && (k.0, Capacity(k.1)) in staging
    && w.buffers == staging[(k.0, Capacity(k.1))] && w.buffers.rows >= k.1
  }

  ghost predicate AllServed(staging: map<Key, Buffers>, works: map<Key, Work>) {
    forall k :: k in works ==> Serves(staging, k, works[k])
  }

  /** Allocating one more set disturbs nothing. */
  lemma AllocationKeeps(staging: map<Key, Buffers>, works: map<Key, Work>, allocations: nat, key: Key)
    requires Distinct(staging, allocations) && AllServed(staging, works) && key !in staging
    ensures Distinct(staging[key := Buffers(allocations, key.1)], allocations + 1)
    ensures AllServed(staging[key := Buffers(allocations, key.1)], works)
  {
    hide Capacity;
    forall k | k in works
      ensures Serves(staging[key := Buffers(allocations, key.1)], k, works[k])
    {
      assert Serves(staging, k, works[k]);
    }
  }

  /** The engram table's two caches, keyed by device and capacity, and by device and count. */
  class SsdEngramTable {
    const localHeads: nat
    const maxTokens: nat
    var staging: map<Key, Buffers>
    var works: map<Key, Work>
    var allocations: nat

    ghost predicate Valid()
      reads this
    {
      Distinct(staging, allocations) && AllServed(staging, works)
    }

    constructor (localHeads: nat, maxTokens: nat)
      ensures Valid() && staging == map[] && works == map[]
      ensures this.localHeads == localHeads && this.maxTokens == maxTokens
    {
      this.localHeads, this.maxTokens := localHeads, maxTokens;
      staging, works, allocations := map[], map[], 0;
    }

    method Allocate(key: Key)
      requires Valid() && key !in staging
      modifies this`staging, this`allocations
      ensures Valid() && staging == old(staging)[key := Buffers(old(allocations), key.1)]
    {
      AllocationKeeps(staging, works, allocations, key);
      hide Distinct, AllServed;
      staging := staging[key := Buffers(allocations, key.1)];
      allocations := allocations + 1;
    }

    /** Allocates at most once per key; None is the error of allocating during graph capture. */
    method StagingFor(device: int, count: nat, capturing: bool) returns (b: Option<Buffers>)
      requires Valid()
      modifies this`staging, this`allocations
      ensures Valid()
      ensures forall k :: k in old(staging) ==> k in staging && staging[k] == old(staging[k])
      ensures forall k :: k in staging ==> k in old(staging) || (k == (device, Capacity(count)) && !capturing)
      ensures b.None? <==> capturing && (device, Capacity(count)) !in old(staging)
      ensures b.Some? ==> (device, Capacity(count)) in staging && b.value == staging[(device, Capacity(count))]
      ensures b.Some? ==> b.value.rows >= count
    {
      CapacityExact(count);
      hide Capacity, BitLength, Pow2;
      var key := (device, Capacity(count));
      if key !in staging {
        if capturing { return None; }
        Allocate(key);
      }
      b := Some(staging[key]);
    }

    /** Allocates every capacity up to twice the largest row count. */
    method Warmup(device: int, tokens: nat)
      requires Valid()
      modifies this`staging, this`allocations
      ensures Valid()
      ensures forall k :: k in old(staging) ==> k in staging && staging[k] == old(staging[k])
      ensures forall count: nat ::
                1 <= count <= (if tokens == 0 then maxTokens else tokens) * localHeads ==>
                  (device, Capacity(count)) in staging
    {
      WarmTo(device, (if tokens == 0 then maxTokens else tokens) * localHeads);
    }

    method WarmTo(device: int, maxRows: nat)
      requires Valid()
      modifies this`staging, this`allocations
      ensures Valid()
      ensures forall k :: k in old(staging) ==> k in staging && staging[k] == old(staging[k])
      ensures forall count: nat :: 1 <= count <= maxRows ==> (device, Capacity(count)) in staging
    {
      hide Capacity, BitLength, Valid;
      var c: nat := 1;
      ghost var k := 0;
      while c <= maxRows * 2
        invariant Valid() && c == Pow2(k)
        invariant forall x :: x in old(staging) ==> x in staging && staging[x] == old(staging[x])
        invariant forall b :: 0 <= b < k ==> (device, Pow2(b)) in staging
        decreases maxRows * 2 + 1 - c
      {
        PowerCapacity(k);
        var b := StagingFor(device, c, false);
        c := c * 2;
        k := k + 1;
      }
      forall count: nat | 1 <= count <= maxRows
        ensures (device, Capacity(count)) in staging
      {
        WarmIndex(count, k);
      }
    }

    /** The lookup's descriptor; None if its staging would have to be allocated during capture. */
    method WorkFor(device: int, count: nat, capturing: bool) returns (w: Option<Work>)
      requires Valid()
      modifies this
      ensures Valid()
      ensures forall k :: k in old(staging) ==> k in staging && staging[k] == old(staging[k])
      ensures forall k :: k in old(works) ==> k in works && works[k] == old(works[k])
      ensures w.None? <==> capturing && (device, Capacity(count)) !in old(staging)
      ensures w.Some? ==> (device, count) in works && w.value == works[(device, count)]
      ensures w.Some? ==> w.value.count == count && w.value.buffers.rows >= count
      ensures w.Some? ==> (device, Capacity(count)) in staging && w.value.buffers == staging[(device, Capacity(count))]
    {
      hide Capacity;
      var b := StagingFor(device, count, capturing);
      if b.None? { return None; }
      var key := (device, count);
      if key !in works {
        works := works[key := Work(b.value, count)];
      }
      assert Serves(staging, key, works[key]);
      w := Some(works[key]);
    }
  }

  lemma PowerCapacity(k: nat)
    ensures Capacity(Pow2(k)) == Pow2(k)
  {
    Powers(k);
  }

  lemma WarmIndex(count: nat, k: nat)
    requires count >= 1 && Pow2(k) > 2 * count
    ensures exists b: nat :: b < k && Capacity(count) == Pow2(b)
  {
    var b := BitLength(count - 1);
    CapacityExact(count);
    if b >= k { PowMonotone(k, b); }
  }

  lemma {:induction false} PowMonotone(k: nat, b: nat)
    requires k <= b
    ensures Pow2(k) <= Pow2(b)
    decreases b
  {
    if k < b { PowMonotone(k, b - 1); }
  }
}
