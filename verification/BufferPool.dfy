/**
 The Node peer's buffer pool (peer/src/buffer-pool.ts): dedicated allocations in power-of-two size
 classes, lent out as views and taken back once.
 */
module BufferPool {
  import opened Sequences

  type Backing = array<bv8>

  /** A view of the first `length` bytes of an allocation. */
  class Buffer {
    const backing: Backing
    const length: nat

    constructor (backing: Backing, length: nat)
      ensures this.backing == backing && this.length == length
    {
      this.backing, this.length := backing, length;
    }
  }

  ghost predicate IsPowerOfTwo(n: nat) { n == 1 || (n > 0 && n % 2 == 0 && IsPowerOfTwo(n / 2)) }

  /** Doubles `bucket` until `size` bytes fit. */
  function Doubled(bucket: nat, size: nat): nat
    decreases size - bucket
  {
    if bucket >= size || bucket == 0 then bucket else Doubled(bucket * 2, size)
  }

  /** A size class is the least power of two that holds the request. */
  lemma {:induction false} SizeClass(bucket: nat, size: nat)
    requires IsPowerOfTwo(bucket) && (bucket == 1 || bucket < 2 * size)
    ensures IsPowerOfTwo(Doubled(bucket, size)) && size <= Doubled(bucket, size)
    ensures Doubled(bucket, size) == 1 || Doubled(bucket, size) < 2 * size
    decreases size - bucket
  {
    if bucket < size { SizeClass(bucket * 2, size); }
  }

  ghost predicate IsZero(a: Backing)
    reads a
  {
    forall i :: 0 <= i < a.Length ==> a[i] == 0
  }

  /** Bytes held by a set of allocations. */
  ghost function Bytes(free: set<Backing>): nat {
    if free == {} then 0 else var a :| a in free; a.Length + Bytes(free - {a})
  }

  lemma {:induction false} BytesWithout(free: set<Backing>, a: Backing)
    requires a in free
    ensures Bytes(free) == a.Length + Bytes(free - {a})
    decreases |free|
  {
    var b :| b in free && Bytes(free) == b.Length + Bytes(free - {b});
    if b != a {
      BytesWithout(free - {b}, a);
      BytesWithout(free - {a}, b);
      assert free - {a} - {b} == free - {b} - {a};
    }
  }

  /** Every free allocation is listed once, in the bucket of its size. */
  ghost predicate Buckets(available: map<nat, seq<Backing>>, free: set<Backing>, maxPerBucket: nat) {
    && (forall a :: a in free ==> a.Length in available && a in available[a.Length])
    && (forall b :: b in available ==> |available[b]| <= maxPerBucket)
    && (forall b, i :: b in available && 0 <= i < |available[b]| ==>
      available[b][i] in free && available[b][i].Length == b)
    && (forall b, i, j :: b in available && 0 <= i < j < |available[b]| ==> available[b][i] != available[b][j])
  }

  lemma BucketsWith(available: map<nat, seq<Backing>>, free: set<Backing>, max: nat, a: Backing, retained: seq<Backing>)
    requires Buckets(available, free, max) && a !in free
    requires retained == (if a.Length in available then available[a.Length] else []) && |retained| < max
    ensures Buckets(available[a.Length := retained + [a]], free + {a}, max)
  {
    assert (retained + [a])[|retained|] == a;
    assert forall b :: b in retained ==> b in retained + [a];
  }

  lemma BucketsWithout(available: map<nat, seq<Backing>>, free: set<Backing>, max: nat, bucket: nat)
    requires Buckets(available, free, max) && bucket in available && |available[bucket]| > 0
    ensures var last := |available[bucket]| - 1;
      && available[bucket][last] in free && available[bucket][last].Length == bucket
      && Buckets(available[bucket := available[bucket][..last]], free - {available[bucket][last]}, max)
  {
  }

  class Pool {
    const maxPooledBufferBytes: nat
    const maxRetainedPerBucket: nat
    const maxRetainedBytes: nat
    var available: map<nat, seq<Backing>>
    var leases: map<Buffer, Backing>
    var retainedBytes: nat
    /** The allocations in `available`. */
    ghost var free: set<Backing>

    /** Every pooled allocation is free or lent out under one view, never both. */
    ghost predicate Owned()
      reads this
    {
      && Buckets(available, free, maxRetainedPerBucket)
      && (forall v :: v in leases ==> leases[v] == v.backing && v.length <= v.backing.Length && v.backing !in free)
      && (forall v, w :: v in leases && w in leases && v != w ==> v.backing != w.backing)
    }

    ghost predicate Classed()
      reads this
    {
      && (forall v :: v in leases ==> IsPowerOfTwo(v.backing.Length) && v.backing.Length <= maxPooledBufferBytes)
      && (forall a :: a in free ==> IsPowerOfTwo(a.Length) && a.Length <= maxPooledBufferBytes)
    }

    ghost predicate Valid()
      reads this, free
    {
      && Owned() && Classed()
      && retainedBytes == Bytes(free) <= maxRetainedBytes
      && (forall a :: a in free ==> IsZero(a))
    }

    constructor (maxPooledBufferBytes: nat, maxRetainedPerBucket: nat, maxRetainedBytes: nat)
      ensures Valid() && free == {} && leases == map[]
      ensures this.maxPooledBufferBytes == maxPooledBufferBytes
    {
      this.maxPooledBufferBytes := maxPooledBufferBytes;
      this.maxRetainedPerBucket := maxRetainedPerBucket;
      this.maxRetainedBytes := maxRetainedBytes;
      available, leases, retainedBytes, free := map[], map[], 0, {};
    }

    /** The size class of a request, or the request itself when it is too large to pool. */
    function Bucket(size: nat): nat { if size > maxPooledBufferBytes then size else Doubled(1, size) }

    /** What a request for `size` bytes is accounted as. */
    function Allocation(size: nat): nat { if Bucket(size) <= maxPooledBufferBytes then Bucket(size) else size }

    method BucketSize(size: nat) returns (bucket: nat)
      requires 0 < size
      ensures bucket == Bucket(size)
    {
      if size > maxPooledBufferBytes { return size; }
      bucket := 1;
      while bucket < size
        invariant 0 < bucket && Doubled(bucket, size) == Doubled(1, size)
        decreases size - bucket
      {
        bucket := bucket * 2;
      }
    }

    /** Reuses a free allocation of the right class or makes a new one. Only pooled sizes are remembered. */
    method Acquire(size: nat) returns (view: Buffer)
      requires Valid() && 0 < size
      modifies this
      ensures Valid() && fresh(view) && view.length == size && view.backing.Length == Bucket(size)
      ensures size <= Bucket(size)
      ensures view.backing !in free && (fresh(view.backing) || view.backing in old(free))
      ensures (exists a :: a in old(free) && a.Length == Bucket(size)) ==> view.backing in old(free)
      ensures free == old(free) - {view.backing}
      ensures leases == if view.backing.Length <= maxPooledBufferBytes then old(leases)[view := view.backing]
        else old(leases)
    {
      var bucket := BucketSize(size);
      if size <= maxPooledBufferBytes { SizeClass(1, size); }
      var backing := Take(bucket);
      hide Buckets, IsZero, IsPowerOfTwo;
      view := new Buffer(backing, size);
      if bucket <= maxPooledBufferBytes { Lend(view); }
    }

    method Lend(view: Buffer)
      requires Valid() && view !in leases && view.backing !in free && view.length <= view.backing.Length
      requires IsPowerOfTwo(view.backing.Length) && view.backing.Length <= maxPooledBufferBytes
      requires forall v :: v in leases ==> v.backing != view.backing
      modifies this`leases
      ensures Valid() && leases == old(leases)[view := view.backing]
    {
      hide Buckets, IsZero, IsPowerOfTwo, Bytes;
      leases := leases[view := view.backing];
    }

    method Take(bucket: nat) returns (backing: Backing)
      requires Valid()
      modifies this`available, this`retainedBytes, this`free
      ensures Valid() && backing.Length == bucket && free == old(free) - {backing}
      ensures (fresh(backing) || backing in old(free)) && backing !in free
      ensures (exists a :: a in old(free) && a.Length == bucket) ==> backing in old(free)
      ensures forall v :: v in leases ==> v.backing != backing
    {
      if bucket in available && |available[bucket]| > 0 {
        backing := Pop(bucket);
      } else {
        backing := new bv8[bucket];
      }
    }

    method Pop(bucket: nat) returns (backing: Backing)
      requires Valid() && bucket in available && |available[bucket]| > 0
      modifies this`available, this`retainedBytes, this`free
      ensures Valid() && backing in old(free) && free == old(free) - {backing} && backing.Length == bucket
    {
      var last := |available[bucket]| - 1;
      backing := available[bucket][last];
      BytesWithout(free, backing);
      BucketsWithout(available, free, maxRetainedPerBucket, bucket);
      hide Buckets, IsPowerOfTwo, IsZero;
      available := available[bucket := available[bucket][..last]];
      free := free - {backing};
      retainedBytes := retainedBytes - backing.Length;
    }

    /** A pooled copy of some bytes. */
    method Copy(source: seq<bv8>) returns (target: Buffer)
      requires Valid() && 0 < |source|
      modifies this, free
      ensures Valid() && fresh(target) && target.length == |source| && target.backing.Length == Bucket(|source|)
      ensures target.backing !in free && (fresh(target.backing) || target.backing in old(free))
      ensures (exists a :: a in old(free) && a.Length == Bucket(|source|)) ==> target.backing in old(free)
      ensures free == old(free) - {target.backing}
      ensures target.backing.Length >= |source| && target.backing[..|source|] == source
      ensures leases == if target.backing.Length <= maxPooledBufferBytes then old(leases)[target := target.backing]
        else old(leases)
    {
      target := Acquire(|source|);
      var backing := target.backing;
      forall i | 0 <= i < |source| { backing[i] := source[i]; }
    }

    function Retained(bucket: nat): seq<Backing>
      reads this
    {
      if bucket in available then available[bucket] else []
    }

    predicate HasRoom(bucket: nat)
      reads this
    {
      |Retained(bucket)| < maxRetainedPerBucket && retainedBytes + bucket <= maxRetainedBytes
    }

    /** There is room while both retention limits leave some: per size class and over all bytes. */
    lemma HasRoomIff(bucket: nat)
      requires Valid()
      ensures HasRoom(bucket) <==>
        |set a | a in free && a.Length == bucket| < maxRetainedPerBucket && Bytes(free) + bucket <= maxRetainedBytes
    {
      var retained := Retained(bucket);
      assert Elems(retained) == set a | a in free && a.Length == bucket;
      assert forall i, j :: 0 <= i < j < |retained| ==> retained[i] != retained[j];
      ElemsSize(retained);
    }

    /** The bytes a view is accounted as. */
    method AllocationSize(buffer: Buffer) returns (bytes: nat)
      requires Valid()
      ensures bytes == if buffer in leases then buffer.backing.Length else buffer.length
    {
      bytes := if buffer in leases then leases[buffer].Length else buffer.length;
    }

    /** Takes a view back, once. Its allocation is wiped and kept if there is room. */
    method Release(buffer: Buffer)
      requires Valid()
      modifies this, buffer.backing
      ensures Valid() && leases == old(leases) - {buffer}
      ensures free == if buffer in old(leases) && old(HasRoom(buffer.backing.Length)) then old(free) + {buffer.backing}
        else old(free)
      ensures buffer !in old(leases) ==> buffer.backing[..] == old(buffer.backing[..])
    {
      if buffer !in leases { return; }
      var backing := leases[buffer];
      leases := leases - {buffer};
      var retained := Retained(backing.Length);
      if |retained| >= maxRetainedPerBucket || retainedBytes + backing.Length > maxRetainedBytes { return; }
      forall i | 0 <= i < backing.Length { backing[i] := 0; }
      Keep(backing, retained);
    }

    method Keep(backing: Backing, retained: seq<Backing>)
      requires Valid() && backing !in free && IsZero(backing) && IsPowerOfTwo(backing.Length)
      requires backing.Length <= maxPooledBufferBytes
      requires forall v :: v in leases ==> v.backing != backing
      requires retained == Retained(backing.Length) && |retained| < maxRetainedPerBucket
      requires retainedBytes + backing.Length <= maxRetainedBytes
      modifies this`available, this`free, this`retainedBytes
      ensures Valid() && free == old(free) + {backing}
    {
      BucketsWith(available, free, maxRetainedPerBucket, backing, retained);
      BytesWithout(free + {backing}, backing);
      assert free + {backing} - {backing} == free;
      hide Buckets, IsZero, IsPowerOfTwo;
      available := available[backing.Length := retained + [backing]];
      free := free + {backing};
      retainedBytes := retainedBytes + backing.Length;
    }
  }
}
