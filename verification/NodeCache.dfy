/**
 The Node peer's segment cache (peer/src/cache.ts): least recently used within a byte limit and a
 time to live, over pooled buffers. Consumers lease an entry's bytes; an entry evicted meanwhile
 keeps its buffer until the last lease is released.
 */
module NodeCache {
  import opened Wrappers
  import opened BufferPool

  class CacheEntry {
    const key: string
    const data: Buffer
    const storedAt: int
    const allocatedBytes: nat
    var leases: nat
    var evicted: bool
    /** What was stored. */
    ghost const content: seq<bv8>

    constructor (key: string, data: Buffer, storedAt: int, allocatedBytes: nat, ghost content: seq<bv8>)
      ensures this.key == key && this.data == data && this.storedAt == storedAt && this.allocatedBytes == allocatedBytes
      ensures this.content == content && leases == 0 && !evicted
    {
      this.key, this.data, this.content := key, data, content;
      this.storedAt, this.allocatedBytes := storedAt, allocatedBytes;
      leases, evicted := 0, false;
    }
  }

  class CacheLease {
    const entry: CacheEntry
    var released: bool

    constructor (entry: CacheEntry)
      ensures this.entry == entry && !released
    {
      this.entry, released := entry, false;
    }
  }

  // ---- Entries in the order of their last use, oldest first ----

  ghost predicate DistinctKeys(es: seq<CacheEntry>) { forall i, j :: 0 <= i < j < |es| ==> es[i].key != es[j].key }

  function Total(es: seq<CacheEntry>): nat { if es == [] then 0 else es[0].allocatedBytes + Total(es[1..]) }

  function Cut(es: seq<CacheEntry>, i: nat): seq<CacheEntry>
    requires i < |es|
  {
    es[..i] + es[i + 1..]
  }

  /** The position of a key, or the length when it is absent. */
  function Position(es: seq<CacheEntry>, key: string): (i: nat)
    ensures i <= |es| && (i < |es| ==> es[i].key == key) && forall j :: 0 <= j < i ==> es[j].key != key
  {
    if es == [] || es[0].key == key then 0 else 1 + Position(es[1..], key)
  }

  function Without(es: seq<CacheEntry>, key: string): seq<CacheEntry> {
    var i := Position(es, key);
    if i < |es| then Cut(es, i) else es
  }

  /** Drops the oldest entries until the rest fits. */
  function Evict(es: seq<CacheEntry>, maxBytes: nat): seq<CacheEntry> {
    if Total(es) <= maxBytes then es else Evict(es[1..], maxBytes)
  }

  lemma {:induction false} EvictIsMinimal(es: seq<CacheEntry>, maxBytes: nat)
    ensures |Evict(es, maxBytes)| <= |es| && Evict(es, maxBytes) == es[|es| - |Evict(es, maxBytes)|..]
    ensures Total(Evict(es, maxBytes)) <= maxBytes
    ensures forall d :: 0 <= d < |es| - |Evict(es, maxBytes)| ==> Total(es[d..]) > maxBytes
  {
    if Total(es) > maxBytes {
      var rest := es[1..];
      EvictIsMinimal(rest, maxBytes);
      assert Evict(es, maxBytes) == es[|es| - |Evict(rest, maxBytes)|..];
      forall d | 0 <= d < |es| - |Evict(es, maxBytes)| ensures Total(es[d..]) > maxBytes {
        if d == 0 { assert es[0..] == es; } else { assert es[d..] == rest[d - 1..]; }
      }
    }
  }

  /** An entry that fits alone survives the eviction it causes. */
  lemma {:induction false} NewestStays(es: seq<CacheEntry>, e: CacheEntry, maxBytes: nat)
    requires e.allocatedBytes <= maxBytes
    ensures e in Evict(es + [e], maxBytes)
  {
    if es == [] {
      assert Total([e]) == e.allocatedBytes + Total([e][1..]);
    } else if Total(es + [e]) > maxBytes {
      assert (es + [e])[1..] == es[1..] + [e];
      NewestStays(es[1..], e, maxBytes);
    }
  }

  lemma {:induction false} TotalOfCut(es: seq<CacheEntry>, i: nat)
    requires i < |es|
    ensures Total(Cut(es, i)) == Total(es) - es[i].allocatedBytes
  {
    if i == 0 {
      assert Cut(es, 0) == es[1..];
    } else {
      TotalOfCut(es[1..], i - 1);
      assert Cut(es, i) == [es[0]] + Cut(es[1..], i - 1);
    }
  }

  lemma {:induction false} TotalOfLast(es: seq<CacheEntry>, e: CacheEntry)
    ensures Total(es + [e]) == Total(es) + e.allocatedBytes
  {
    if es == [] {
      assert Total([e]) == e.allocatedBytes + Total([e][1..]);
    } else {
      TotalOfLast(es[1..], e);
      assert (es + [e])[1..] == es[1..] + [e];
    }
  }

  lemma CutKeys(es: seq<CacheEntry>, i: nat)
    requires i < |es| && DistinctKeys(es)
    ensures DistinctKeys(Cut(es, i))
    ensures forall e :: e in Cut(es, i) <==> e in es && e != es[i]
    ensures forall e :: e in Cut(es, i) ==> e.key != es[i].key
  {
    var rest := Cut(es, i);
    assert forall j :: 0 <= j < |rest| ==> rest[j] == es[if j < i then j else j + 1];
    forall e | e in es && e != es[i] ensures e in rest {
      var j :| 0 <= j < |es| && es[j] == e;
      assert rest[if j < i then j else j - 1] == e;
    }
  }

  /** A lookup, or a round that drops what has expired. */
  datatype LookUpCall = GetCall(key: string, now: int) | HasCall(key: string, now: int) | ExpiryRound(now: int)

  predicate Concerns(call: LookUpCall, key: string) { call.ExpiryRound? || call.key == key }

  class SegmentCache {
    const maxBytes: nat
    const ttlMs: Option<nat>
    const pool: Pool
    /** The entry map, in insertion order. */
    var entries: seq<CacheEntry>
    var totalBytes: int
    /** Entries whose buffer the cache has not given back: the live ones and the evicted ones still leased. */
    ghost var held: set<CacheEntry>
    ghost var issued: set<CacheLease>

    ghost predicate Listed()
      reads this, held
    {
      && DistinctKeys(entries)
      && (forall e :: e in entries ==> e in held)
      && (forall e :: e in held ==> (e.evicted <==> e !in entries) && (e.evicted ==> e.leases > 0))
    }

    ghost function Outstanding(e: CacheEntry): set<CacheLease>
      reads this`issued, issued
    {
      set l | l in issued && l.entry == e && !l.released
    }

    /** Every lease that was not released counts, once. */
    ghost predicate Counted()
      reads this, held, issued
    {
      && (forall l :: l in issued && !l.released ==> l.entry in held)
      && (forall e :: e in held ==> e.leases == |Outstanding(e)|)
    }

    /** Each allocation belongs to one of these entries or is free, and the pool lends out nothing else. */
    ghost predicate Owned(es: set<CacheEntry>)
      reads pool
    {
      && (forall e :: e in es ==> e.data.backing !in pool.free && e.data.length <= e.data.backing.Length)
      && (forall e, f :: e in es && f in es && e != f ==> e.data.backing != f.data.backing)
      && (forall e :: e in es ==> (e.data in pool.leases <==> e.data.backing.Length <= pool.maxPooledBufferBytes))
      && (forall v :: v in pool.leases ==> exists e :: e in es && e.data == v)
      && (forall e :: e in es ==>
        e.allocatedBytes == if e.data in pool.leases then e.data.backing.Length else e.data.length)
    }

    ghost predicate Intact(es: set<CacheEntry>)
      reads set e | e in es :: e.data.backing
    {
      forall e :: e in es ==> e.data.length <= e.data.backing.Length && e.data.backing[..e.data.length] == e.content
    }

    ghost predicate Stored(es: set<CacheEntry>)
      reads pool, pool.free, set e | e in es :: e.data.backing
    {
      pool.Valid() && Owned(es) && Intact(es)
    }

    ghost predicate Sound()
      reads this, held, issued, pool, pool.free, set e | e in held :: e.data.backing
    {
      Listed() && Counted() && Stored(held) && totalBytes == Total(entries)
    }

    ghost predicate Valid()
      reads this, held, issued, pool, pool.free, set e | e in held :: e.data.backing
    {
      Sound() && totalBytes <= maxBytes
    }

    /** Whoever holds a lease reads what was stored, whatever happened since; its buffer is in nobody else's hands. */
    lemma LeaseIsSafe(l: CacheLease)
      requires Sound() && l in issued && !l.released
      ensures l.entry.data.length <= l.entry.data.backing.Length
      ensures l.entry.data.backing[..l.entry.data.length] == l.entry.content
      ensures l.entry.data.backing !in pool.free
      ensures forall e :: e in entries && e != l.entry ==> e.data.backing != l.entry.data.backing
    {
    }

    constructor (maxBytes: nat, ttlMs: Option<nat>, pool: Pool)
      requires pool.Valid() && pool.leases == map[]
      ensures Valid() && entries == [] && held == {} && issued == {}
      ensures this.maxBytes == maxBytes && this.ttlMs == ttlMs && this.pool == pool
    {
      this.maxBytes, this.ttlMs, this.pool := maxBytes, ttlMs, pool;
      entries, totalBytes, held, issued := [], 0, {}, {};
    }

    predicate IsExpired(e: CacheEntry, now: int) { ttlMs.Some? && now - e.storedAt >= ttlMs.value }

    /** Gives an entry's buffer back to the pool. */
    method GiveBack(e: CacheEntry, ghost es: set<CacheEntry>)
      requires Stored(es) && e in es
      modifies pool, e.data.backing
      ensures Stored(es - {e}) && pool.free <= old(pool.free) + {e.data.backing}
    {
      pool.Release(e.data);
    }

    method TakeOut(i: nat, e: CacheEntry)
      requires Listed() && Counted() && i < |entries| && e == entries[i]
      modifies this`entries, this`totalBytes, this`held, e`evicted
      ensures Listed() && Counted() && entries == Cut(old(entries), i)
      ensures totalBytes == old(totalBytes) - e.allocatedBytes
      ensures held == if e.leases == 0 then old(held) - {e} else old(held)
    {
      CutKeys(entries, i);
      if e.leases == 0 { NoLeases(e); }
      entries := Cut(entries, i);
      totalBytes := totalBytes - e.allocatedBytes;
      e.evicted := true;
      if e.leases == 0 { held := held - {e}; }
    }

    lemma NoLeases(e: CacheEntry)
      requires Counted() && e in held && e.leases == 0
      ensures forall l :: l in issued && !l.released ==> l.entry != e
    {
      assert forall l :: l in issued && !l.released && l.entry == e ==> l in Outstanding(e);
    }

    /** `remove`: the entry goes; its buffer goes back unless it is leased. */
    method Remove(i: nat, e: CacheEntry)
      requires Sound() && i < |entries| && e == entries[i]
      modifies this`entries, this`totalBytes, this`held, e`evicted, pool, e.data.backing
      ensures Sound() && entries == Cut(old(entries), i) && totalBytes <= old(totalBytes)
      ensures pool.free <= old(pool.free) + {e.data.backing}
      ensures held == if e.leases == 0 then old(held) - {e} else old(held)
    {
      ghost var before := held;
      hide Total, Cut;
      TotalOfCut(entries, i);
      assert e in held;
      TakeOut(i, e);
      if e.leases == 0 {
        GiveBack(e, before);
      }
    }

    lemma InHeld(e: CacheEntry)
      requires Sound() && e in entries
      ensures e in held
    {
    }

    method RemoveAt(i: nat)
      requires Valid() && i < |entries|
      modifies this`entries, this`totalBytes, this`held, held, pool, set e | e in held :: e.data.backing
      ensures Valid() && Kept(old(held)) && held <= old(held) && entries == Cut(old(entries), i)
      ensures pool.free <= old(pool.free) + set e | e in old(held) :: e.data.backing
    {
      hide Cut, Total, DistinctKeys;
      var e := entries[i];
      InHeld(e);
      Remove(i, e);
    }

    /** The entry of a key, moved to the end of the order; an expired one is removed. */
    method Touch(key: string, now: int) returns (hit: Option<CacheEntry>)
      requires Valid()
      modifies this`entries, this`totalBytes, this`held, held, pool, set e | e in held :: e.data.backing
      ensures Valid() && Kept(old(held)) && held <= old(held)
      ensures match Hit(old(entries), key, now)
        case Some(e) => hit == Some(e) && entries == Without(old(entries), key) + [e] && held == old(held)
        case None => hit == None && entries == Without(old(entries), key)
    {
      var i := Position(entries, key);
      if i == |entries| { return None; }
      hide Sound;
      var e := entries[i];
      if IsExpired(e, now) {
        RemoveAt(i);
        return None;
      }
      MoveLast(i);
      hit := Some(e);
    }

    function Hit(es: seq<CacheEntry>, key: string, now: int): Option<CacheEntry> {
      var i := Position(es, key);
      if i == |es| || IsExpired(es[i], now) then None else Some(es[i])
    }

    /** An entry is found until its time to live is over, and from then on it is not. */
    lemma FoundUntilExpiry(es: seq<CacheEntry>, key: string, now: int)
      requires DistinctKeys(es)
      ensures forall e :: e in es && e.key == key ==>
        (Hit(es, key, now) == Some(e) <==> ttlMs.None? || now < e.storedAt + ttlMs.value)
      ensures Hit(es, key, now).Some? ==> Hit(es, key, now).value in es && Hit(es, key, now).value.key == key
      ensures forall e :: e in Without(es, key) <==> e in es && e.key != key
    {
      var i := Position(es, key);
      forall e | e in es && e.key == key ensures i < |es| && es[i] == e {
        var j :| 0 <= j < |es| && es[j] == e;
        assert j >= i;
      }
      if i < |es| { CutKeys(es, i); }
    }

    method MoveLast(i: nat)
      requires Sound() && i < |entries|
      modifies this`entries
      ensures Sound() && entries == Cut(old(entries), i) + [old(entries)[i]]
    {
      TotalOfCut(entries, i);
      CutKeys(entries, i);
      TotalOfLast(Cut(entries, i), entries[i]);
      hide Total, Cut;
      entries := Cut(entries, i) + [entries[i]];
    }

    /** No entry was given up while somebody leases it, and leases count as before. */
    twostate predicate Kept(before: set<CacheEntry>)
      reads this, before
    {
      && (forall e :: e in before && old(e.leases) > 0 ==> e in held)
      && (forall e :: e in before ==> e.leases == old(e.leases))
      && issued == old(issued)
    }

    /** A copy of the bytes of a live entry. */
    method Get(key: string, now: int) returns (data: Option<seq<bv8>>)
      requires Valid()
      modifies this`entries, this`totalBytes, this`held, held, pool, set e | e in held :: e.data.backing
      ensures Valid() && Kept(old(held)) && held <= old(held)
      ensures match Hit(old(entries), key, now)
        case Some(e) => data == Some(e.content) && entries == Without(old(entries), key) + [e]
        case None => data == None && entries == Without(old(entries), key)
      ensures data.Some? <==>
        exists e :: e in old(entries) && e.key == key && (ttlMs.None? || now < e.storedAt + ttlMs.value)
      ensures forall e :: e in entries <==>
        e in old(entries) && (e.key == key ==> ttlMs.None? || now < e.storedAt + ttlMs.value)
    {
      hide Kept, Counted;
      FoundUntilExpiry(entries, key, now);
      var hit := Touch(key, now);
      if hit.None? { return None; }
      var e := hit.value;
      assert e in entries;
      data := Some(e.data.backing[..e.data.length]);
    }

    /** Pins the bytes of a live entry. */
    method Lease(key: string, now: int) returns (lease: CacheLease?)
      requires Valid()
      modifies this`entries, this`totalBytes, this`held, this`issued, held, pool, set e | e in held :: e.data.backing
      ensures Valid() && forall e :: e in old(held) && old(e.leases) > 0 ==> e in held
      ensures match Hit(old(entries), key, now)
        case Some(e) =>
          && lease != null && fresh(lease) && lease.entry == e && !lease.released && issued == old(issued) + {lease}
          && entries == Without(old(entries), key) + [e] && held == old(held) && e.leases == old(e.leases) + 1
        case None => lease == null && issued == old(issued) && entries == Without(old(entries), key)
      ensures lease != null <==>
        exists e :: e in old(entries) && e.key == key && (ttlMs.None? || now < e.storedAt + ttlMs.value)
      ensures forall e :: e in entries <==>
        e in old(entries) && (e.key == key ==> ttlMs.None? || now < e.storedAt + ttlMs.value)
    {
      FoundUntilExpiry(entries, key, now);
      var hit := Touch(key, now);
      if hit.None? { return null; }
      lease := Pin(hit.value);
    }

    method Pin(e: CacheEntry) returns (lease: CacheLease)
      requires Valid() && e in held
      modifies this`issued, e`leases
      ensures Valid() && fresh(lease) && lease.entry == e && !lease.released && issued == old(issued) + {lease}
      ensures e.leases == old(e.leases) + 1
    {
      hide Stored, Total, Listed, Counted;
      lease := new CacheLease(e);
      Register(lease);
    }

    method Register(lease: CacheLease)
      requires Listed() && Counted() && lease.entry in held && lease !in issued && !lease.released
      modifies this`issued, lease.entry`leases
      ensures Listed() && Counted() && issued == old(issued) + {lease}
      ensures lease.entry.leases == old(lease.entry.leases) + 1
    {
      var e := lease.entry;
      ghost var mine := Outstanding(e);
      issued := issued + {lease};
      e.leases := e.leases + 1;
      assert Outstanding(e) == mine + {lease} && lease !in mine;
      assert forall f :: f in held && f != e ==> Outstanding(f) == old(Outstanding(f)) && f.leases == old(f.leases);
      hide Outstanding;
    }

    /** Gives a lease back; a second call does nothing. The last one frees an evicted entry. */
    method Release(lease: CacheLease)
      requires Valid() && lease in issued
      modifies this`held, lease, lease.entry`leases, pool, lease.entry.data.backing
      ensures Valid() && lease.released
      ensures old(lease.released) ==> held == old(held) && lease.entry.leases == old(lease.entry.leases)
      ensures forall e :: e in old(held) && old(e.leases) > (if e == lease.entry then 1 else 0) ==> e in held
    {
      if lease.released { return; }
      var e := lease.entry;
      ghost var before := held;
      Unpin(lease);
      if e.evicted && e.leases == 0 {
        GiveBack(e, before);
      }
    }

    method Unpin(lease: CacheLease)
      requires Listed() && Counted() && lease in issued && !lease.released
      modifies this`held, lease, lease.entry`leases
      ensures Listed() && Counted() && lease.released
      ensures lease.entry.leases + 1 == old(lease.entry.leases)
      ensures held == if lease.entry.evicted && lease.entry.leases == 0 then old(held) - {lease.entry} else old(held)
    {
      var e := lease.entry;
      assert lease in Outstanding(e);
      ghost var mine := Outstanding(e);
      lease.released := true;
      e.leases := e.leases - 1;
      assert Outstanding(e) == mine - {lease};
      assert forall f :: f in held && f != e ==> Outstanding(f) == old(Outstanding(f));
      assert Counted() by { assert forall f :: f in held && f != e ==> f.leases == old(f.leases); }
      if e.evicted && e.leases == 0 {
        NoLeases(e);
        held := held - {e};
      }
    }

    /** Whether a live entry exists; an expired one is removed. */
    method Has(key: string, now: int) returns (found: bool)
      requires Valid()
      modifies this`entries, this`totalBytes, this`held, held, pool, set e | e in held :: e.data.backing
      ensures Valid() && Kept(old(held)) && held <= old(held)
      ensures found == Hit(old(entries), key, now).Some?
      ensures entries == if found then old(entries) else Without(old(entries), key)
      ensures found <==>
        exists e :: e in old(entries) && e.key == key && (ttlMs.None? || now < e.storedAt + ttlMs.value)
      ensures forall e :: e in entries <==>
        e in old(entries) && (e.key == key ==> ttlMs.None? || now < e.storedAt + ttlMs.value)
    {
      FoundUntilExpiry(entries, key, now);
      var i := Position(entries, key);
      if i == |entries| { return false; }
      hide Sound;
      if IsExpired(entries[i], now) {
        RemoveAt(i);
        return false;
      }
      found := true;
    }

    /**
     Stores a copy and evicts from the oldest end until everything fits. A segment whose allocation
     is larger than the cache is refused, after the older segment of that name is gone.
     */
    method Set(key: string, data: seq<bv8>, now: int) returns (ok: bool)
      requires Valid()
      modifies this`entries, this`totalBytes, this`held, held, pool, pool.free, set e | e in held :: e.data.backing
      ensures Valid() && forall e :: e in old(held) && old(e.leases) > 0 ==> e in held && e.leases == old(e.leases)
      ensures forall e :: e in held && e !in old(held) ==>
        fresh(e) && (fresh(e.data.backing) || e.data.backing in old(pool.free + set f | f in held :: f.data.backing))
      ensures ok == (0 < |data| <= maxBytes && pool.Allocation(|data|) <= maxBytes)
      ensures !ok ==> entries == if 0 < |data| <= maxBytes then Without(old(entries), key) else old(entries)
      ensures ok ==> exists e: CacheEntry ::
        && e in entries && e.key == key && e.content == data && e.storedAt == now && fresh(e)
        && entries == Evict(Without(old(entries), key) + [e], maxBytes)
    {
      if |data| == 0 || |data| > maxBytes { return false; }
      var i := Position(entries, key);
      AbsentFrom(entries, key);
      hide Sound, Evict, Position;
      if i < |entries| { RemoveAt(i); }
      ok := Admit(key, data, now);
    }

    lemma AbsentFrom(es: seq<CacheEntry>, key: string)
      requires DistinctKeys(es)
      ensures forall e :: e in Without(es, key) ==> e.key != key
    {
      var i := Position(es, key);
      if i < |es| {
        CutKeys(es, i);
      } else {
        forall e | e in es ensures e.key != key { var j :| 0 <= j < |es| && es[j] == e; }
      }
    }

    /** Stores a copy under a key that is not in use, evicting what it needs. */
    method Admit(key: string, data: seq<bv8>, now: int) returns (ok: bool)
      requires Valid() && (forall e :: e in entries ==> e.key != key) && 0 < |data|
      modifies this`entries, this`totalBytes, this`held, held, pool, pool.free, set e | e in held :: e.data.backing
      ensures Valid() && Kept(old(held)) && ok == (pool.Allocation(|data|) <= maxBytes)
      ensures forall e :: e in held && e !in old(held) ==>
        fresh(e) && (fresh(e.data.backing) || e.data.backing in old(pool.free))
      ensures !ok ==> entries == old(entries)
      ensures ok ==> exists e: CacheEntry ::
        && e in entries && e.key == key && e.content == data && e.storedAt == now && fresh(e)
        && entries == Evict(old(entries) + [e], maxBytes)
    {
      hide Sound, Evict;
      var e := Store(key, data, now);
      if e == null { return false; }
      NewestStays(old(entries), e, maxBytes);
      EvictOldest();
      ok := true;
    }

    /** Appends an entry for a copy of the bytes, unless their allocation is larger than the cache. */
    method Store(key: string, data: seq<bv8>, now: int) returns (e: CacheEntry?)
      requires Sound() && (forall e :: e in entries ==> e.key != key) && 0 < |data|
      modifies this`entries, this`totalBytes, this`held, pool, pool.free
      ensures Sound() && (e == null <==> pool.Allocation(|data|) > maxBytes)
      ensures e == null ==> entries == old(entries) && held == old(held) && totalBytes == old(totalBytes)
      ensures e != null ==>
        entries == old(entries) + [e] && held == old(held) + {e} && fresh(e) && e.allocatedBytes <= maxBytes
      ensures e != null ==> e.key == key && e.content == data && e.storedAt == now
      ensures e != null ==> fresh(e.data.backing) || e.data.backing in old(pool.free)
    {
      hide Listed, Counted, Stored, Total;
      e := NewEntry(key, data, now);
      if e == null { return; }
      Append(e);
    }

    /** A view that was lent out on top of what these entries hold. */
    ghost predicate Lent(es: set<CacheEntry>, v: Buffer)
      reads pool, pool.free, set e | e in es :: e.data.backing
    {
      && pool.Valid() && Intact(es)
      && (forall e :: e in es ==> e.data != v && e.data.backing != v.backing && e.data.backing !in pool.free)
      && (forall e, f :: e in es && f in es && e != f ==> e.data.backing != f.data.backing)
      && (forall e :: e in es ==> (e.data in pool.leases <==> e.data.backing.Length <= pool.maxPooledBufferBytes))
      && (forall w :: w in pool.leases && w != v ==> exists e :: e in es && e.data == w)
      && (forall e :: e in es ==>
        e.allocatedBytes == if e.data in pool.leases then e.data.backing.Length else e.data.length)
      && v.backing !in pool.free && v.length <= v.backing.Length
      && (v in pool.leases <==> v.backing.Length <= pool.maxPooledBufferBytes)
    }

    method CopyIn(data: seq<bv8>) returns (v: Buffer)
      requires Stored(held) && 0 < |data|
      modifies pool, pool.free
      ensures Lent(held, v) && (fresh(v.backing) || v.backing in old(pool.free)) && fresh(v)
      ensures v.length == |data| && v.backing[..|data|] == data && v.backing.Length == pool.Bucket(|data|)
    {
      v := pool.Copy(data);
    }

    method TakeBack(v: Buffer)
      requires Lent(held, v)
      modifies pool, v.backing
      ensures Stored(held)
    {
      pool.Release(v);
    }

    lemma LentIsStored(es: set<CacheEntry>, e: CacheEntry)
      requires Lent(es, e.data) && e !in es && e.content == e.data.backing[..e.data.length]
      requires e.allocatedBytes == if e.data in pool.leases then e.data.backing.Length else e.data.length
      ensures Stored(es + {e})
    {
    }

    /** Copies the bytes into the pool, unless their allocation is larger than the cache. */
    method NewEntry(key: string, data: seq<bv8>, now: int) returns (e: CacheEntry?)
      requires Stored(held) && 0 < |data|
      modifies pool, pool.free
      ensures if pool.Allocation(|data|) > maxBytes then e == null && Stored(held)
        else e != null && fresh(e) && Stored(held + {e})
      ensures e != null ==>
        e.key == key && e.content == data && e.storedAt == now && e.allocatedBytes == pool.Allocation(|data|)
      ensures e != null ==> e.leases == 0 && !e.evicted && (fresh(e.data.backing) || e.data.backing in old(pool.free))
    {
      hide Stored, Owned, Intact;
      var v := CopyIn(data);
      var bytes := pool.AllocationSize(v);
      assert v in pool.leases <==> v.backing.Length <= pool.maxPooledBufferBytes;
      hide Lent;
      if bytes > maxBytes {
        TakeBack(v);
        return null;
      }
      e := new CacheEntry(key, v, now, bytes, data);
      LentIsStored(held, e);
    }

    method Append(e: CacheEntry)
      requires Listed() && Counted() && totalBytes == Total(entries)
      requires e !in held && e.leases == 0 && !e.evicted && forall f :: f in entries ==> f.key != e.key
      modifies this`entries, this`totalBytes, this`held
      ensures Listed() && Counted() && totalBytes == Total(entries)
      ensures entries == old(entries) + [e] && held == old(held) + {e}
    {
      TotalOfLast(entries, e);
      assert forall l :: l in issued && !l.released ==> l.entry != e;
      assert Outstanding(e) == {};
      hide Total;
      entries := entries + [e];
      held := held + {e};
      totalBytes := totalBytes + e.allocatedBytes;
    }

    method EvictOldest()
      requires Sound()
      modifies this`entries, this`totalBytes, this`held, held, pool, set e | e in held :: e.data.backing
      ensures Valid() && Kept(old(held)) && entries == Evict(old(entries), maxBytes) && held <= old(held)
    {
      hide Sound;
      while totalBytes > maxBytes
        invariant Sound() && Kept(old(held)) && held <= old(held)
        invariant Evict(entries, maxBytes) == Evict(old(entries), maxBytes)
        decreases |entries|
      {
        Overfull();
        Remove(0, entries[0]);
      }
      Fitting();
    }

    lemma Overfull()
      requires Sound() && totalBytes > maxBytes
      ensures entries != [] && entries[0] in held && Cut(entries, 0) == entries[1..] && Total(entries) > maxBytes
    {
    }

    lemma Fitting()
      requires Sound() && totalBytes <= maxBytes
      ensures Evict(entries, maxBytes) == entries
    {
    }

    function Unexpired(es: seq<CacheEntry>, now: int): seq<CacheEntry> {
      if es == [] then [] else (if IsExpired(es[0], now) then [] else [es[0]]) + Unexpired(es[1..], now)
    }

    lemma {:induction false} UnexpiredAre(es: seq<CacheEntry>, now: int)
      ensures forall e :: e in Unexpired(es, now) <==> e in es && (ttlMs.None? || now < e.storedAt + ttlMs.value)
    {
      if es != [] {
        UnexpiredAre(es[1..], now);
        assert es == [es[0]] + es[1..];
      }
    }

    lemma {:induction false} CutExpired(es: seq<CacheEntry>, i: nat, now: int)
      requires i < |es| && IsExpired(es[i], now)
      ensures Unexpired(Cut(es, i), now) == Unexpired(es, now)
    {
      if i == 0 {
        assert Cut(es, 0) == es[1..];
      } else {
        CutExpired(es[1..], i - 1, now);
        assert Cut(es, i) == [es[0]] + Cut(es[1..], i - 1);
      }
    }

    lemma {:induction false} NoneExpired(es: seq<CacheEntry>, now: int)
      requires forall i :: 0 <= i < |es| ==> !IsExpired(es[i], now)
      ensures Unexpired(es, now) == es
    {
      if es != [] { NoneExpired(es[1..], now); }
    }

    method EvictExpired(now: int)
      requires Valid()
      modifies this`entries, this`totalBytes, this`held, held, pool, set e | e in held :: e.data.backing
      ensures Valid() && Kept(old(held)) && held <= old(held) && entries == Unexpired(old(entries), now)
      ensures forall e :: e in entries <==> e in old(entries) && (ttlMs.None? || now < e.storedAt + ttlMs.value)
    {
      hide Sound;
      if ttlMs.Some? {
        RemoveExpired(now);
      } else {
        NoneExpired(entries, now);
      }
      UnexpiredAre(old(entries), now);
    }

    method RemoveExpired(now: int)
      requires Valid()
      modifies this`entries, this`totalBytes, this`held, held, pool, set e | e in held :: e.data.backing
      ensures Valid() && Kept(old(held)) && held <= old(held) && entries == Unexpired(old(entries), now)
    {
      var i := 0;
      hide Sound, Unexpired, IsExpired;
      while i < |entries|
        invariant Valid() && Kept(old(held)) && held <= old(held)
        invariant 0 <= i <= |entries| && Unexpired(entries, now) == Unexpired(old(entries), now)
        invariant forall j :: 0 <= j < i ==> !IsExpired(entries[j], now)
        decreases |entries| - i
      {
        if IsExpired(entries[i], now) {
          CutExpired(entries, i, now);
          RemoveAt(i);
        } else {
          i := i + 1;
        }
      }
      NoneExpired(entries, now);
    }

    method LookUpOnce(call: LookUpCall)
      requires Valid()
      modifies this`entries, this`totalBytes, this`held, held, pool, set e | e in held :: e.data.backing
      ensures Valid() && held <= old(held)
      ensures forall e :: e in entries <==> e in old(entries) && Outlives(e, call)
    {
      hide Sound;
      match call {
        case GetCall(key, now) => var _ := Get(key, now);
        case HasCall(key, now) => var _ := Has(key, now);
        case ExpiryRound(now) => EvictExpired(now);
      }
    }

    /** A call that concerns the entry comes before the end of its time to live. */
    predicate Outlives(e: CacheEntry, call: LookUpCall) {
      Concerns(call, e.key) ==> ttlMs.None? || call.now < e.storedAt + ttlMs.value
    }

    /** Over any number of lookups and expiry rounds an entry stays exactly while it outlives each of them. */
    method LookUp(calls: seq<LookUpCall>)
      requires Valid()
      modifies this`entries, this`totalBytes, this`held, held, pool, set e | e in held :: e.data.backing
      ensures Valid() && held <= old(held)
      ensures forall e :: e in entries <==> e in old(entries) && forall i :: 0 <= i < |calls| ==> Outlives(e, calls[i])
    {
      hide Sound;
      for i := 0 to |calls|
        invariant Valid() && held <= old(held)
        invariant forall e :: e in entries <==> e in old(entries) && forall j :: 0 <= j < i ==> Outlives(e, calls[j])
      {
        LookUpOnce(calls[i]);
      }
    }

    method LookUpThenGet(ghost e: CacheEntry, calls: seq<LookUpCall>, now: int, key: string)
      returns (found: Option<seq<bv8>>)
      requires Valid() && e in entries && e.key == key
      modifies this`entries, this`totalBytes, this`held, held, pool, set e | e in held :: e.data.backing
      ensures found == if Outlives(e, GetCall(key, now)) && forall i :: 0 <= i < |calls| ==> Outlives(e, calls[i])
        then Some(e.content) else None
    {
      OnlyOne(e);
      hide Sound;
      LookUp(calls);
      found := Get(key, now);
    }

    lemma OnlyOne(e: CacheEntry)
      requires Sound() && e in entries
      ensures forall f :: f in entries && f.key == e.key ==> f == e
    {
    }

    /**
     What is stored is found, whatever else is looked up in between, exactly while each call that
     concerns it comes before its time to live is over, counted from when it was stored.
     */
    method SetThenLookUp(key: string, data: seq<bv8>, stored: int, calls: seq<LookUpCall>, now: int)
      returns (ok: bool, found: Option<seq<bv8>>)
      requires Valid()
      modifies this`entries, this`totalBytes, this`held, held, pool, pool.free, set e | e in held :: e.data.backing
      ensures ok == (0 < |data| <= maxBytes && pool.Allocation(|data|) <= maxBytes)
      ensures ok ==> found == if ttlMs.None? || (now < stored + ttlMs.value
        && forall i :: 0 <= i < |calls| && Concerns(calls[i], key) ==> calls[i].now < stored + ttlMs.value)
        then Some(data) else None
    {
      hide Sound;
      ok := Set(key, data, stored);
      if !ok { return ok, None; }
      ghost var e: CacheEntry :| e in entries && e.key == key && e.content == data && e.storedAt == stored;
      hide Evict, Without;
      found := LookUpThenGet(e, calls, now, key);
    }

    /** Names of the live entries, oldest first. */
    method Keys(now: int) returns (keys: seq<string>)
      requires Valid()
      modifies this`entries, this`totalBytes, this`held, held, pool, set e | e in held :: e.data.backing
      ensures Valid() && Kept(old(held)) && entries == Unexpired(old(entries), now)
      ensures |keys| == |entries| && forall i :: 0 <= i < |keys| ==> keys[i] == entries[i].key
    {
      EvictExpired(now);
      keys := seq(|entries|, i requires 0 <= i < |entries| reads this => entries[i].key);
    }

    method Clear()
      requires Valid()
      modifies this`entries, this`totalBytes, this`held, held, pool, set e | e in held :: e.data.backing
      ensures Valid() && Kept(old(held)) && entries == []
    {
      hide Sound;
      while entries != []
        invariant Valid() && Kept(old(held)) && held <= old(held)
        decreases |entries|
      {
        RemoveAt(0);
      }
    }
  }
}
