/**
 The browser segment cache (sdk/src/cache.ts): heap nodes on a doubly linked list, most recent
 first, plus a lookup map. It is proved to be a recency sequence with an exact byte total.
 */
module LinkedLru {
  import opened ByteStrings
  import opened Wrappers

  datatype CachedSegment = CachedSegment(data: Bytes, hash: Option<string>, storedAt: int)

  datatype Entry = Entry(key: string, segment: CachedSegment)

  // ---- Recency sequences ----

  /** Most recent first. */
  type Recency = seq<Entry>

  function Size(e: Entry): nat { |e.segment.data| }

  function Total(es: Recency): nat { if es == [] then 0 else Total(es[..|es| - 1]) + Size(es[|es| - 1]) }

  predicate DistinctKeys(es: Recency) { forall i, j :: 0 <= i < j < |es| ==> es[i].key != es[j].key }

  function Without(es: Recency, key: string): Recency {
    if es == [] then []
    else Without(es[..|es| - 1], key) + (if es[|es| - 1].key == key then [] else [es[|es| - 1]])
  }

  /** Drops least recent entries until the rest fits. */
  function Evict(es: Recency, maxBytes: nat): Recency {
    if Total(es) <= maxBytes then es else Evict(es[..|es| - 1], maxBytes)
  }

  /** Exactly the entries that make room are evicted: the longest part of the recent end that fits. */
  lemma {:induction false} EvictIsMinimal(es: Recency, maxBytes: nat)
    ensures Evict(es, maxBytes) <= es && Total(Evict(es, maxBytes)) <= maxBytes
    ensures forall n :: |Evict(es, maxBytes)| < n <= |es| ==> Total(es[..n]) > maxBytes
  {
    if Total(es) > maxBytes {
      var shorter := es[..|es| - 1];
      EvictIsMinimal(shorter, maxBytes);
      forall n | |Evict(es, maxBytes)| < n <= |es| ensures Total(es[..n]) > maxBytes {
        if n == |es| { assert es[..n] == es; } else { assert es[..n] == shorter[..n]; }
      }
    }
  }

  /** A stored segment survives its own eviction round. */
  lemma {:induction false} NewestStays(e: Entry, es: Recency, maxBytes: nat)
    requires Size(e) <= maxBytes
    ensures |Evict([e] + es, maxBytes)| > 0 && Evict([e] + es, maxBytes)[0] == e
    decreases |es|
  {
    if es == [] {
      assert Total([e]) == Total([e][..0]) + Size(e);
    } else if Total([e] + es) > maxBytes {
      assert ([e] + es)[..|es|] == [e] + es[..|es| - 1];
      NewestStays(e, es[..|es| - 1], maxBytes);
    }
  }

  function DataOf(es: Recency): seq<Bytes> { seq(|es|, i requires 0 <= i < |es| => es[i].segment.data) }

  /** What counts towards the limit is all the data that is held, end to end. */
  lemma {:induction false} TotalIsLengthOfData(es: Recency)
    ensures Total(es) == |Joined(DataOf(es))|
  {
    if es != [] {
      var rest := es[..|es| - 1];
      TotalIsLengthOfData(rest);
      assert DataOf(es)[..|es| - 1] == DataOf(rest);
    }
  }

  function Find(es: Recency, key: string): Option<CachedSegment> {
    if es == [] then None
    else if es[|es| - 1].key == key then Some(es[|es| - 1].segment)
    else Find(es[..|es| - 1], key)
  }

  lemma {:induction false} FindAt(es: Recency, i: nat)
    requires DistinctKeys(es) && i < |es|
    ensures Find(es, es[i].key) == Some(es[i].segment)
  {
    if i < |es| - 1 { FindAt(es[..|es| - 1], i); }
  }

  lemma {:induction false} FindNothing(es: Recency, key: string)
    requires forall i :: 0 <= i < |es| ==> es[i].key != key
    ensures Find(es, key) == None
  {
    if es != [] { FindNothing(es[..|es| - 1], key); }
  }

  lemma {:induction false} WithoutNothing(es: Recency, key: string)
    requires Find(es, key) == None
    ensures Without(es, key) == es
  {
    if es != [] { WithoutNothing(es[..|es| - 1], key); }
  }

  lemma {:induction false} WithoutAt(es: Recency, i: nat)
    requires DistinctKeys(es) && i < |es|
    ensures Without(es, es[i].key) == es[..i] + es[i + 1..]
  {
    var n := |es| - 1;
    if i == n {
      FindNothing(es[..n], es[n].key);
      WithoutNothing(es[..n], es[n].key);
    } else {
      WithoutAt(es[..n], i);
      assert es[..n][..i] == es[..i] && es[..n][i + 1..] + [es[n]] == es[i + 1..];
    }
  }

  lemma {:induction false} TotalOfCut(es: Recency, i: nat)
    requires i < |es|
    ensures Total(es[..i] + es[i + 1..]) == Total(es) - Size(es[i])
  {
    var n := |es| - 1;
    var rest := es[..i] + es[i + 1..];
    if i == n {
      assert rest == es[..n];
    } else {
      TotalOfCut(es[..n], i);
      assert rest[..|rest| - 1] == es[..n][..i] + es[..n][i + 1..];
    }
  }

  lemma {:induction false} TotalOfFirst(e: Entry, es: Recency)
    ensures Total([e] + es) == Size(e) + Total(es)
  {
    if es == [] {
      assert ([e] + es)[..0] == [];
    } else {
      TotalOfFirst(e, es[..|es| - 1]);
      assert ([e] + es)[..|es|] == [e] + es[..|es| - 1];
    }
  }

  lemma {:induction false} WithoutIsSparse(es: Recency, key: string)
    requires DistinctKeys(es)
    ensures DistinctKeys(Without(es, key))
    ensures forall i :: 0 <= i < |Without(es, key)| ==> Without(es, key)[i] in es && Without(es, key)[i].key != key
  {
    if es != [] {
      var n, last := |es| - 1, es[|es| - 1];
      WithoutIsSparse(es[..n], key);
      var rest := Without(es[..n], key);
      forall i | 0 <= i < |rest| ensures rest[i].key != last.key && rest[i] in es {
        var j :| 0 <= j < n && es[..n][j] == rest[i];
        assert es[j] == rest[i];
      }
    }
  }

  /** What was just stored is found, and every other hit is one that was there before. */
  lemma StoredIsFound(es: Recency, e: Entry, maxBytes: nat)
    requires DistinctKeys(es) && Size(e) <= maxBytes
    ensures var es1 := Evict([e] + Without(es, e.key), maxBytes);
      DistinctKeys(es1) && Find(es1, e.key) == Some(e.segment) && forall f :: f in es1 ==> f == e || f in es
  {
    var rest := Without(es, e.key);
    WithoutIsSparse(es, e.key);
    NewestStays(e, rest, maxBytes);
    EvictIsMinimal([e] + rest, maxBytes);
    hide Without, Evict;
    var es1 := Evict([e] + rest, maxBytes);
    assert forall i :: 0 <= i < |es1| ==> es1[i] == ([e] + rest)[i];
    FindAt(es1, 0);
  }

  // ---- The list ----

  class CacheNode {
    const entry: Entry
    var prev: CacheNode?
    var next: CacheNode?

    constructor (entry: Entry)
      ensures this.entry == entry && prev == null && next == null
    {
      this.entry := entry;
      prev, next := null, null;
    }
  }

  ghost predicate Distinct(list: seq<CacheNode>) { forall i, j :: 0 <= i < j < |list| ==> list[i] != list[j] }

  function Before(list: seq<CacheNode>, i: nat): CacheNode?
    requires i <= |list|
  {
    if i == 0 then null else list[i - 1]
  }

  function After(list: seq<CacheNode>, i: nat): CacheNode?
    requires i < |list|
  {
    if i + 1 == |list| then null else list[i + 1]
  }

  /** Neighbors on the list point at each other. */
  ghost predicate Chained(list: seq<CacheNode>)
    reads list
  {
    && Distinct(list)
    && (forall i {:trigger list[i].prev} :: 0 <= i < |list| ==> list[i].prev == Before(list, i))
    && (forall i {:trigger list[i].next} :: 0 <= i < |list| ==> list[i].next == After(list, i))
  }

  function Entries(list: seq<CacheNode>): Recency { seq(|list|, i requires 0 <= i < |list| => list[i].entry) }

  function Cut(list: seq<CacheNode>, i: nat): seq<CacheNode>
    requires i < |list|
  {
    list[..i] + list[i + 1..]
  }

  /** The map finds exactly the listed nodes, by their keys. */
  ghost predicate Indexes(nodes: map<string, CacheNode>, list: seq<CacheNode>) {
    && (forall i :: 0 <= i < |list| ==> list[i].entry.key in nodes && nodes[list[i].entry.key] == list[i])
    && (forall k :: k in nodes ==> nodes[k] in list && nodes[k].entry.key == k)
  }

  /** The ends of the chain. */
  ghost predicate IsLinked(head: CacheNode?, tail: CacheNode?, list: seq<CacheNode>)
    reads list
  {
    head == (if list == [] then null else list[0]) && tail == Before(list, |list|) && Chained(list)
  }

  lemma InCut(list: seq<CacheNode>, i: nat)
    requires i < |list| && Distinct(list)
    ensures forall n :: n in Cut(list, i) <==> n in list && n != list[i]
  {
    forall n | n in list && n != list[i] ensures n in Cut(list, i) {
      var j :| 0 <= j < |list| && list[j] == n;
      assert Cut(list, i)[if j < i then j else j - 1] == n;
    }
  }

  lemma CutDistinct(list: seq<CacheNode>, i: nat)
    requires i < |list| && Distinct(list)
    ensures Distinct(Cut(list, i))
  {
    var rest := Cut(list, i);
    forall a, b | 0 <= a < b < |rest| ensures rest[a] != rest[b] {
      assert rest[a] == list[if a < i then a else a + 1] && rest[b] == list[if b < i then b else b + 1];
    }
  }

  lemma IndexWithout(nodes: map<string, CacheNode>, list: seq<CacheNode>, i: nat)
    requires i < |list| && Distinct(list) && Indexes(nodes, list)
    ensures Indexes(nodes - {list[i].entry.key}, Cut(list, i))
  {
    InCut(list, i);
    var key, rest := list[i].entry.key, Cut(list, i);
    forall j | 0 <= j < |rest| ensures rest[j].entry.key in nodes - {key} && nodes[rest[j].entry.key] == rest[j] {
      assert rest[j] in list;
      var k :| 0 <= k < |list| && list[k] == rest[j];
    }
  }

  lemma IndexWith(nodes: map<string, CacheNode>, list: seq<CacheNode>, node: CacheNode)
    requires Indexes(nodes, list) && node.entry.key !in nodes
    ensures Indexes(nodes[node.entry.key := node], [node] + list)
  {
    var nodes1, list1 := nodes[node.entry.key := node], [node] + list;
    forall k | k in nodes1 ensures nodes1[k] in list1 && nodes1[k].entry.key == k {
      if k != node.entry.key { assert nodes[k] in list; }
    }
  }

  lemma EntriesOfCut(list: seq<CacheNode>, i: nat)
    requires i < |list|
    ensures Entries(Cut(list, i)) == Entries(list)[..i] + Entries(list)[i + 1..]
  {
    var a, b := Entries(Cut(list, i)), Entries(list)[..i] + Entries(list)[i + 1..];
    forall j | 0 <= j < |a| ensures a[j] == b[j] {}
  }

  lemma EntriesOfFirst(node: CacheNode, list: seq<CacheNode>)
    ensures Entries([node] + list) == [node.entry] + Entries(list)
  {
  }

  lemma CutLast(list: seq<CacheNode>)
    requires list != []
    ensures Cut(list, |list| - 1) == list[..|list| - 1]
    ensures Entries(list[..|list| - 1]) == Entries(list)[..|list| - 1]
  {
  }

  class SegmentCache {
    const maxBytes: nat
    var nodes: map<string, CacheNode>
    var head: CacheNode?
    var tail: CacheNode?
    var totalBytes: int
    /** The nodes from `head` to `tail`. */
    ghost var list: seq<CacheNode>

    ghost predicate Linked()
      reads this, list
    {
      IsLinked(head, tail, list)
    }

    ghost function Contents(): Recency
      reads this
    {
      Entries(list)
    }

    ghost predicate Valid()
      reads this, list
    {
      Linked() && Indexes(nodes, list) && totalBytes == Total(Contents()) <= maxBytes
    }

    constructor (maxBytes: nat)
      ensures Valid() && Contents() == [] && this.maxBytes == maxBytes
    {
      this.maxBytes := maxBytes;
      nodes, head, tail, totalBytes, list := map[], null, null, 0, [];
    }

    /** The pointers around a node skip it. */
    method Unlink(node: CacheNode, ghost i: nat)
      requires Linked() && i < |list| && list[i] == node
      modifies this`head, this`tail, list
      ensures head == (if i == 0 then After(list, 0) else old(head))
      ensures tail == (if i + 1 == |list| then Before(list, i) else old(tail))
      ensures forall k {:trigger list[k].prev} :: 0 <= k < |list| && k != i ==>
        list[k].prev == if k == i + 1 then Before(list, i) else Before(list, k)
      ensures forall k {:trigger list[k].next} :: 0 <= k < |list| && k != i ==>
        list[k].next == if k == i - 1 then After(list, i) else After(list, k)
    {
      if node.prev != null { node.prev.next := node.next; }
      if node.next != null { node.next.prev := node.prev; }
      if head == node { head := node.next; }
      if tail == node { tail := node.prev; }
      node.prev := null;
      node.next := null;
    }

    /** Unlinks a node from the list. */
    method RemoveNode(node: CacheNode, ghost i: nat)
      requires Linked() && i < |list| && list[i] == node
      modifies this`head, this`tail, this`list, list
      ensures Linked() && list == Cut(old(list), i)
    {
      hide Distinct;
      ghost var was := list;
      InCut(list, i);
      CutDistinct(list, i);
      Unlink(node, i);
      list := Cut(list, i);
      forall j | 0 <= j < |list| ensures list[j].prev == Before(list, j) && list[j].next == After(list, j) {
        assert list[j] == was[if j < i then j else j + 1];
      }
    }

    /** Inserts a node at the front. */
    method Prepend(node: CacheNode)
      requires Linked() && node !in list
      modifies this`head, this`tail, this`list, node, list
      ensures Linked() && list == [node] + old(list)
    {
      node.prev := null;
      node.next := head;
      if head != null { head.prev := node; }
      head := node;
      if tail == null { tail := node; }
      list := [node] + list;
    }

    lemma IndexOf(node: CacheNode) returns (i: nat)
      requires node in list
      ensures i < |list| && list[i] == node
    {
      i :| 0 <= i < |list| && list[i] == node;
    }

    lemma KeysAreDistinct()
      requires Distinct(list) && Indexes(nodes, list)
      ensures DistinctKeys(Contents())
    {
      forall i, j | 0 <= i < j < |list| ensures Contents()[i].key != Contents()[j].key {
        assert list[i] != list[j];
      }
    }

    lemma Misses(key: string)
      requires Indexes(nodes, list) && key !in nodes
      ensures Find(Contents(), key) == None && Without(Contents(), key) == Contents()
    {
      forall i | 0 <= i < |list| ensures Contents()[i].key != key {
        assert list[i].entry.key in nodes;
      }
      FindNothing(Contents(), key);
      WithoutNothing(Contents(), key);
    }

    lemma CutContents(i: nat)
      requires Distinct(list) && Indexes(nodes, list) && i < |list|
      ensures Entries(Cut(list, i)) == Without(Contents(), list[i].entry.key)
      ensures Total(Entries(Cut(list, i))) == Total(Contents()) - Size(list[i].entry)
      ensures Find(Contents(), list[i].entry.key) == Some(list[i].entry.segment)
    {
      KeysAreDistinct();
      hide Total, Without, Find, DistinctKeys, Indexes, Distinct;
      EntriesOfCut(list, i);
      TotalOfCut(Contents(), i);
      WithoutAt(Contents(), i);
      FindAt(Contents(), i);
    }

    /** A hit moves to the front. */
    method Get(key: string) returns (data: Option<Bytes>)
      requires Valid()
      modifies this`head, this`tail, this`list, list
      ensures Valid()
      ensures match Find(old(Contents()), key)
        case Some(segment) => data == Some(segment.data) &&
          Contents() == [Entry(key, segment)] + Without(old(Contents()), key)
        case None => data == None && Contents() == old(Contents())
    {
      if key !in nodes {
        Misses(key);
        return None;
      }
      var segment := Touch(nodes[key]);
      data := Some(segment.data);
    }

    method Touch(node: CacheNode) returns (segment: CachedSegment)
      requires Valid() && node in list
      modifies this`head, this`tail, this`list, list
      ensures Valid() && segment == node.entry.segment && Find(old(Contents()), node.entry.key) == Some(segment)
      ensures Contents() == [node.entry] + Without(old(Contents()), node.entry.key)
    {
      ghost var i := IndexOf(node);
      hide IsLinked, Total, Without, Find, Entries, Cut, Indexes;
      FrontOf(i);
      BumpToFront(node, i);
      segment := node.entry.segment;
    }

    /** The list with one of its nodes moved to the front. */
    lemma FrontOf(i: nat)
      requires Fits() && i < |list|
      ensures var e, list1 := list[i].entry, [list[i]] + Cut(list, i);
        && Indexes(nodes, list1) && Entries(list1) == [e] + Without(Contents(), e.key) &&
          Total(Entries(list1)) == Total(Contents())
        && Find(Contents(), e.key) == Some(e.segment)
    {
      var node := list[i];
      var key := node.entry.key;
      assert Distinct(list);
      hide IsLinked;
      CutContents(i);
      IndexWithout(nodes, list, i);
      hide Total, Without, Find, Entries, Cut, Distinct;
      IndexWith(nodes - {key}, Cut(list, i), node);
      assert (nodes - {key})[key := node] == nodes;
      hide Indexes;
      EntriesOfFirst(node, Cut(list, i));
      TotalOfFirst(node.entry, Entries(Cut(list, i)));
    }

    method BumpToFront(node: CacheNode, ghost i: nat)
      requires Linked() && i < |list| && list[i] == node
      requires Indexes(nodes, [node] + Cut(list, i)) && totalBytes == Total(Entries([node] + Cut(list, i)))
      modifies this`head, this`tail, this`list, list
      ensures Fits() && list == [node] + Cut(old(list), i)
    {
      hide Indexes, Total, Entries;
      if node == head {
        assert i == 0 && list == [node] + Cut(list, 0);
        return;
      }
      RemoveNode(node, i);
      Prepend(node);
    }

    /** Existence, without touching the order. */
    method Has(key: string) returns (found: bool)
      requires Valid()
      ensures found <==> Find(Contents(), key).Some?
    {
      found := key in nodes;
      if found {
        ghost var i := IndexOf(nodes[key]);
        CutContents(i);
      } else {
        Misses(key);
      }
    }

    /** Metadata, without touching the order. */
    method Peek(key: string) returns (segment: Option<CachedSegment>)
      requires Valid()
      ensures segment == Find(Contents(), key)
    {
      if key !in nodes {
        Misses(key);
        return None;
      }
      ghost var i := IndexOf(nodes[key]);
      CutContents(i);
      segment := Some(nodes[key].entry.segment);
    }

    /** Stores a segment in front and evicts from the tail until everything fits. */
    method Set(key: string, data: Bytes, hash: Option<string>, now: int) returns (ok: bool)
      requires Valid()
      modifies this, list
      ensures Valid() && ok == (0 < |data| <= maxBytes)
      ensures Contents() == if ok
        then Evict([Entry(key, CachedSegment(data, hash, now))] + Without(old(Contents()), key), maxBytes)
        else old(Contents())
    {
      if |data| == 0 || |data| > maxBytes { return false; }
      Store(Entry(key, CachedSegment(data, hash, now)));
      ok := true;
    }

    method Store(e: Entry)
      requires Valid()
      modifies this, list
      ensures Valid() && Contents() == Evict([e] + Without(old(Contents()), e.key), maxBytes)
    {
      hide Chained, Total, Without, Find, Entries, Evict;
      TakeOut(e.key);
      Insert(e);
      EvictOverflow();
    }

    /** Takes out an older segment of the same name. */
    method TakeOut(key: string)
      requires Fits()
      modifies this`nodes, this`head, this`tail, this`list, this`totalBytes, list
      ensures Fits() && Contents() == Without(old(Contents()), key) && key !in nodes
      ensures forall n :: n in list ==> n in old(list)
    {
      if key !in nodes {
        Misses(key);
        return;
      }
      var node := nodes[key];
      ghost var i := IndexOf(node);
      hide Chained, Distinct, Total, Without, Entries, Cut;
      CutOut(i);
      Discard(node, i);
    }

    ghost predicate Fits()
      reads this, list
    {
      Linked() && Indexes(nodes, list) && totalBytes == Total(Contents())
    }

    /** The list and the map without one of the nodes. */
    lemma CutOut(i: nat)
      requires Fits() && i < |list|
      ensures var e, rest := list[i].entry, Cut(list, i);
        && Indexes(nodes - {e.key}, rest) && Entries(rest) == Without(Contents(), e.key) && e.key in nodes &&
          nodes[e.key] == list[i]
        && Total(Entries(rest)) == Total(Contents()) - Size(e) && forall n :: n in rest ==> n in list
    {
      CutContents(i);
      InCut(list, i);
      hide Cut;
      IndexWithout(nodes, list, i);
    }

    /** Unlinks and forgets one node. */
    method Discard(node: CacheNode, ghost i: nat)
      requires Fits() && i < |list| && node == list[i]
      modifies this`nodes, this`head, this`tail, this`list, this`totalBytes, list
      ensures Fits() && list == Cut(old(list), i) && nodes == old(nodes) - {node.entry.key}
    {
      hide Chained, Distinct, Total, Without, Find, Entries, Cut, Indexes;
      CutOut(i);
      totalBytes := totalBytes - |node.entry.segment.data|;
      RemoveNode(node, i);
      nodes := nodes - {node.entry.key};
    }

    method Insert(e: Entry)
      requires Fits() && e.key !in nodes
      modifies this`nodes, this`head, this`tail, this`list, this`totalBytes, list
      ensures Fits() && Contents() == [e] + old(Contents())
      ensures list != [] && fresh(list[0]) && list == [list[0]] + old(list)
    {
      var node := new CacheNode(e);
      hide Chained, Distinct, Total, Entries, Indexes;
      InFront(node);
      nodes := nodes[e.key := node];
      Prepend(node);
      totalBytes := totalBytes + |e.segment.data|;
    }

    lemma InFront(node: CacheNode)
      requires Indexes(nodes, list) && node.entry.key !in nodes
      ensures Indexes(nodes[node.entry.key := node], [node] + list)
      ensures Entries([node] + list) == [node.entry] + Contents()
      ensures Total(Entries([node] + list)) == Size(node.entry) + Total(Contents())
    {
      IndexWith(nodes, list, node);
      EntriesOfFirst(node, list);
      TotalOfFirst(node.entry, Contents());
    }

    method EvictOverflow()
      requires Fits()
      modifies this`nodes, this`head, this`tail, this`list, this`totalBytes, list
      ensures Valid() && Contents() == Evict(old(Contents()), maxBytes)
    {
      while totalBytes > maxBytes && tail != null
        invariant Fits() && Evict(Contents(), maxBytes) == Evict(old(Contents()), maxBytes)
        invariant forall n :: n in list ==> n in old(list)
        decreases |list|
      {
        ghost var es, i := Contents(), |list| - 1;
        CutLast(list);
        Discard(tail, i);
        assert Contents() == es[..i];
      }
    }

    /** Deletes everything. */
    method Clear()
      requires Valid()
      modifies this
      ensures Valid() && Contents() == []
    {
      nodes, head, tail, totalBytes, list := map[], null, null, 0, [];
    }
  }
}
