/** The cache: a hash map into a ring of nodes behind a header node. */
module LruCaches {
  import opened Common
  import opened LinkedLists
  import opened Recency

  type CacheNode<K, V> = Node<Option<(K, V)>>

  /** The map and the list are in bijection: entry `i` of the list is the map's entry for its
      key, and every key of the map is in the list. */
  ghost predicate Indexed<K, V, X>(m: map<K, X>, nodes: seq<X>, s: Entries<K, V>) {
    && |nodes| == |s| == |m|
    && (forall i {:trigger InMap(m, s[i].0, nodes[i])} | 0 <= i < |s| :: InMap(m, s[i].0, nodes[i]))
    && (forall k {:trigger Has(s, k)} | k in m :: Has(s, k))
  }

  predicate InMap<K, X(==)>(m: map<K, X>, k: K, x: X) {
    k in m && m[k] == x
  }

  lemma HasInFront<K, V>(s: Entries<K, V>, i: nat, k: K)
    requires i < |s| && Has(s, k)
    ensures Has(ToFront(s, i, s[i]), k)
  {
    var j := Find(s, k);
    There(ToFront(s, i, s[i]), if j < i then j + 1 else if j == i then 0 else j, k);
  }

  lemma IndexedToFront<K, V, X>(m: map<K, X>, nodes: seq<X>, s: Entries<K, V>, i: nat)
    requires Indexed(m, nodes, s) && i < |s|
    ensures Indexed(m, ToFront(nodes, i, nodes[i]), ToFront(s, i, s[i]))
  {
    var s', nodes' := ToFront(s, i, s[i]), ToFront(nodes, i, nodes[i]);
    forall k | 0 <= k < |s'| ensures InMap(m, s'[k].0, nodes'[k]) {
      var j := if k == 0 then i else if k <= i then k - 1 else k;
      assert InMap(m, s[j].0, nodes[j]);
    }
    forall k | k in m ensures Has(s', k) {
      HasInFront(s, i, k);
    }
  }

  lemma IndexedSetValue<K, V, X>(m: map<K, X>, nodes: seq<X>, s: Entries<K, V>, i: nat, v: V)
    requires Indexed(m, nodes, s) && i < |s|
    ensures Indexed(m, nodes, s[i := (s[i].0, v)])
  {
    forall k | k in m ensures Has(s[i := (s[i].0, v)], k) {
      assert Has(s, k);
      There(s[i := (s[i].0, v)], Find(s, k), k);
    }
  }

  lemma ToFrontOfUpdated<T>(s: seq<T>, i: nat, e: T)
    requires i < |s|
    ensures ToFront(s[i := e], i, e) == ToFront(s, i, e)
  {
  }

  lemma IndexedDropLast<K, V, X>(m: map<K, X>, nodes: seq<X>, s: Entries<K, V>)
    requires Indexed(m, nodes, s) && s != [] && forall i, j | 0 <= i < j < |nodes| :: nodes[i] != nodes[j]
    ensures Indexed(m - {s[|s| - 1].0}, nodes[..|s| - 1], s[..|s| - 1])
  {
    var n := |s| - 1;
    var last := s[n].0;
    var m' := m - {last};
    assert InMap(m, last, nodes[n]);
    assert m == m'[last := m[last]];
    forall i | 0 <= i < n ensures InMap(m', s[..n][i].0, nodes[..n][i]) {
      assert InMap(m, s[i].0, nodes[i]);
      assert nodes[i] != nodes[n];
    }
    forall k | k in m' ensures Has(s[..n], k) {
      assert Has(s, k);
      There(s[..n], Find(s, k), k);
    }
  }

  lemma IndexedAddFront<K, V, X>(m: map<K, X>, nodes: seq<X>, s: Entries<K, V>, k: K, v: V, x: X)
    requires Indexed(m, nodes, s) && k !in m
    ensures Indexed(m[k := x], [x] + nodes, [(k, v)] + s)
  {
    var s', nodes' := [(k, v)] + s, [x] + nodes;
    forall i | 0 <= i < |s'| ensures InMap(m[k := x], s'[i].0, nodes'[i]) {
      if i > 0 {
        assert InMap(m, s[i - 1].0, nodes[i - 1]);
      }
    }
    forall q | q in m[k := x] ensures Has(s', q) {
      assert q in m ==> Has(s, q);
      There(s', if q == k then 0 else Find(s, q) + 1, q);
    }
  }

  lemma IndexedAddBack<K, V, X>(m: map<K, X>, nodes: seq<X>, s: Entries<K, V>, k: K, v: V, x: X)
    requires Indexed(m, nodes, s) && k !in m
    ensures Indexed(m[k := x], nodes + [x], s + [(k, v)])
  {
    var s', nodes' := s + [(k, v)], nodes + [x];
    forall i | 0 <= i < |s'| ensures InMap(m[k := x], s'[i].0, nodes'[i]) {
      if i < |s| {
        assert InMap(m, s[i].0, nodes[i]);
      }
    }
    forall q | q in m[k := x] ensures Has(s', q) {
      assert q in m ==> Has(s, q);
      There(s', if q == k then |s| else Find(s, q), q);
    }
  }

  lemma Located<K, V, X>(m: map<K, X>, nodes: seq<X>, s: Entries<K, V>, key: K)
    requires Indexed(m, nodes, s)
    ensures key in m <==> Has(s, key)
    ensures key in m ==> m[key] == nodes[Find(s, key)]
  {
    var i := Find(s, key);
    if i < |s| {
      assert InMap(m, s[i].0, nodes[i]);
    }
  }

  /** The nodes carry the entries. */
  ghost predicate Carrying<K, V>(nodes: seq<CacheNode<K, V>>, s: Entries<K, V>)
    reads (set n | n in nodes)`value
  {
    |nodes| == |s| && forall i | 0 <= i < |nodes| :: nodes[i].value == Some(s[i])
  }

  method Assign<K, V>(node: CacheNode<K, V>, e: (K, V), ghost nodes: seq<CacheNode<K, V>>, ghost s: Entries<K, V>, ghost i: nat)
    requires Carrying(nodes, s) && i < |nodes| && nodes[i] == node
    requires forall j, k | 0 <= j < k < |nodes| :: nodes[j] != nodes[k]
    modifies node`value
    ensures Carrying(nodes, s[i := e])
  {
    node.value := Some(e);
  }

  class LruCache<K(==), V> {
    const header: CacheNode<K, V>
    const limit: nat
    var map_: map<K, CacheNode<K, V>>

    // the nodes from the header on, and what they hold
    ghost var nodes: seq<CacheNode<K, V>>
    ghost var entries: Entries<K, V>

    ghost predicate Valid()
      reads this, header, nodes
    {
      && Ring([header] + nodes)
      && Indexed(map_, nodes, entries)
      && Carrying(nodes, entries)
      && |entries| <= limit
    }

    constructor (limit: nat)
      ensures Valid() && fresh(header) && nodes == [] && entries == [] && this.limit == limit
    {
      var h := new Node(None);
      header, this.limit, map_ := h, limit, map[];
      nodes, entries := [], [];
    }

    function Size(): (n: nat)
      requires Valid()
      reads this, header, nodes
      ensures n == |entries| <= limit
    {
      |map_|
    }

    /** The map and the lists change together, to what the nodes already are. */
    method Become(m: map<K, CacheNode<K, V>>, ghost ns: seq<CacheNode<K, V>>, ghost s: Entries<K, V>)
      requires Ring([header] + ns) && Indexed(m, ns, s) && Carrying(ns, s) && |s| <= limit
      modifies `map_, `nodes, `entries
      ensures Valid() && map_ == m && nodes == ns && entries == s
    {
      map_, nodes, entries := m, ns, s;
    }

    method MoveToHeader(node: CacheNode<K, V>, ghost i: nat)
      requires Ring([header] + nodes) && i < |nodes| && nodes[i] == node
      modifies header`next, header`prev, (set n | n in nodes)`next, (set n | n in nodes)`prev
      ensures Ring([header] + ToFront(nodes, i, node))
    {
      BringFront(header, node, nodes, i);
    }

    method SetValue(node: CacheNode<K, V>, v: V, ghost i: nat)
      requires Valid() && i < |nodes| && nodes[i] == node
      modifies `entries, node`value
      ensures Valid() && entries == old(entries)[i := (old(entries)[i].0, v)]
    {
      RingDistinct(header, nodes);
      IndexedSetValue(map_, nodes, entries, i, v);
      ghost var s := entries[i := (entries[i].0, v)];
      Assign(node, (node.value.value.0, v), nodes, entries, i);
      entries := s;
    }

    method Promote(node: CacheNode<K, V>, ghost i: nat)
      requires Valid() && i < |nodes| && nodes[i] == node
      modifies `map_, `nodes, `entries, header`next, header`prev, (set n | n in nodes)`next, (set n | n in nodes)`prev
      ensures Valid() && map_ == old(map_)
      ensures entries == ToFront(old(entries), i, old(entries)[i])
      ensures nodes == ToFront(old(nodes), i, node)
    {
      ghost var ns, s := ToFront(nodes, i, node), ToFront(entries, i, entries[i]);
      IndexedToFront(map_, nodes, entries, i);
      CarryingToFront(nodes, entries, i);
      MoveToHeader(node, i);
      Become(map_, ns, s);
    }

    /** A hit: the node gets the value and moves to the front. */
    method Hit(node: CacheNode<K, V>, v: V, ghost i: nat)
      requires Valid() && i < |nodes| && nodes[i] == node
      modifies this, header, nodes
      ensures Valid()
      ensures entries == ToFront(old(entries), i, (old(entries)[i].0, v))
      ensures nodes == ToFront(old(nodes), i, node)
    {
      ghost var s := entries;
      SetValue(node, v, i);
      Promote(node, i);
      ToFrontOfUpdated(s, i, (s[i].0, v));
    }

    method Get(key: K) returns (v: Option<V>)
      requires Valid()
      modifies this, header, nodes
      ensures Valid() && entries == Use(old(entries), key)
      ensures v == if Has(old(entries), key) then Some(old(entries)[Find(old(entries), key)].1) else None
      ensures forall n | n in nodes :: n in old(nodes)
    {
      ghost var i := Find(entries, key);
      Located(map_, nodes, entries, key);
      if key in map_ {
        var node := map_[key];
        v := Some(node.value.value.1);
        Promote(node, i);
      } else {
        v := None;
      }
    }

    /** The least recently used node leaves the ring and its key the map. */
    method EvictLast()
      requires Valid() && nodes != []
      modifies `map_, `nodes, `entries, header`next, header`prev, (set n | n in nodes)`next, (set n | n in nodes)`prev
      ensures Valid() && nodes == old(nodes)[..|old(nodes)| - 1]
      ensures entries == old(entries)[..|old(entries)| - 1]
      ensures map_.Keys <= old(map_).Keys
    {
      ghost var n := |nodes| - 1;
      LastDropped(header, map_, nodes, entries);
      var key := UnlinkLast();
      CarryingDropLast(nodes, entries);
      Become(map_ - {key}, nodes[..n], entries[..n]);
    }

    method UnlinkLast() returns (key: K)
      requires Valid() && nodes != []
      modifies header`next, header`prev, (set n | n in nodes)`next, (set n | n in nodes)`prev
      ensures Ring([header] + nodes[..|nodes| - 1]) && key == entries[|nodes| - 1].0
    {
      CarryingDropLast(nodes, entries);
      var node := PopBack(header, nodes);
      key := node.value.value.0;
    }

    /** There is nothing to evict when the limit is zero: null is dereferenced. */
    method MakeRoomForOne() returns (ok: bool)
      requires Valid()
      modifies this, header, nodes
      ensures Valid() && entries == MakeRoom(old(entries), limit)
      ensures ok <==> limit > 0
      ensures ok ==> |entries| < limit
      ensures nodes <= old(nodes) && map_.Keys <= old(map_).Keys
    {
      if |map_| >= limit {
        if limit == 0 {
          return false;
        }
        EvictLast();
      }
      ok := true;
    }

    method AddFront(key: K, v: V)
      requires Valid() && key !in map_ && |entries| < limit
      modifies this, header, nodes
      ensures Valid() && entries == [(key, v)] + old(entries)
      ensures forall n | n in nodes :: n in old(nodes) || fresh(n)
    {
      var newNode := new Node(Some((key, v)));
      ghost var ns, s := [newNode] + nodes, [(key, v)] + entries;
      IndexedAddFront(map_, nodes, entries, key, v, newNode);
      assert Carrying(ns, s);
      PushFront(header, newNode, nodes);
      Become(map_[key := newNode], ns, s);
    }

    method AddBack(key: K, v: V)
      requires Valid() && key !in map_ && |entries| < limit
      modifies this, header, nodes
      ensures Valid() && entries == old(entries) + [(key, v)]
      ensures forall n | n in nodes :: n in old(nodes) || fresh(n)
    {
      var newNode := new Node(Some((key, v)));
      ghost var ns, s := nodes + [newNode], entries + [(key, v)];
      IndexedAddBack(map_, nodes, entries, key, v, newNode);
      assert Carrying(ns, s);
      PushBack(header, newNode, nodes);
      Become(map_[key := newNode], ns, s);
    }

    /** put(Key&&, Value&&): a new entry becomes the most recently used one. Without a limit of
        at least one the process ends. */
    method PutMoved(key: K, v: V) returns (ok: bool)
      requires Valid()
      modifies this, header, nodes
      ensures Valid() && (ok <==> limit > 0)
      ensures entries == if ok then PutFront(old(entries), key, v, limit) else []
      ensures forall n | n in nodes :: n in old(nodes) || fresh(n)
    {
      ghost var i := Find(entries, key);
      Located(map_, nodes, entries, key);
      if key in map_ {
        Hit(map_[key], v, i);
        ok := true;
      } else {
        ok := MakeRoomForOne();
        if ok {
          AddFront(key, v);
        }
      }
    }

    /** The other three overloads of put: a new entry becomes the next one to be evicted. */
    method PutCopied(key: K, v: V) returns (ok: bool)
      requires Valid()
      modifies this, header, nodes
      ensures Valid() && (ok <==> limit > 0)
      ensures entries == if ok then PutBack(old(entries), key, v, limit) else []
      ensures forall n | n in nodes :: n in old(nodes) || fresh(n)
    {
      ghost var i := Find(entries, key);
      Located(map_, nodes, entries, key);
      if key in map_ {
        Hit(map_[key], v, i);
        ok := true;
      } else {
        ok := MakeRoomForOne();
        if ok {
          AddBack(key, v);
        }
      }
    }

    method Clear()
      requires Valid()
      modifies this, header
      ensures Valid() && entries == [] && nodes == []
    {
      map_ := map[];
      header.next, header.prev := header, header;
      nodes, entries := [], [];
    }
  }

  lemma LastDropped<K, V>(header: CacheNode<K, V>, m: map<K, CacheNode<K, V>>, nodes: seq<CacheNode<K, V>>, s: Entries<K, V>)
    requires Ring([header] + nodes) && Indexed(m, nodes, s) && nodes != []
    ensures Indexed(m - {s[|s| - 1].0}, nodes[..|nodes| - 1], s[..|s| - 1])
  {
    RingDistinct(header, nodes);
    IndexedDropLast(m, nodes, s);
  }

  lemma CarryingDropLast<K, V>(nodes: seq<CacheNode<K, V>>, s: Entries<K, V>)
    requires Carrying(nodes, s) && s != []
    ensures Carrying(nodes[..|nodes| - 1], s[..|s| - 1]) && nodes[|nodes| - 1].value == Some(s[|s| - 1])
  {
  }

  lemma CarryingToFront<K, V>(nodes: seq<CacheNode<K, V>>, s: Entries<K, V>, i: nat)
    requires Carrying(nodes, s) && i < |s|
    ensures Carrying(ToFront(nodes, i, nodes[i]), ToFront(s, i, s[i]))
  {
  }
}
