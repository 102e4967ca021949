/** What the cache stands for: a list of entries, most recently used first. */
module Recency {
  import opened Common
  import opened LinkedLists

  type Entries<K, V> = seq<(K, V)>

  /** Position of the key, or the length. */
  function Find<K(==), V>(s: Entries<K, V>, key: K): (i: nat)
    ensures i <= |s|
    ensures i < |s| ==> s[i].0 == key
    ensures forall j | 0 <= j < i :: s[j].0 != key
  {
    if s == [] || s[0].0 == key then 0 else 1 + Find(s[1..], key)
  }

  predicate Has<K(==), V>(s: Entries<K, V>, key: K) {
    Find(s, key) < |s|
  }

  /** A hit moves the entry to the front, a miss changes nothing. */
  function Use<K(==), V>(s: Entries<K, V>, key: K): Entries<K, V> {
    var i := Find(s, key);
    if i < |s| then ToFront(s, i, s[i]) else s
  }

  /** Room for one more: a full list loses its last entry. */
  function MakeRoom<K, V>(s: Entries<K, V>, limit: nat): Entries<K, V> {
    if |s| >= limit && s != [] then s[..|s| - 1] else s
  }

  /** put with both arguments moved in. */
  function PutFront<K(==), V>(s: Entries<K, V>, key: K, v: V, limit: nat): Entries<K, V> {
    var i := Find(s, key);
    if i < |s| then ToFront(s, i, (key, v)) else [(key, v)] + MakeRoom(s, limit)
  }

  /** The other overloads of put: a new entry goes to the wrong end. */
  function PutBack<K(==), V>(s: Entries<K, V>, key: K, v: V, limit: nat): Entries<K, V> {
    var i := Find(s, key);
    if i < |s| then ToFront(s, i, (key, v)) else MakeRoom(s, limit) + [(key, v)]
  }

  // ------------------------------------------------------------------ least recently used

  /** `Put` is put with both arguments moved in, `PutOther` any other overload. */
  datatype Op<K, V> = Get(key: K) | Put(key: K, value: V) | PutOther(key: K, value: V) | Clear

  /** The cache of the given capacity after a sequence of calls. */
  function Cached<K(==), V>(ops: seq<Op<K, V>>, limit: nat): Entries<K, V> {
    if ops == [] then []
    else
      var s := Cached(ops[..|ops| - 1], limit);
      match ops[|ops| - 1]
      case Get(key) => Use(s, key)
      case Put(key, v) => PutFront(s, key, v, limit)
      case PutOther(key, v) => PutBack(s, key, v, limit)
      case Clear => []
  }

  function Renew<K(==), V>(u: Entries<K, V>, key: K, v: V): Entries<K, V> {
    if Has(u, key) then ToFront(u, Find(u, key), (key, v)) else [(key, v)] + u
  }

  /** All entries put since the last clear, with their latest values, in the order of their last
      use; a get counts as a use when it hits the cache. */
  function Used<K(==), V>(ops: seq<Op<K, V>>, limit: nat): Entries<K, V> {
    if ops == [] then []
    else
      var u := Used(ops[..|ops| - 1], limit);
      match ops[|ops| - 1]
      case Get(key) => if Has(Cached(ops[..|ops| - 1], limit), key) then Use(u, key) else u
      case Put(key, v) => Renew(u, key, v)
      case PutOther(key, v) => Renew(u, key, v)
      case Clear => []
  }

  // ------------------------------------------------------------------ the order of last use, said directly

  /** The call that last used the key since the last clear, counted from one; zero if none did. */
  ghost function LastUse<K, V>(ops: seq<Op<K, V>>, limit: nat, key: K): (n: nat)
    ensures n <= |ops|
  {
    if ops == [] then 0
    else
      var init := ops[..|ops| - 1];
      match ops[|ops| - 1]
      case Get(k) =>
        if k == key && (exists e | e in Cached(init, limit) :: e.0 == key) then |ops| else LastUse(init, limit, key)
      case Put(k, _) => if k == key then |ops| else LastUse(init, limit, key)
      case PutOther(k, _) => if k == key then |ops| else LastUse(init, limit, key)
      case Clear => 0
  }

  /** The value that was put last under the key since the last clear. */
  function LastPut<K(==), V>(ops: seq<Op<K, V>>, key: K): Option<V> {
    if ops == [] then None
    else
      var init := ops[..|ops| - 1];
      match ops[|ops| - 1]
      case Get(_) => LastPut(init, key)
      case Put(k, v) => if k == key then Some(v) else LastPut(init, key)
      case PutOther(k, v) => if k == key then Some(v) else LastPut(init, key)
      case Clear => None
  }

  /** In order of last use, latest first. */
  ghost predicate ByLastUse<K, V>(u: Entries<K, V>, ops: seq<Op<K, V>>, limit: nat) {
    && (forall i | 0 <= i < |u| :: LastUse(ops, limit, u[i].0) > 0)
    && forall i, j | 0 <= i < j < |u| :: LastUse(ops, limit, u[i].0) > LastUse(ops, limit, u[j].0)
  }

  /** Exactly the keys that were put, each with the value put last. */
  ghost predicate AllPut<K(!new), V>(u: Entries<K, V>, ops: seq<Op<K, V>>) {
    && (forall e | e in u :: LastPut(ops, e.0) == Some(e.1))
    && (forall key :: LastPut(ops, key).Some? ==> exists e | e in u :: e.0 == key)
  }

  /** The last call used this key. */
  ghost predicate NowUsed<K(!new), V>(ops: seq<Op<K, V>>, limit: nat, key: K) {
    ops != [] && forall k :: LastUse(ops, limit, k) == if k == key then |ops| else LastUse(ops[..|ops| - 1], limit, k)
  }

  lemma MovedInOrder<K(!new), V>(u: Entries<K, V>, ops: seq<Op<K, V>>, limit: nat, i: nat, e: (K, V))
    requires NowUsed(ops, limit, e.0) && ByLastUse(u, ops[..|ops| - 1], limit) && i < |u| && u[i].0 == e.0
    ensures ByLastUse(ToFront(u, i, e), ops, limit)
  {
    var r, init := ToFront(u, i, e), ops[..|ops| - 1];
    forall a | 1 <= a < |r| ensures r[a].0 != e.0 && 0 < LastUse(ops, limit, r[a].0) == LastUse(init, limit, r[a].0) < |ops| {
      var k := if a <= i then a - 1 else a;
      assert r[a] == u[k];
      assert k < i ==> LastUse(init, limit, u[k].0) > LastUse(init, limit, u[i].0);
      assert i < k ==> LastUse(init, limit, u[i].0) > LastUse(init, limit, u[k].0);
    }
    forall a, b | 0 <= a < b < |r| ensures LastUse(ops, limit, r[a].0) > LastUse(ops, limit, r[b].0) {
      if a > 0 {
        assert r[a] == u[if a <= i then a - 1 else a] && r[b] == u[if b <= i then b - 1 else b];
      }
    }
  }

  lemma FrontInOrder<K(!new), V>(u: Entries<K, V>, ops: seq<Op<K, V>>, limit: nat, e: (K, V))
    requires NowUsed(ops, limit, e.0) && ByLastUse(u, ops[..|ops| - 1], limit) && !Has(u, e.0)
    ensures ByLastUse([e] + u, ops, limit)
  {
    var r, init := [e] + u, ops[..|ops| - 1];
    Absent(u, e.0);
    forall a | 1 <= a < |r| ensures r[a].0 != e.0 && 0 < LastUse(ops, limit, r[a].0) == LastUse(init, limit, r[a].0) < |ops| {
      assert r[a] == u[a - 1];
    }
    forall a, b | 0 <= a < b < |r| ensures LastUse(ops, limit, r[a].0) > LastUse(ops, limit, r[b].0) {
      assert a > 0 ==> r[a] == u[a - 1] && r[b] == u[b - 1];
    }
  }

  lemma RenewInOrder<K(!new), V>(u: Entries<K, V>, ops: seq<Op<K, V>>, limit: nat, key: K, v: V)
    requires NowUsed(ops, limit, key) && ByLastUse(u, ops[..|ops| - 1], limit)
    ensures ByLastUse(Renew(u, key, v), ops, limit)
  {
    if Has(u, key) {
      MovedInOrder(u, ops, limit, Find(u, key), (key, v));
    } else {
      FrontInOrder(u, ops, limit, (key, v));
    }
  }

  lemma HasIff<K, V>(s: Entries<K, V>, key: K)
    ensures Has(s, key) <==> exists e | e in s :: e.0 == key
  {
    if e :| e in s && e.0 == key {
      var j :| 0 <= j < |s| && s[j] == e;
      There(s, j, key);
    }
    if Has(s, key) {
      assert s[Find(s, key)] in s;
    }
  }

  lemma SameOrder<K(!new), V>(u: Entries<K, V>, ops: seq<Op<K, V>>, limit: nat, key: K)
    requires ops != [] && ByLastUse(u, ops[..|ops| - 1], limit)
    requires forall k :: LastUse(ops, limit, k) == LastUse(ops[..|ops| - 1], limit, k) || (k == key && !Has(u, key))
    ensures ByLastUse(u, ops, limit)
  {
    if !Has(u, key) {
      Absent(u, key);
    }
  }

  /** The list that the cache is compared with is in order of last use. */
  lemma {:induction false} UsedInOrder<K(!new), V>(ops: seq<Op<K, V>>, limit: nat)
    ensures ByLastUse(Used(ops, limit), ops, limit)
    decreases |ops|
  {
    if ops != [] {
      var init := ops[..|ops| - 1];
      var u := Used(init, limit);
      UsedInOrder(init, limit);
      match ops[|ops| - 1]
      case Get(key) =>
        HasIff(Cached(init, limit), key);
        if Has(Cached(init, limit), key) && Has(u, key) {
          assert NowUsed(ops, limit, key);
          MovedInOrder(u, ops, limit, Find(u, key), u[Find(u, key)]);
        } else {
          SameOrder(u, ops, limit, key);
        }
      case Put(key, v) =>
        assert NowUsed(ops, limit, key);
        RenewInOrder(u, ops, limit, key, v);
      case PutOther(key, v) =>
        assert NowUsed(ops, limit, key);
        RenewInOrder(u, ops, limit, key, v);
      case Clear =>
    }
  }

  lemma RenewMembers<K, V>(u: Entries<K, V>, key: K, v: V, e: (K, V))
    requires forall i, j | 0 <= i < j < |u| :: u[i].0 != u[j].0
    ensures e in Renew(u, key, v) <==> e == (key, v) || (e in u && e.0 != key)
  {
    if Has(u, key) {
      MovedMembers(u, Find(u, key), (key, v), e);
    } else {
      Absent(u, key);
    }
  }

  lemma MovedMembers<K, V>(u: Entries<K, V>, i: nat, e: (K, V), x: (K, V))
    requires i < |u| && u[i].0 == e.0 && forall i, j | 0 <= i < j < |u| :: u[i].0 != u[j].0
    ensures x in ToFront(u, i, e) <==> x == e || (x in u && x.0 != e.0)
  {
    var r := ToFront(u, i, e);
    if x in r && x != e {
      var k :| 0 <= k < |r| && r[k] == x;
      assert x == u[if k <= i then k - 1 else k];
    }
    if x in u && x.0 != e.0 {
      var k :| 0 <= k < |u| && u[k] == x;
      assert r[if k < i then k + 1 else k] == x;
    }
  }

  /** It has exactly the keys that were put since the last clear, with their latest values. */
  lemma {:induction false} UsedIsAllPut<K(!new), V>(ops: seq<Op<K, V>>, limit: nat)
    ensures AllPut(Used(ops, limit), ops)
    decreases |ops|
  {
    if ops != [] {
      var init := ops[..|ops| - 1];
      var u := Used(init, limit);
      UsedIsAllPut(init, limit);
      UsedInOrder(init, limit);
      match ops[|ops| - 1]
      case Get(key) =>
        if Has(u, key) {
          forall x ensures x in Use(u, key) <==> x in u {
            KeptMembers(u, Find(u, key), x);
          }
        }
      case Put(key, v) => PutAll(u, ops, key, v);
      case PutOther(key, v) => PutAll(u, ops, key, v);
      case Clear =>
    }
  }

  lemma KeptMembers<K, V>(u: Entries<K, V>, i: nat, x: (K, V))
    requires i < |u| && forall i, j | 0 <= i < j < |u| :: u[i].0 != u[j].0
    ensures x in ToFront(u, i, u[i]) <==> x in u
  {
    MovedMembers(u, i, u[i], x);
    if x in u && x.0 == u[i].0 {
      var k :| 0 <= k < |u| && u[k] == x;
      assert k == i;
    }
  }

  lemma PutAll<K(!new), V>(u: Entries<K, V>, ops: seq<Op<K, V>>, key: K, v: V)
    requires ops != [] && AllPut(u, ops[..|ops| - 1]) && (ops[|ops| - 1] == Put(key, v) || ops[|ops| - 1] == PutOther(key, v))
    requires forall i, j | 0 <= i < j < |u| :: u[i].0 != u[j].0
    ensures AllPut(Renew(u, key, v), ops)
  {
    var r := Renew(u, key, v);
    forall e ensures e in r <==> e == (key, v) || (e in u && e.0 != key) {
      RenewMembers(u, key, v, e);
    }
    forall k | LastPut(ops, k).Some? ensures exists e | e in r :: e.0 == k {
      if k == key {
        assert (key, v) in r;
      } else {
        assert LastPut(ops[..|ops| - 1], k).Some?;
        var e :| e in u && e.0 == k;
        assert e in r;
      }
    }
  }

  /** So a cache that treats every call in an orderly way holds the keys used last: no key that is
      not in it was used after one that is. */
  lemma CachedAreTheLatest<K(!new), V>(ops: seq<Op<K, V>>, limit: nat, e: (K, V), key: K)
    requires limit >= 1 && AllOrderly(ops, limit) && e in Cached(ops, limit)
    ensures LastPut(ops, e.0) == Some(e.1)
    ensures LastPut(ops, key).Some? && !Has(Cached(ops, limit), key) ==>
      |Cached(ops, limit)| == limit && LastUse(ops, limit, key) < LastUse(ops, limit, e.0)
  {
    RecentIffOrderly(ops, limit);
    UsedInOrder(ops, limit);
    UsedIsAllPut(ops, limit);
    var u := Used(ops, limit);
    var c := FirstOf(u, limit);
    assert Cached(ops, limit) == c;
    var i :| 0 <= i < |c| && c[i] == e;
    assert u[i] == e;
    if LastPut(ops, key).Some? && !Has(c, key) {
      var x :| x in u && x.0 == key;
      var j :| 0 <= j < |u| && u[j] == x;
      Absent(c, key);
      assert j >= |c|;
    }
  }

  lemma {:induction false} FindInPrefix<K, V>(u: Entries<K, V>, n: nat, key: K)
    requires n <= |u|
    ensures Find(u, key) < n ==> Find(u[..n], key) == Find(u, key)
    ensures Find(u, key) >= n ==> Find(u[..n], key) == n
  {
    if n > 0 && u[0].0 != key {
      assert u[..n][1..] == u[1..][..n - 1];
      FindInPrefix(u[1..], n - 1, key);
    }
  }

  lemma ToFrontOfPrefix<T>(u: seq<T>, n: nat, i: nat, e: T)
    requires i < n <= |u|
    ensures ToFront(u[..n], i, e) == ToFront(u, i, e)[..n]
  {
  }

  lemma UseOfPrefix<K, V>(u: Entries<K, V>, limit: nat, key: K)
    requires Has(FirstOf(u, limit), key)
    ensures Use(FirstOf(u, limit), key) == FirstOf(Use(u, key), limit)
  {
    FindInPrefix(u, Min(limit, |u|), key);
    var i := Find(u, key);
    ToFrontOfPrefix(u, Min(limit, |u|), i, u[i]);
  }

  lemma PutInPrefix<K, V>(u: Entries<K, V>, limit: nat, key: K, v: V)
    requires Has(FirstOf(u, limit), key)
    ensures PutFront(FirstOf(u, limit), key, v, limit) == FirstOf(ToFront(u, Find(u, key), (key, v)), limit)
  {
    FindInPrefix(u, Min(limit, |u|), key);
    ToFrontOfPrefix(u, Min(limit, |u|), Find(u, key), (key, v));
  }

  lemma PutNewInPrefix<K, V>(u: Entries<K, V>, limit: nat, key: K, v: V)
    requires limit >= 1 && !Has(FirstOf(u, limit), key)
    ensures PutFront(FirstOf(u, limit), key, v, limit) == FirstOf(Renew(u, key, v), limit)
  {
    FindInPrefix(u, Min(limit, |u|), key);
  }

  lemma RenewInPrefix<K, V>(u: Entries<K, V>, limit: nat, key: K, v: V)
    requires limit >= 1
    ensures PutFront(FirstOf(u, limit), key, v, limit) == FirstOf(Renew(u, key, v), limit)
  {
    if Has(FirstOf(u, limit), key) {
      FindInPrefix(u, Min(limit, |u|), key);
      PutInPrefix(u, limit, key, v);
    } else {
      PutNewInPrefix(u, limit, key, v);
    }
  }

  /** Another overload does what the moving one does exactly if the key is there already, or
      there is no entry that it could be put behind. */
  lemma PutBackIsPutFrontIff<K, V>(s: Entries<K, V>, limit: nat, key: K, v: V)
    requires limit >= 1 && |s| <= limit
    ensures PutBack(s, key, v, limit) == PutFront(s, key, v, limit) <==> Has(s, key) || s == [] || limit == 1
  {
    if !Has(s, key) {
      var r := MakeRoom(s, limit);
      Absent(s, key);
      if r == [] {
        assert r + [(key, v)] == [(key, v)] + r;
      } else {
        assert (r + [(key, v)])[0] == s[0];
      }
    }
  }

  /** The call treats the key as the one used last. */
  ghost predicate Orderly<K, V>(s: Entries<K, V>, limit: nat, op: Op<K, V>) {
    op.PutOther? ==> Has(s, op.key) || s == [] || limit == 1
  }

  ghost predicate AllOrderly<K, V>(ops: seq<Op<K, V>>, limit: nat) {
    ops == [] || (AllOrderly(ops[..|ops| - 1], limit) && Orderly(Cached(ops[..|ops| - 1], limit), limit, ops[|ops| - 1]))
  }

  /** The cache holds exactly the most recently used entries, as many as fit, each with the
      value put last, after every one of the calls. */
  ghost predicate HoldsRecent<K, V>(ops: seq<Op<K, V>>, limit: nat) {
    && Cached(ops, limit) == FirstOf(Used(ops, limit), limit)
    && (ops != [] ==> HoldsRecent(ops[..|ops| - 1], limit))
  }

  lemma OneCall<K, V>(ops: seq<Op<K, V>>, limit: nat)
    requires limit >= 1 && ops != [] && Cached(ops[..|ops| - 1], limit) == FirstOf(Used(ops[..|ops| - 1], limit), limit)
    ensures Cached(ops, limit) == FirstOf(Used(ops, limit), limit) <==>
      Orderly(Cached(ops[..|ops| - 1], limit), limit, ops[|ops| - 1])
  {
    var init := ops[..|ops| - 1];
    var u := Used(init, limit);
    match ops[|ops| - 1]
    case Get(key) =>
      if Has(Cached(init, limit), key) {
        UseOfPrefix(u, limit, key);
      }
    case Put(key, v) =>
      RenewInPrefix(u, limit, key, v);
    case PutOther(key, v) =>
      RenewInPrefix(u, limit, key, v);
      PutBackIsPutFrontIff(Cached(init, limit), limit, key, v);
    case Clear =>
  }

  /** Eviction takes the least recently used entry all along if and only if the other overloads
      of put are called only with keys that are there, on an empty cache, or with room for one. */
  lemma {:induction false} RecentIffOrderly<K, V>(ops: seq<Op<K, V>>, limit: nat)
    requires limit >= 1
    ensures HoldsRecent(ops, limit) <==> AllOrderly(ops, limit)
    decreases |ops|
  {
    if ops != [] {
      RecentIffOrderly(ops[..|ops| - 1], limit);
      if HoldsRecent(ops[..|ops| - 1], limit) {
        OneCall(ops, limit);
      }
    }
  }

  /** Gets, moving puts and clears: the cache is the front of the list in order of last use. */
  lemma {:induction false} CacheIsMostRecentlyUsed<K, V>(ops: seq<Op<K, V>>, limit: nat)
    requires limit >= 1 && forall op | op in ops :: !op.PutOther?
    ensures Cached(ops, limit) == FirstOf(Used(ops, limit), limit)
  {
    NoOthersOrderly(ops, limit);
    RecentIffOrderly(ops, limit);
  }

  lemma {:induction false} NoOthersOrderly<K, V>(ops: seq<Op<K, V>>, limit: nat)
    requires forall op | op in ops :: !op.PutOther?
    ensures AllOrderly(ops, limit)
    decreases |ops|
  {
    if ops != [] {
      NoOthersOrderly(ops[..|ops| - 1], limit);
    }
  }

  /** What the other overloads break: the entry put last survives the next new entry only if
      there was room for both. */
  lemma PutBackIsNextVictim<K, V>(s: Entries<K, V>, limit: nat, key: K, v: V, other: K, w: V)
    requires limit >= 1 && |s| <= limit
    requires !Has(s, key) && !Has(s, other) && key != other
    ensures Has(PutBack(PutBack(s, key, v, limit), other, w, limit), key) <==> |s| + 1 < limit
    ensures Has(PutFront(PutBack(s, key, v, limit), other, w, limit), key) <==> |s| + 1 < limit
  {
    var t := PutBack(s, key, v, limit);
    Absent(s, other);
    Absent(s, key);
    NotThere(t, other);
    if |s| + 1 < limit {
      assert t == s + [(key, v)];
      There(t + [(other, w)], |s|, key);
      There([(other, w)] + t, |s| + 1, key);
    } else {
      NotThere(t[..|t| - 1] + [(other, w)], key);
      NotThere([(other, w)] + t[..|t| - 1], key);
    }
  }

  lemma Absent<K, V>(s: Entries<K, V>, key: K)
    requires !Has(s, key)
    ensures forall j | 0 <= j < |s| :: s[j].0 != key
  {
  }

  lemma NotThere<K, V>(s: Entries<K, V>, key: K)
    requires forall j | 0 <= j < |s| :: s[j].0 != key
    ensures !Has(s, key)
  {
  }

  lemma There<K, V>(s: Entries<K, V>, j: nat, key: K)
    requires j < |s| && s[j].0 == key
    ensures Has(s, key)
  {
  }
}
