/** Datatypes and sequence helpers shared by the modules. */
module Common {

  type Byte = b: nat | b < 256

  datatype Option<+T> = None | Some(value: T)

  function Min(a: nat, b: nat): nat {
    if a < b then a else b
  }

  /** The first `n` elements of `s`, or all of it when it is shorter. */
  function FirstOf<T>(s: seq<T>, n: nat): (r: seq<T>)
    ensures r <= s && |r| == Min(n, |s|)
  {
    s[..Min(n, |s|)]
  }

  /** What is left of `s` after its first `n` elements are taken. */
  function AllAfter<T>(s: seq<T>, n: nat): (r: seq<T>)
    ensures FirstOf(s, n) + r == s
  {
    s[Min(n, |s|)..]
  }

  /** The last `n` elements of `s`, or all of it when it is shorter. */
  function LastOf<T>(s: seq<T>, n: nat): (r: seq<T>)
    ensures |r| == Min(n, |s|)
  {
    s[|s| - Min(n, |s|)..]
  }

  /** What is left of `s` after its last `n` elements are taken. */
  function AllBut<T>(s: seq<T>, n: nat): (r: seq<T>)
    ensures r + LastOf(s, n) == s
  {
    s[..|s| - Min(n, |s|)]
  }

  lemma Regrouped<T>(x: seq<T>, y: seq<T>, z: seq<T>)
    ensures x + y + z == x + (y + z)
  {
  }

  /** The elements of all parts, in order. */
  function Flattened<T>(parts: seq<seq<T>>): seq<T> {
    if parts == [] then [] else parts[0] + Flattened(parts[1..])
  }

  lemma FlattenedOne<T>(part: seq<T>)
    ensures Flattened([part]) == part
  {
    assert Flattened([part]) == part + Flattened([]);
  }

  lemma {:induction false} FlattenedTwo<T>(a: seq<seq<T>>, b: seq<seq<T>>)
    ensures Flattened(a + b) == Flattened(a) + Flattened(b)
    decreases |a|
  {
    if a == [] {
      assert a + b == b;
    } else {
      FlattenedTwo(a[1..], b);
      assert (a + b)[1..] == a[1..] + b;
      Regrouped(a[0], Flattened(a[1..]), Flattened(b));
    }
  }

  lemma FlattenedSnoc<T>(parts: seq<seq<T>>, part: seq<T>)
    ensures Flattened(parts + [part]) == Flattened(parts) + part
  {
    FlattenedTwo(parts, [part]);
    FlattenedOne(part);
  }
}
