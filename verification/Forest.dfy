/** What the rows of a joined query stand for: per level of nesting, the messages in the order
    in which they were first seen, each with the message it belongs to. */
module Forests {
  import opened Common
  import opened Rows

  /** A message of some level: its id and the id of its parent on the level above. */
  datatype Link = Link(parent: Option<int>, id: int)

  type Levels = seq<seq<Link>>

  predicate HasId(links: seq<Link>, id: int) {
    exists l | l in links :: l.id == id
  }

  /** The message (k, id) turns up below `parent`; only the first time counts. */
  function Visit(levels: Levels, k: nat, parent: Option<int>, id: int): (r: Levels)
    requires k <= |levels|
    ensures |r| == if k == |levels| then k + 1 else |levels|
  {
    if k == |levels| then levels + [[Link(parent, id)]]
    else if HasId(levels[k], id) then levels
    else levels[k := levels[k] + [Link(parent, id)]]
  }

  /** One row: the ids it names from level `k` on. */
  function VisitPath(levels: Levels, k: nat, parent: Option<int>, path: seq<int>): (r: Levels)
    requires k <= |levels|
    ensures |r| >= |levels|
    decreases |path|
  {
    if path == [] then levels
    else VisitPath(Visit(levels, k, parent, path[0]), k + 1, Some(path[0]), path[1..])
  }

  function VisitAll(paths: seq<seq<int>>): Levels {
    if paths == [] then []
    else VisitPath(VisitAll(paths[..|paths| - 1]), 0, None, paths[|paths| - 1])
  }

  /** The ids of the messages below message `id` of the level above these links. */
  function ChildIds(links: seq<Link>, id: int): seq<int> {
    if links == [] then []
    else
      var n := |links| - 1;
      ChildIds(links[..n], id) + if links[n].parent == Some(id) then [links[n].id] else []
  }

  function Ids(links: seq<Link>): (ids: seq<int>)
    ensures |ids| == |links| && forall i | 0 <= i < |ids| :: ids[i] == links[i].id
  {
    seq(|links|, i requires 0 <= i < |links| => links[i].id)
  }

  // ------------------------------------------------------------------ first-seen order

  function LinkOf(path: seq<int>, k: nat): Link
    requires k < |path|
  {
    Link(if k == 0 then None else Some(path[k - 1]), path[k])
  }

  /** The links of level `k`, said directly: row by row, each id when it is first seen. */
  function FirstSeen(paths: seq<seq<int>>, k: nat): seq<Link> {
    if paths == [] then []
    else
      var before, p := FirstSeen(paths[..|paths| - 1], k), paths[|paths| - 1];
      if k < |p| && !HasId(before, p[k]) then before + [LinkOf(p, k)] else before
  }

  function LevelOr(levels: Levels, k: nat): seq<Link> {
    if k < |levels| then levels[k] else []
  }

  lemma VisitLevel(levels: Levels, k: nat, parent: Option<int>, id: int, j: nat)
    requires k <= |levels|
    ensures LevelOr(Visit(levels, k, parent, id), j) ==
      if j == k && !HasId(LevelOr(levels, k), id) then LevelOr(levels, k) + [Link(parent, id)] else LevelOr(levels, j)
  {
  }

  lemma {:induction false} PathLevel(levels: Levels, k: nat, parent: Option<int>, path: seq<int>, j: nat)
    requires k <= |levels|
    ensures j < k || j >= k + |path| ==> LevelOr(VisitPath(levels, k, parent, path), j) == LevelOr(levels, j)
    ensures k <= j < k + |path| ==>
      LevelOr(VisitPath(levels, k, parent, path), j) ==
        if HasId(LevelOr(levels, j), path[j - k]) then LevelOr(levels, j)
        else LevelOr(levels, j) + [Link(if j == k then parent else Some(path[j - k - 1]), path[j - k])]
    decreases |path|
  {
    if path != [] {
      var levels' := Visit(levels, k, parent, path[0]);
      VisitLevel(levels, k, parent, path[0], j);
      PathLevel(levels', k + 1, Some(path[0]), path[1..], j);
    }
  }

  /** Folding the rows in one by one gives, on every level, the first-seen links. */
  lemma {:induction false} VisitAllIsFirstSeen(paths: seq<seq<int>>, k: nat)
    ensures LevelOr(VisitAll(paths), k) == FirstSeen(paths, k)
    decreases |paths|
  {
    if paths != [] {
      VisitAllIsFirstSeen(paths[..|paths| - 1], k);
      PathLevel(VisitAll(paths[..|paths| - 1]), 0, None, paths[|paths| - 1], k);
    }
  }

  /** Every id of a level has exactly one link, made by the first row that names it there, and
      links are in the order of those rows. */
  lemma {:induction false} FirstSeenOnce(paths: seq<seq<int>>, k: nat)
    ensures forall i, j | 0 <= i < j < |FirstSeen(paths, k)| :: FirstSeen(paths, k)[i].id != FirstSeen(paths, k)[j].id
    decreases |paths|
  {
    if paths != [] {
      FirstSeenOnce(paths[..|paths| - 1], k);
    }
  }

  lemma {:induction false} FirstSeenFrom(paths: seq<seq<int>>, k: nat, id: int) returns (r: nat)
    requires exists p | p in paths :: Names(p, k, id)
    ensures r < |paths| && Names(paths[r], k, id) && forall q | 0 <= q < r :: !Names(paths[q], k, id)
    ensures LinkOf(paths[r], k) in FirstSeen(paths, k)
    ensures HasId(FirstSeen(paths, k), id)
    decreases |paths|
  {
    var n := |paths| - 1;
    var init := paths[..n];
    if p :| p in init && Names(p, k, id) {
      r := FirstSeenFrom(init, k, id);
    } else {
      r := n;
      assert Names(paths[n], k, id);
      assert !HasId(FirstSeen(init, k), id) by {
        if HasId(FirstSeen(init, k), id) {
          OnlyNamed(init, k, id);
        }
      }
      assert LinkOf(paths[n], k) in FirstSeen(paths, k);
    }
  }

  lemma {:induction false} OnlyNamed(paths: seq<seq<int>>, k: nat, id: int)
    ensures HasId(FirstSeen(paths, k), id) ==> exists p | p in paths :: Names(p, k, id)
    decreases |paths|
  {
    if paths != [] && HasId(FirstSeen(paths, k), id) {
      var n := |paths| - 1;
      OnlyNamed(paths[..n], k, id);
      if HasId(FirstSeen(paths[..n], k), id) {
        var p :| p in paths[..n] && Names(p, k, id);
        assert p in paths;
      } else {
        assert Names(paths[n], k, id);
      }
    }
  }

  /** Row `q` is the first that names the id. */
  ghost predicate FirstNamed(paths: seq<seq<int>>, q: nat, k: nat, id: int) {
    q < |paths| && Names(paths[q], k, id) && forall r | 0 <= r < q :: !Names(paths[r], k, id)
  }

  /** Links stand in the order of the rows that name them first. */
  lemma {:induction false} FirstSeenInOrder(paths: seq<seq<int>>, k: nat, i: nat, j: nat) returns (r: nat, q: nat)
    requires i < j < |FirstSeen(paths, k)|
    ensures r < q && FirstNamed(paths, r, k, FirstSeen(paths, k)[i].id) && FirstNamed(paths, q, k, FirstSeen(paths, k)[j].id)
    decreases |paths|
  {
    var n := |paths| - 1;
    var init := paths[..n];
    var before := FirstSeen(init, k);
    if j < |before| {
      r, q := FirstSeenInOrder(init, k, i, j);
    } else {
      assert before[i] in before;
      OnlyNamed(init, k, before[i].id);
      r := FirstSeenFrom(init, k, before[i].id);
      q := n;
      var id := paths[n][k];
      forall p | 0 <= p < n ensures !Names(paths[p], k, id) {
        assert paths[p] in init;
        if Names(paths[p], k, id) {
          var x := FirstSeenFrom(init, k, id);
        }
      }
    }
  }

  lemma {:induction false} ChildIdsInOrder(links: seq<Link>, parent: int, i: nat, j: nat) returns (a: nat, b: nat)
    requires i < j < |ChildIds(links, parent)|
    ensures a < b < |links| && links[a].id == ChildIds(links, parent)[i] && links[b].id == ChildIds(links, parent)[j]
    decreases |links|
  {
    var n := |links| - 1;
    var init := ChildIds(links[..n], parent);
    if j < |init| {
      a, b := ChildIdsInOrder(links[..n], parent, i, j);
    } else {
      b := n;
      a := ChildIdAt(links[..n], parent, i);
    }
  }

  lemma {:induction false} ChildIdAt(links: seq<Link>, parent: int, i: nat) returns (a: nat)
    requires i < |ChildIds(links, parent)|
    ensures a < |links| && links[a].id == ChildIds(links, parent)[i]
    decreases |links|
  {
    var n := |links| - 1;
    if i < |ChildIds(links[..n], parent)| {
      a := ChildIdAt(links[..n], parent, i);
    } else {
      a := n;
    }
  }

  // ------------------------------------------------------------------ everything has its parent

  /** Messages below the first level name a message of the level above as their parent. */
  ghost predicate Rooted(levels: Levels) {
    forall k | 0 < k < |levels| :: RootedAt(levels, k)
  }

  ghost predicate RootedAt(levels: Levels, k: nat)
    requires 0 < k < |levels|
  {
    forall l | l in levels[k] :: l.parent.Some? && HasId(levels[k - 1], l.parent.value)
  }

  lemma VisitHas(levels: Levels, k: nat, parent: Option<int>, id: int, j: nat, i: int)
    requires k <= |levels|
    ensures HasId(LevelOr(Visit(levels, k, parent, id), j), i) <==> HasId(LevelOr(levels, j), i) || (j == k && i == id)
  {
    VisitLevel(levels, k, parent, id, j);
    var before, after := LevelOr(levels, j), LevelOr(Visit(levels, k, parent, id), j);
    if HasId(before, i) {
      var l :| l in before && l.id == i;
      assert l in after;
    }
    if j == k && i == id && !HasId(before, id) {
      assert Link(parent, id) in after;
    }
  }

  lemma VisitRooted(levels: Levels, k: nat, parent: Option<int>, id: int)
    requires Rooted(levels) && k <= |levels|
    requires k > 0 ==> parent.Some? && HasId(levels[k - 1], parent.value)
    ensures Rooted(Visit(levels, k, parent, id))
  {
    var levels' := Visit(levels, k, parent, id);
    forall j: int, l: Link | 0 < j < |levels'| && l in levels'[j] ensures l.parent.Some? && HasId(levels'[j - 1], l.parent.value) {
      assert j < |levels| ==> RootedAt(levels, j);
      VisitLevel(levels, k, parent, id, j);
      assert l in LevelOr(levels, j) || (j == k && l == Link(parent, id));
      VisitHas(levels, k, parent, id, j - 1, l.parent.value);
    }
  }

  lemma {:induction false} NoChildIds(links: seq<Link>, id: int)
    requires forall l | l in links :: l.parent != Some(id)
    ensures ChildIds(links, id) == []
    decreases |links|
  {
    if links != [] {
      NoChildIds(links[..|links| - 1], id);
    }
  }

  /** A message that is not there has no children yet. */
  lemma NoChildren(levels: Levels, k: nat, id: int)
    requires Rooted(levels) && !HasId(LevelOr(levels, k), id)
    ensures ChildIds(LevelOr(levels, k + 1), id) == []
  {
    assert k + 1 < |levels| ==> RootedAt(levels, k + 1);
    NoChildIds(LevelOr(levels, k + 1), id);
  }
}
