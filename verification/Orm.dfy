/** From the rows of a joined query to a forest of messages. */
module Orm {
  import opened Common
  import opened Forests
  import opened Rows

  /** A message, pointed to by its index in the list of all messages ever made. `level` is
      the level it was made for, `children` what was added to its repeated fields. */
  datatype Message = Message(level: nat, id: int, fields: map<nat, int>, children: seq<nat>)

  type Tree = seq<map<int, nat>>

  // ------------------------------------------------------------------ representation

  /** One level of the tree finds exactly the messages of that level. */
  ghost predicate LevelFinds(ms: seq<Message>, k: nat, found: map<int, nat>, links: seq<Link>) {
    && (forall id :: id in found <==> HasId(links, id))
    && (forall id | id in found :: found[id] < |ms| && ms[found[id]].level == k && ms[found[id]].id == id)
  }

  ghost predicate IsFound(h: nat, m: Message, tree: Tree) {
    m.level < |tree| && m.id in tree[m.level] && tree[m.level][m.id] == h
  }

  /** The tree finds exactly the messages of the levels, and nothing else was made. */
  ghost predicate Indexed(ms: seq<Message>, tree: Tree, levels: Levels) {
    && |tree| == |levels|
    && (forall k {:trigger LevelFinds(ms, k, tree[k], levels[k])} | 0 <= k < |tree| :: LevelFinds(ms, k, tree[k], levels[k]))
    && (forall h {:trigger IsFound(h, ms[h], tree)} | 0 <= h < |ms| :: IsFound(h, ms[h], tree))
  }

  ghost predicate HasFields(m: Message, fm: FieldMap) {
    m.fields == FieldsOf(fm, m.level, m.id)
  }

  /** Every message has the field values of its place, and only messages have any. */
  ghost predicate Filled(ms: seq<Message>, tree: Tree, fm: FieldMap) {
    && (forall h {:trigger HasFields(ms[h], fm)} | 0 <= h < |ms| :: HasFields(ms[h], fm))
    && (forall k, id | (k, id) in fm :: id in TreeOr(tree, k))
  }

  function TreeOr(tree: Tree, k: nat): map<int, nat> {
    if k < |tree| then tree[k] else map[]
  }

  /** The children of a message are the messages first seen below it, in that order. */
  ghost predicate Lists(children: seq<nat>, below: map<int, nat>, ids: seq<int>) {
    |children| == |ids| && forall i | 0 <= i < |ids| :: ids[i] in below && below[ids[i]] == children[i]
  }

  ghost predicate Parents(m: Message, tree: Tree, levels: Levels) {
    Lists(m.children, TreeOr(tree, m.level + 1), ChildIds(LevelOr(levels, m.level + 1), m.id))
  }

  ghost predicate Attached(ms: seq<Message>, tree: Tree, levels: Levels, from: nat) {
    forall h {:trigger Parents(ms[h], tree, levels)} | 0 <= h < |ms| && ms[h].level >= from :: Parents(ms[h], tree, levels)
  }

  /** The messages stand for the levels; `from` excepts the levels above from the children. */
  ghost predicate Represents(ms: seq<Message>, tree: Tree, levels: Levels, fm: FieldMap, from: nat) {
    Indexed(ms, tree, levels) && Filled(ms, tree, fm) && Attached(ms, tree, levels, from) && Rooted(levels)
  }

  ghost predicate Extends(below: map<int, nat>, below': map<int, nat>) {
    forall id | id in below :: id in below' && below'[id] == below[id]
  }

  ghost predicate Above(ms: seq<Message>, ms': seq<Message>, k: nat, h: nat)
    requires h < |ms'|
  {
    ms'[h].level < k ==> h < |ms| && ms'[h] == ms[h]
  }

  /** What a call for level `k` leaves alone: everything above, and where things are found. */
  ghost predicate Kept(ms: seq<Message>, tree: Tree, ms': seq<Message>, tree': Tree, k: nat) {
    && |ms| <= |ms'| && |tree| <= |tree'|
    && (forall h {:trigger Above(ms, ms', k, h)} | 0 <= h < |ms'| :: Above(ms, ms', k, h))
    && (forall j {:trigger Extends(tree[j], tree'[j])} | 0 <= j < |tree| :: Extends(tree[j], tree'[j]))
  }

  lemma KeptTwice(ms: seq<Message>, tree: Tree, ms': seq<Message>, tree': Tree, ms'': seq<Message>, tree'': Tree, k: nat, k': nat)
    requires Kept(ms, tree, ms', tree', k) && Kept(ms', tree', ms'', tree'', k') && k <= k'
    ensures Kept(ms, tree, ms'', tree'', k)
  {
    forall h | 0 <= h < |ms''| ensures Above(ms, ms'', k, h) {
      assert Above(ms', ms'', k', h);
      assert h < |ms'| ==> Above(ms, ms', k, h);
    }
    forall j | 0 <= j < |tree| ensures Extends(tree[j], tree''[j]) {
      assert Extends(tree[j], tree'[j]) && Extends(tree'[j], tree''[j]);
    }
  }

  // ------------------------------------------------------------------ the three kinds of change

  /** A new message is made for level `k` and entered in the tree. */
  lemma MakeIndexed(ms: seq<Message>, tree: Tree, levels: Levels, k: nat, parent: Option<int>, id: int)
    requires Indexed(ms, tree, levels) && k <= |tree| && !HasId(LevelOr(levels, k), id)
    ensures Indexed(ms + [Message(k, id, map[], [])], Enter(tree, k, id, |ms|), Visit(levels, k, parent, id))
  {
    var ms', tree', levels' := ms + [Message(k, id, map[], [])], Enter(tree, k, id, |ms|), Visit(levels, k, parent, id);
    forall j | 0 <= j < |tree'| ensures LevelFinds(ms', j, tree'[j], levels'[j]) {
      assert j < |tree| ==> LevelFinds(ms, j, tree[j], levels[j]);
      forall i ensures i in tree'[j] <==> HasId(levels'[j], i) {
        VisitHas(levels, k, parent, id, j, i);
      }
    }
    assert k < |tree| ==> LevelFinds(ms, k, tree[k], levels[k]);
    forall h | 0 <= h < |ms'| ensures IsFound(h, ms'[h], tree') {
      assert h < |ms| ==> IsFound(h, ms[h], tree);
    }
  }

  /** The tree with the message `h` entered, on a new level if need be. */
  function Enter(tree: Tree, k: nat, id: int, h: nat): (r: Tree)
    requires k <= |tree|
    ensures |r| == if k == |tree| then k + 1 else |tree|
    ensures forall j | 0 <= j < |r| :: r[j] == if j == k then TreeOr(tree, k)[id := h] else tree[j]
  {
    var m: map<int, nat> := TreeOr(tree, k)[id := h];
    if k == |tree| then tree + [m] else tree[k := m]
  }

  lemma MakeFilled(ms: seq<Message>, tree: Tree, levels: Levels, fm: FieldMap, k: nat, id: int)
    requires Indexed(ms, tree, levels) && Filled(ms, tree, fm) && k <= |tree| && !HasId(LevelOr(levels, k), id)
    ensures Filled(ms + [Message(k, id, map[], [])], Enter(tree, k, id, |ms|), fm)
  {
    assert k < |tree| ==> LevelFinds(ms, k, tree[k], levels[k]);
    assert (k, id) !in fm;
    var ms' := ms + [Message(k, id, map[], [])];
    forall h | 0 <= h < |ms'| ensures HasFields(ms'[h], fm) {
      assert h < |ms| ==> HasFields(ms[h], fm);
    }
  }

  lemma MakeAttached(ms: seq<Message>, tree: Tree, levels: Levels, k: nat, parent: Option<int>, id: int)
    requires Indexed(ms, tree, levels) && Attached(ms, tree, levels, k) && Rooted(levels)
    requires k <= |tree| && !HasId(LevelOr(levels, k), id)
    ensures Attached(ms + [Message(k, id, map[], [])], Enter(tree, k, id, |ms|), Visit(levels, k, parent, id), k)
  {
    var ms', tree', levels' := ms + [Message(k, id, map[], [])], Enter(tree, k, id, |ms|), Visit(levels, k, parent, id);
    forall h | 0 <= h < |ms'| && ms'[h].level >= k
      ensures Parents(ms'[h], tree', levels')
    {
      VisitLevel(levels, k, parent, id, ms'[h].level + 1);
      if h == |ms| {
        NoChildren(levels, k, id);
      } else {
        assert Parents(ms[h], tree, levels);
        assert IsFound(h, ms[h], tree);
      }
    }
  }

  /** Changes to fields and children leave what is indexed. */
  ghost predicate SamePlaces(ms: seq<Message>, ms': seq<Message>) {
    |ms'| == |ms| && forall h | 0 <= h < |ms| :: ms'[h].level == ms[h].level && ms'[h].id == ms[h].id
  }

  lemma SameIndexed(ms: seq<Message>, ms': seq<Message>, tree: Tree, levels: Levels)
    requires Indexed(ms, tree, levels) && SamePlaces(ms, ms')
    ensures Indexed(ms', tree, levels)
  {
    forall k | 0 <= k < |tree| ensures LevelFinds(ms', k, tree[k], levels[k]) {
      assert LevelFinds(ms, k, tree[k], levels[k]);
    }
    forall h | 0 <= h < |ms'| ensures IsFound(h, ms'[h], tree) {
      assert IsFound(h, ms[h], tree);
    }
  }

  /** A column sets a field of message `h`. */
  lemma SetFilled(ms: seq<Message>, tree: Tree, levels: Levels, fm: FieldMap, h: nat, fields: map<nat, int>)
    requires Indexed(ms, tree, levels) && Filled(ms, tree, fm) && h < |ms|
    ensures Filled(ms[h := ms[h].(fields := fields)], tree, fm[(ms[h].level, ms[h].id) := fields])
  {
    var ms', fm' := ms[h := ms[h].(fields := fields)], fm[(ms[h].level, ms[h].id) := fields];
    assert IsFound(h, ms[h], tree);
    forall g | 0 <= g < |ms'| ensures HasFields(ms'[g], fm') {
      assert IsFound(g, ms[g], tree) && HasFields(ms[g], fm);
    }
  }

  lemma SetAttached(ms: seq<Message>, tree: Tree, levels: Levels, k: nat, h: nat, fields: map<nat, int>)
    requires Attached(ms, tree, levels, k) && h < |ms|
    ensures Attached(ms[h := ms[h].(fields := fields)], tree, levels, k)
  {
    var ms' := ms[h := ms[h].(fields := fields)];
    forall g | 0 <= g < |ms'| && ms'[g].level >= k ensures Parents(ms'[g], tree, levels) {
      assert Parents(ms[g], tree, levels);
    }
  }

  lemma SetRepresents(ms: seq<Message>, tree: Tree, levels: Levels, fm: FieldMap, k: nat, h: nat, fields: map<nat, int>)
    requires Represents(ms, tree, levels, fm, k) && h < |ms|
    ensures Represents(ms[h := ms[h].(fields := fields)], tree, levels, fm[(ms[h].level, ms[h].id) := fields], k)
  {
    SameIndexed(ms, ms[h := ms[h].(fields := fields)], tree, levels);
    SetFilled(ms, tree, levels, fm, h, fields);
    SetAttached(ms, tree, levels, k, h, fields);
  }

  /** A message first seen just now below message `h` is added to its children. */
  lemma AttachFilled(ms: seq<Message>, tree: Tree, fm: FieldMap, h: nat, children: seq<nat>)
    requires Filled(ms, tree, fm) && h < |ms|
    ensures Filled(ms[h := ms[h].(children := children)], tree, fm)
  {
    var ms' := ms[h := ms[h].(children := children)];
    forall g | 0 <= g < |ms'| ensures HasFields(ms'[g], fm) {
      assert HasFields(ms[g], fm);
    }
  }

  lemma AttachAttached(ms: seq<Message>, tree: Tree, levels: Levels, k: nat, h: nat, children: seq<nat>)
    requires Attached(ms, tree, levels, k + 1) && h < |ms| && ms[h].level == k
    requires Parents(ms[h].(children := children), tree, levels)
    requires forall g {:trigger Parents(ms[g], tree, levels)} | 0 <= g < |ms| && g != h && ms[g].level == k :: Parents(ms[g], tree, levels)
    ensures Attached(ms[h := ms[h].(children := children)], tree, levels, k)
  {
    var ms' := ms[h := ms[h].(children := children)];
    forall g | 0 <= g < |ms'| && ms'[g].level >= k ensures Parents(ms'[g], tree, levels) {
      assert g != h ==> Parents(ms[g], tree, levels);
    }
  }

  // ------------------------------------------------------------------ back from the level below

  /** A message is found again by its place, however much was added meanwhile. */
  lemma StaysPut(ms: seq<Message>, tree: Tree, levels: Levels, ms': seq<Message>, tree': Tree, levels': Levels, k: nat, h: nat)
    requires Indexed(ms, tree, levels) && Indexed(ms', tree', levels') && Kept(ms, tree, ms', tree', k)
    requires h < |ms|
    ensures ms'[h].level == ms[h].level && ms'[h].id == ms[h].id
    ensures ms[h].level < k ==> ms'[h] == ms[h]
  {
    var j := ms[h].level;
    assert IsFound(h, ms[h], tree) && Extends(tree[j], tree'[j]);
    assert LevelFinds(ms', j, tree'[j], levels'[j]) && Above(ms, ms', k, h);
  }

  /** Another link below the same or another message. */
  lemma MoreChildIds(links: seq<Link>, l: Link, id: int)
    ensures ChildIds(links + [l], id) == ChildIds(links, id) + if l.parent == Some(id) then [l.id] else []
  {
    assert (links + [l])[..|links|] == links;
  }

  function IfNew(links: seq<Link>, parent: int, path: seq<int>): seq<Link> {
    if path == [] || HasId(links, path[0]) then links else links + [Link(Some(parent), path[0])]
  }

  lemma LevelBelow(levels: Levels, k: nat, id: int, path: seq<int>)
    requires k < |levels|
    ensures LevelOr(VisitPath(levels, k + 1, Some(id), path), k + 1) == IfNew(LevelOr(levels, k + 1), id, path)
  {
    PathLevel(levels, k + 1, Some(id), path, k + 1);
  }

  lemma {:induction false} ListsGrow(children: seq<nat>, below: map<int, nat>, below': map<int, nat>, ids: seq<int>)
    requires Lists(children, below, ids) && Extends(below, below')
    ensures Lists(children, below', ids)
  {
    forall i | 0 <= i < |ids| ensures ids[i] in below' && below'[ids[i]] == children[i] {
      var id: int := ids[i];
      assert id in below && below[id] == children[i];
      assert id in below' && below'[id] == below[id];
    }
  }

  lemma BelowKept(ms: seq<Message>, tree: Tree, ms': seq<Message>, tree': Tree, k: nat, j: nat)
    requires Kept(ms, tree, ms', tree', k)
    ensures Extends(TreeOr(tree, j), TreeOr(tree', j))
  {
    assert j < |tree| ==> Extends(tree[j], tree'[j]);
  }

  /** What the row names below message `id` is listed by that message, if it is new, and by
      no other. */
  lemma ListsKept(m: Message, below: map<int, nat>, below': map<int, nat>, links: seq<Link>, id: int, path: seq<int>)
    requires Lists(m.children, below, ChildIds(links, m.id)) && Extends(below, below')
    requires m.id != id || path == [] || HasId(links, path[0])
    ensures Lists(m.children, below', ChildIds(IfNew(links, id, path), m.id))
  {
    ListsGrow(m.children, below, below', ChildIds(links, m.id));
    if path != [] {
      MoreChildIds(links, Link(Some(id), path[0]), m.id);
    }
  }

  lemma ListsMore(m: Message, below: map<int, nat>, below': map<int, nat>, links: seq<Link>, path: seq<int>)
    requires Lists(m.children, below, ChildIds(links, m.id)) && Extends(below, below')
    requires path != [] && !HasId(links, path[0]) && path[0] in below'
    ensures Lists(m.children + [below'[path[0]]], below', ChildIds(IfNew(links, m.id, path), m.id))
  {
    ListsGrow(m.children, below, below', ChildIds(links, m.id));
    MoreChildIds(links, Link(Some(m.id), path[0]), m.id);
  }

  /** The children of `h` once the row's message below it, if there is one, is known. */
  function ChildrenWith(m: Message, below: map<int, nat>, links: seq<Link>, path: seq<int>): seq<nat> {
    if path != [] && !HasId(links, path[0]) && path[0] in below then m.children + [below[path[0]]] else m.children
  }

  lemma OthersKept(ms: seq<Message>, tree: Tree, levels: Levels, ms': seq<Message>, tree': Tree, levels': Levels,
                   k: nat, h: nat, g: nat, path: seq<int>)
    requires h < |ms| && g < |ms| && g != h && ms[h].level == ms[g].level == k && Indexed(ms, tree, levels)
    requires Parents(ms[g], tree, levels) && Extends(TreeOr(tree, k + 1), TreeOr(tree', k + 1))
    requires LevelOr(levels', k + 1) == IfNew(LevelOr(levels, k + 1), ms[h].id, path)
    ensures Parents(ms[g], tree', levels')
  {
    SamePlaceSame(ms, tree, levels, g, h);
    ListsKept(ms[g], TreeOr(tree, k + 1), TreeOr(tree', k + 1), LevelOr(levels, k + 1), ms[h].id, path);
  }

  lemma OwnGrows(m: Message, tree: Tree, levels: Levels, tree': Tree, levels': Levels, path: seq<int>)
    requires Parents(m, tree, levels) && Extends(TreeOr(tree, m.level + 1), TreeOr(tree', m.level + 1))
    requires LevelOr(levels', m.level + 1) == IfNew(LevelOr(levels, m.level + 1), m.id, path)
    requires path != [] ==> path[0] in TreeOr(tree', m.level + 1)
    ensures Parents(m.(children := ChildrenWith(m, TreeOr(tree', m.level + 1), LevelOr(levels, m.level + 1), path)), tree', levels')
  {
    var links := LevelOr(levels, m.level + 1);
    if path != [] && !HasId(links, path[0]) {
      ListsMore(m, TreeOr(tree, m.level + 1), TreeOr(tree', m.level + 1), links, path);
    } else {
      ListsKept(m, TreeOr(tree, m.level + 1), TreeOr(tree', m.level + 1), links, m.id, path);
    }
  }

  lemma AllOthersKept(ms: seq<Message>, tree: Tree, levels: Levels, ms': seq<Message>, tree': Tree, levels': Levels,
                      k: nat, h: nat, path: seq<int>)
    requires h < |ms| && ms[h].level == k && Indexed(ms, tree, levels) && Attached(ms, tree, levels, k)
    requires Kept(ms, tree, ms', tree', k + 1) && Extends(TreeOr(tree, k + 1), TreeOr(tree', k + 1))
    requires LevelOr(levels', k + 1) == IfNew(LevelOr(levels, k + 1), ms[h].id, path)
    ensures forall g {:trigger Parents(ms'[g], tree', levels')} | 0 <= g < |ms'| && g != h && ms'[g].level == k :: Parents(ms'[g], tree', levels')
  {
    forall g | 0 <= g < |ms'| && g != h && ms'[g].level == k ensures Parents(ms'[g], tree', levels') {
      assert Above(ms, ms', k + 1, g) && Parents(ms[g], tree, levels);
      OthersKept(ms, tree, levels, ms', tree', levels', k, h, g, path);
    }
  }

  /** The message found below is added to the children of `h` if it is new. */
  lemma Adopted(ms: seq<Message>, tree: Tree, levels: Levels, fm: FieldMap,
                ms': seq<Message>, tree': Tree, levels': Levels, fm': FieldMap, k: nat, h: nat, path: seq<int>)
    requires h < |ms| && ms[h].level == k < |levels| && Represents(ms, tree, levels, fm, k)
    requires levels' == VisitPath(levels, k + 1, Some(ms[h].id), path)
    requires Represents(ms', tree', levels', fm', k + 1) && Kept(ms, tree, ms', tree', k + 1)
    requires path != [] ==> path[0] in TreeOr(tree', k + 1)
    ensures h < |ms'| && ms'[h] == ms[h]
    ensures Represents(ms'[h := ms'[h].(children := ChildrenWith(ms[h], TreeOr(tree', k + 1), LevelOr(levels, k + 1), path))],
                       tree', levels', fm', k)
  {
    var children := ChildrenWith(ms[h], TreeOr(tree', k + 1), LevelOr(levels, k + 1), path);
    StaysPut(ms, tree, levels, ms', tree', levels', k + 1, h);
    BelowKept(ms, tree, ms', tree', k + 1, k + 1);
    LevelBelow(levels, k, ms[h].id, path);
    AllOthersKept(ms, tree, levels, ms', tree', levels', k, h, path);
    assert Parents(ms[h], tree, levels);
    OwnGrows(ms[h], tree, levels, tree', levels', path);
    AttachAttached(ms', tree', levels', k, h, children);
    AttachFilled(ms', tree', fm', h, children);
    SameIndexed(ms', ms'[h := ms'[h].(children := children)], tree', levels');
  }

  lemma SamePlaceSame(ms: seq<Message>, tree: Tree, levels: Levels, g: nat, h: nat)
    requires Indexed(ms, tree, levels) && g < |ms| && h < |ms|
    ensures g != h ==> ms[g].level != ms[h].level || ms[g].id != ms[h].id
  {
    assert IsFound(g, ms[g], tree) && IsFound(h, ms[h], tree);
  }

  // ------------------------------------------------------------------ making messages

  /** The ids of the row from a column that is not null, spelled out. */
  lemma PathStep(levels: Levels, k: nat, parent: Option<int>, elements: seq<Element>, r: Row, col: nat)
    requires Fits(elements, r, col) && col < |r| && r[col].Some? && k <= |levels|
    ensures Path(elements, r, col) != [] && Path(elements, r, col)[0] == r[col].value
    ensures VisitPath(levels, k, parent, Path(elements, r, col)) ==
      VisitPath(Visit(levels, k, parent, r[col].value), k + 1, Some(r[col].value), PathRest(elements[1..], r, col + 1))
  {
    assert Path(elements, r, col)[1..] == PathRest(elements[1..], r, col + 1);
  }

  lemma Made(ms: seq<Message>, tree: Tree, levels: Levels, fm: FieldMap, k: nat, parent: Option<int>, id: int)
    requires Represents(ms, tree, levels, fm, k) && k <= |tree| && !HasId(LevelOr(levels, k), id)
    requires k > 0 ==> parent.Some? && HasId(levels[k - 1], parent.value)
    ensures Represents(ms + [Message(k, id, map[], [])], Enter(tree, k, id, |ms|), Visit(levels, k, parent, id), fm, k)
  {
    MakeIndexed(ms, tree, levels, k, parent, id);
    MakeFilled(ms, tree, levels, fm, k, id);
    MakeAttached(ms, tree, levels, k, parent, id);
    VisitRooted(levels, k, parent, id);
  }

  lemma MadeKept(ms: seq<Message>, tree: Tree, levels: Levels, k: nat, id: int)
    requires Indexed(ms, tree, levels) && k <= |tree| && !HasId(LevelOr(levels, k), id)
    ensures Kept(ms, tree, ms + [Message(k, id, map[], [])], Enter(tree, k, id, |ms|), k)
  {
    var ms', tree' := ms + [Message(k, id, map[], [])], Enter(tree, k, id, |ms|);
    assert k < |tree| ==> LevelFinds(ms, k, tree[k], levels[k]);
    forall h | 0 <= h < |ms'| ensures Above(ms, ms', k, h) {
    }
    forall j | 0 <= j < |tree| ensures Extends(tree[j], tree'[j]) {
    }
  }

  lemma ChangedKept(ms: seq<Message>, tree: Tree, ms': seq<Message>, tree': Tree, h: nat, m: Message, k: nat)
    requires Kept(ms, tree, ms', tree', k) && h < |ms'| && m.level == k && ms'[h].level == k
    ensures Kept(ms, tree, ms'[h := m], tree', k)
  {
    var changed := ms'[h := m];
    forall g | 0 <= g < |changed| ensures Above(ms, changed, k, g) {
      assert Above(ms, ms', k, g);
    }
  }

  lemma KeptAbove(ms: seq<Message>, tree: Tree, ms': seq<Message>, tree': Tree, k: nat)
    requires Kept(ms, tree, ms', tree', k + 1)
    ensures Kept(ms, tree, ms', tree', k)
  {
    forall g | 0 <= g < |ms'| ensures Above(ms, ms', k, g) {
      assert Above(ms, ms', k + 1, g);
    }
  }

  class Builder {
    var messages: seq<Message>
    var tree: Tree

    constructor ()
      ensures messages == [] && tree == []
    {
      messages, tree := [], [];
    }

    /** The message of level `k` with this id, made now unless an earlier row made it. */
    method FindOrMake(id: int, k: nat, ghost parent: Option<int>, ghost levels: Levels, ghost fm: FieldMap)
      returns (h: nat, isNew: bool)
      requires Represents(messages, tree, levels, fm, k) && k <= |tree|
      requires k > 0 ==> parent.Some? && HasId(levels[k - 1], parent.value)
      modifies this
      ensures Represents(messages, tree, Visit(levels, k, parent, id), fm, k)
      ensures Kept(old(messages), old(tree), messages, tree, k)
      ensures k < |tree| && id in tree[k] && tree[k][id] == h
      ensures isNew <==> !HasId(LevelOr(levels, k), id)
    {
      assert k < |tree| ==> LevelFinds(messages, k, tree[k], levels[k]);
      if k == |tree| {
        Made(messages, tree, levels, fm, k, parent, id);
        MadeKept(messages, tree, levels, k, id);
        h, isNew := |messages|, true;
        tree := Enter(tree, k, id, h);
        messages := messages + [Message(k, id, map[], [])];
      } else if id in tree[k] {
        h, isNew := tree[k][id], false;
      } else {
        Made(messages, tree, levels, fm, k, parent, id);
        MadeKept(messages, tree, levels, k, id);
        h, isNew := |messages|, true;
        tree := Enter(tree, k, id, h);
        messages := messages + [Message(k, id, map[], [])];
      }
    }

    /** Finds or makes the message at column `col` and everything to its right. Nothing is found
        if the column is null or past the end of the row. */
    method InnerMakeMessage(r: Row, col: nat, elements: seq<Element>, k: nat,
                            ghost parent: Option<int>, ghost levels: Levels, ghost fm: FieldMap)
      returns (m: Option<nat>, isNew: bool)
      requires Fits(elements, r, col)
      requires Represents(messages, tree, levels, fm, k) && k <= |tree|
      requires k > 0 ==> parent.Some? && HasId(levels[k - 1], parent.value)
      modifies this
      ensures Represents(messages, tree, VisitPath(levels, k, parent, Path(elements, r, col)), RowFields(fm, elements, r, col, k), k)
      ensures Kept(old(messages), old(tree), messages, tree, k)
      ensures m.None? <==> Path(elements, r, col) == []
      ensures m.Some? ==> Path(elements, r, col)[0] in TreeOr(tree, k) && TreeOr(tree, k)[Path(elements, r, col)[0]] == m.value
      ensures isNew <==> m.Some? && !HasId(LevelOr(levels, k), Path(elements, r, col)[0])
      decreases |r| - col, 0
    {
      m, isNew := None, false;
      if col < |r| && r[col].Some? {
        var id := r[col].value;
        var h: nat;
        PathStep(levels, k, parent, elements, r, col);
        h, isNew := FindOrMake(id, k, parent, levels, fm);
        ghost var made, entered := messages, tree;
        assert LevelFinds(messages, k, tree[k], Visit(levels, k, parent, id)[k]);
        InitMessage(h, elements[1..], r, col + 1, 1, k, id, Visit(levels, k, parent, id), fm);
        KeptTwice(old(messages), old(tree), made, entered, messages, tree, k, k);
        assert Extends(entered[k], tree[k]);
        m := Some(h);
      }
    }

    /** Fills in message `h` from the columns on; the first nested element takes the rest. */
    method InitMessage(h: nat, els: seq<Element>, r: Row, col: nat, fieldStart: nat, k: nat,
                       ghost id: int, ghost levels: Levels, ghost fm: FieldMap)
      requires FitsRest(els, r, col)
      requires Represents(messages, tree, levels, fm, k) && k < |tree|
      requires h < |messages| && messages[h].level == k && messages[h].id == id
      modifies this
      ensures Represents(messages, tree, VisitPath(levels, k + 1, Some(id), PathRest(els, r, col)),
                         RestFields(fm, els, r, col, fieldStart, k, id), k)
      ensures Kept(old(messages), old(tree), messages, tree, k)
      decreases |r| - col, 2
    {
      var elements, c, num := els, col, fieldStart;
      ghost var filled := fm;
      while c < |r|
        invariant col <= c && FitsRest(elements, r, c)
        invariant Represents(messages, tree, levels, filled, k) && tree == old(tree)
        invariant h < |messages| && messages[h].level == k && messages[h].id == id
        invariant Kept(old(messages), old(tree), messages, tree, k)
        invariant PathRest(els, r, col) == PathRest(elements, r, c)
        invariant RestFields(fm, els, r, col, fieldStart, k, id) == RestFields(filled, elements, r, c, num, k, id)
      {
        match elements[0]
        case Result =>
          ghost var before := messages;
          ParseField(h, num, r[c], k, id, levels, filled);
          KeptTwice(old(messages), old(tree), before, tree, messages, tree, k, k);
          filled := filled[(k, id) := SetField(FieldsOf(filled, k, id), num, r[c])];
          elements, c, num := elements[1..], c + 1, num + 1;
        case Nested(children) =>
          ghost var before := messages;
          AddNested(h, children, r, c, k, id, levels, filled);
          KeptTwice(old(messages), old(tree), before, old(tree), messages, tree, k, k);
          return;
        case Id =>
          assert false;
      }
    }

    /** Sets a field from a column, unless that is null. */
    method ParseField(h: nat, num: nat, cell: Option<int>, k: nat, ghost id: int, ghost levels: Levels, ghost fm: FieldMap)
      requires Represents(messages, tree, levels, fm, k)
      requires h < |messages| && messages[h].level == k && messages[h].id == id
      modifies this`messages
      ensures Represents(messages, tree, levels, fm[(k, id) := SetField(FieldsOf(fm, k, id), num, cell)], k)
      ensures h < |messages| && messages[h].level == k && messages[h].id == id
      ensures Kept(old(messages), tree, messages, tree, k)
    {
      var fields := SetField(messages[h].fields, num, cell);
      assert HasFields(messages[h], fm);
      SetRepresents(messages, tree, levels, fm, k, h, fields);
      ChangedKept(messages, tree, messages, tree, h, messages[h].(fields := fields), k);
      messages := messages[h := messages[h].(fields := fields)];
    }

    method AddNested(h: nat, children: seq<Element>, r: Row, col: nat, k: nat,
                     ghost id: int, ghost levels: Levels, ghost fm: FieldMap)
      requires Fits(children, r, col)
      requires Represents(messages, tree, levels, fm, k) && k < |tree|
      requires h < |messages| && messages[h].level == k && messages[h].id == id
      modifies this
      ensures Represents(messages, tree, VisitPath(levels, k + 1, Some(id), Path(children, r, col)),
                         RowFields(fm, children, r, col, k + 1), k)
      ensures Kept(old(messages), old(tree), messages, tree, k)
      decreases |r| - col, 1
    {
      ghost var path := Path(children, r, col);
      assert IsFound(h, messages[h], tree) && LevelFinds(messages, k, tree[k], levels[k]);
      var m, isNew := InnerMakeMessage(r, col, children, k + 1, Some(id), levels, fm);
      Adopted(old(messages), old(tree), levels, fm, messages, tree, VisitPath(levels, k + 1, Some(id), path),
              RowFields(fm, children, r, col, k + 1), k, h, path);
      KeptAbove(old(messages), old(tree), messages, tree, k);
      ghost var adopter := messages[h].(children := ChildrenWith(messages[h], TreeOr(tree, k + 1), LevelOr(levels, k + 1), path));
      ChangedKept(old(messages), old(tree), messages, tree, h, adopter, k);
      assert !isNew ==> messages[h := adopter] == messages;
      if isNew {
        messages := messages[h := messages[h].(children := messages[h].children + [m.value])];
      }
    }
  }

  // ------------------------------------------------------------------ the whole row set

  function IfNewRoot(links: seq<Link>, path: seq<int>): seq<Link> {
    if path == [] || HasId(links, path[0]) then links else links + [Link(None, path[0])]
  }

  lemma RootLevel(levels: Levels, path: seq<int>)
    ensures LevelOr(VisitPath(levels, 0, None, path), 0) == IfNewRoot(LevelOr(levels, 0), path)
  {
    PathLevel(levels, 0, None, path, 0);
  }

  lemma RootsKept(roots: seq<nat>, found: map<int, nat>, found': map<int, nat>, links: seq<Link>, path: seq<int>)
    requires Lists(roots, found, Ids(links)) && Extends(found, found')
    requires path != [] && !HasId(links, path[0]) ==> path[0] in found'
    ensures Lists(if path != [] && !HasId(links, path[0]) then roots + [found'[path[0]]] else roots, found', Ids(IfNewRoot(links, path)))
  {
    ListsGrow(roots, found, found', Ids(links));
  }

  lemma OneMorePath(elements: seq<Element>, rows: seq<Row>, i: nat)
    requires i < |rows| && forall r | r in rows :: Fits(elements, r, 0)
    ensures VisitAll(Paths(elements, rows[..i + 1])) == VisitPath(VisitAll(Paths(elements, rows[..i])), 0, None, Path(elements, rows[i], 0))
    ensures AllFields(elements, rows[..i + 1]) == RowFields(AllFields(elements, rows[..i]), elements, rows[i], 0, 0)
  {
    var paths, paths' := Paths(elements, rows[..i]), Paths(elements, rows[..i + 1]);
    assert rows[..i + 1][..i] == rows[..i];
    assert paths' == paths + [Path(elements, rows[i], 0)];
    assert paths'[..|paths'| - 1] == paths;
  }

  /** Folds the rows into messages; the roots come out in the order in which they were first seen. */
  method MakeMessage(rows: seq<Row>, elements: seq<Element>) returns (b: Builder, roots: seq<nat>)
    requires forall r | r in rows :: Fits(elements, r, 0)
    ensures fresh(b)
    ensures Represents(b.messages, b.tree, VisitAll(Paths(elements, rows)), AllFields(elements, rows), 0)
    ensures Lists(roots, TreeOr(b.tree, 0), Ids(FirstSeen(Paths(elements, rows), 0)))
  {
    b := new Builder();
    roots := [];
    for i := 0 to |rows|
      invariant fresh(b)
      invariant Represents(b.messages, b.tree, VisitAll(Paths(elements, rows[..i])), AllFields(elements, rows[..i]), 0)
      invariant Lists(roots, TreeOr(b.tree, 0), Ids(LevelOr(VisitAll(Paths(elements, rows[..i])), 0)))
    {
      ghost var levels, path := VisitAll(Paths(elements, rows[..i])), Path(elements, rows[i], 0);
      ghost var ms, tree := b.messages, b.tree;
      var m, isNew := b.InnerMakeMessage(rows[i], 0, elements, 0, None, levels, AllFields(elements, rows[..i]));
      OneMorePath(elements, rows, i);
      RootLevel(levels, path);
      BelowKept(ms, tree, b.messages, b.tree, 0, 0);
      RootsKept(roots, TreeOr(tree, 0), TreeOr(b.tree, 0), LevelOr(levels, 0), path);
      if isNew {
        roots := roots + [m.value];
      }
    }
    assert rows[..|rows|] == rows;
    VisitAllIsFirstSeen(Paths(elements, rows), 0);
  }

  // ------------------------------------------------------------------ a forest

  lemma {:induction false} ChildIdsHave(links: seq<Link>, id: int, parent: int)
    ensures id in ChildIds(links, parent) <==> Link(Some(parent), id) in links
    decreases |links|
  {
    if links != [] {
      var n := |links| - 1;
      ChildIdsHave(links[..n], id, parent);
      assert links == links[..n] + [links[n]];
    }
  }

  ghost predicate Distinct(links: seq<Link>) {
    forall i, j | 0 <= i < j < |links| :: links[i].id != links[j].id
  }

  lemma {:induction false} ChildIdsDistinct(links: seq<Link>, parent: int)
    requires Distinct(links)
    ensures forall i, j | 0 <= i < j < |ChildIds(links, parent)| :: ChildIds(links, parent)[i] != ChildIds(links, parent)[j]
    decreases |links|
  {
    if links != [] {
      var n := |links| - 1;
      ChildIdsDistinct(links[..n], parent);
      ChildIdsHave(links[..n], links[n].id, parent);
    }
  }

  /** Message `h` is the `i`-th child of message `p`. */
  ghost predicate IsChild(ms: seq<Message>, h: nat, p: nat, i: nat) {
    p < |ms| && i < |ms[p].children| && ms[p].children[i] == h
  }

  lemma ChildLink(ms: seq<Message>, tree: Tree, levels: Levels, fm: FieldMap, h: nat, p: nat, i: nat)
    requires Represents(ms, tree, levels, fm, 0) && IsChild(ms, h, p, i)
    ensures h < |ms| && ms[h].level == ms[p].level + 1
    ensures i < |ChildIds(LevelOr(levels, ms[h].level), ms[p].id)| && ChildIds(LevelOr(levels, ms[h].level), ms[p].id)[i] == ms[h].id
    ensures Link(Some(ms[p].id), ms[h].id) in LevelOr(levels, ms[h].level)
  {
    var k := ms[p].level + 1;
    assert Parents(ms[p], tree, levels);
    var ids := ChildIds(LevelOr(levels, k), ms[p].id);
    assert Lists(ms[p].children, TreeOr(tree, k), ids);
    assert ids[i] in TreeOr(tree, k) && TreeOr(tree, k)[ids[i]] == h;
    assert LevelFinds(ms, k, tree[k], levels[k]);
    assert ids[i] in ids;
    ChildIdsHave(LevelOr(levels, k), ids[i], ms[p].id);
  }

  /** A message is the child of at most one message, and at one place only. */
  lemma OneParent(ms: seq<Message>, tree: Tree, levels: Levels, fm: FieldMap, h: nat, p: nat, i: nat, p': nat, i': nat)
    requires Represents(ms, tree, levels, fm, 0) && IsChild(ms, h, p, i) && IsChild(ms, h, p', i')
    requires Distinct(LevelOr(levels, ms[p].level + 1))
    ensures p == p' && i == i'
  {
    ChildLink(ms, tree, levels, fm, h, p, i);
    ChildLink(ms, tree, levels, fm, h, p', i');
    ChildIdsDistinct(LevelOr(levels, ms[h].level), ms[p].id);
    SamePlaceSame(ms, tree, levels, p, p');
  }

  lemma FindLink(ms: seq<Message>, tree: Tree, levels: Levels, fm: FieldMap, h: nat, parent: int) returns (p: nat, i: nat)
    requires Represents(ms, tree, levels, fm, 0) && h < |ms| && 0 < ms[h].level
    requires Link(Some(parent), ms[h].id) in LevelOr(levels, ms[h].level)
    ensures IsChild(ms, h, p, i) && ms[p].level == ms[h].level - 1 && ms[p].id == parent
  {
    var k := ms[h].level;
    assert IsFound(h, ms[h], tree) && RootedAt(levels, k);
    assert LevelFinds(ms, k - 1, tree[k - 1], levels[k - 1]);
    p := tree[k - 1][parent];
    assert Parents(ms[p], tree, levels);
    ChildIdsHave(levels[k], ms[h].id, parent);
    i :| 0 <= i < |ChildIds(levels[k], parent)| && ChildIds(levels[k], parent)[i] == ms[h].id;
  }

  /** In the forest made from some rows, every message below the roots is attached at exactly
      one place: to the message that the first row naming it names on the level above. */
  lemma AttachedOnce(elements: seq<Element>, rows: seq<Row>, ms: seq<Message>, tree: Tree, h: nat) returns (p: nat, i: nat, q: nat)
    requires forall r | r in rows :: Fits(elements, r, 0)
    requires Represents(ms, tree, VisitAll(Paths(elements, rows)), AllFields(elements, rows), 0)
    requires h < |ms| && ms[h].level > 0
    ensures IsChild(ms, h, p, i) && forall p', i' | IsChild(ms, h, p', i') :: p' == p && i' == i
    ensures q < |rows| && Names(Path(elements, rows[q], 0), ms[h].level, ms[h].id)
    ensures forall q' | 0 <= q' < q :: !Names(Path(elements, rows[q'], 0), ms[h].level, ms[h].id)
    ensures ms[p].level == ms[h].level - 1 && ms[p].id == Path(elements, rows[q], 0)[ms[h].level - 1]
  {
    var paths, k := Paths(elements, rows), ms[h].level;
    var levels, fm := VisitAll(paths), AllFields(elements, rows);
    VisitAllIsFirstSeen(paths, k);
    FirstSeenOnce(paths, k);
    assert IsFound(h, ms[h], tree) && LevelFinds(ms, k, tree[k], levels[k]);
    OnlyNamed(paths, k, ms[h].id);
    q := FirstSeenFrom(paths, k, ms[h].id);
    p, i := FindLink(ms, tree, levels, fm, h, paths[q][k - 1]);
    forall p', i' | IsChild(ms, h, p', i') ensures p' == p && i' == i {
      OneParent(ms, tree, levels, fm, h, p, i, p', i');
    }
    forall q' | 0 <= q' < q ensures !Names(Path(elements, rows[q'], 0), ms[h].level, ms[h].id) {
      assert !Names(paths[q'], k, ms[h].id);
    }
  }

  /** A root is nobody's child. */
  lemma RootsHaveNoParent(ms: seq<Message>, tree: Tree, levels: Levels, fm: FieldMap, h: nat, p: nat, i: nat)
    requires Represents(ms, tree, levels, fm, 0) && h < |ms| && ms[h].level == 0
    ensures !IsChild(ms, h, p, i)
  {
    if IsChild(ms, h, p, i) {
      ChildLink(ms, tree, levels, fm, h, p, i);
    }
  }

  /** Every root message comes out exactly once. */
  lemma RootOnce(ms: seq<Message>, tree: Tree, roots: seq<nat>, elements: seq<Element>, rows: seq<Row>, h: nat) returns (i: nat)
    requires forall r | r in rows :: Fits(elements, r, 0)
    requires Represents(ms, tree, VisitAll(Paths(elements, rows)), AllFields(elements, rows), 0)
    requires Lists(roots, TreeOr(tree, 0), Ids(FirstSeen(Paths(elements, rows), 0)))
    requires h < |ms| && ms[h].level == 0
    ensures i < |roots| && roots[i] == h && forall j | 0 <= j < |roots| && roots[j] == h :: j == i
  {
    var paths := Paths(elements, rows);
    var links := FirstSeen(paths, 0);
    VisitAllIsFirstSeen(paths, 0);
    FirstSeenOnce(paths, 0);
    assert IsFound(h, ms[h], tree) && LevelFinds(ms, 0, tree[0], links);
    var l :| l in links && l.id == ms[h].id;
    i :| 0 <= i < |links| && links[i] == l;
    assert Ids(links)[i] == ms[h].id;
    forall j | 0 <= j < |roots| && roots[j] == h ensures j == i {
      assert Ids(links)[j] in tree[0];
    }
  }

  /** The children of a message are attached in the order of the rows that name them first. */
  lemma ChildrenInRowOrder(elements: seq<Element>, rows: seq<Row>, ms: seq<Message>, tree: Tree, p: nat, i: nat, j: nat)
    returns (r: nat, q: nat)
    requires forall r | r in rows :: Fits(elements, r, 0)
    requires Represents(ms, tree, VisitAll(Paths(elements, rows)), AllFields(elements, rows), 0)
    requires p < |ms| && i < j < |ms[p].children|
    ensures r < q && ms[p].children[i] < |ms| && ms[p].children[j] < |ms|
    ensures FirstNamed(Paths(elements, rows), r, ms[p].level + 1, ms[ms[p].children[i]].id)
    ensures FirstNamed(Paths(elements, rows), q, ms[p].level + 1, ms[ms[p].children[j]].id)
  {
    var paths, k := Paths(elements, rows), ms[p].level + 1;
    var levels, fm := VisitAll(paths), AllFields(elements, rows);
    ChildLink(ms, tree, levels, fm, ms[p].children[i], p, i);
    ChildLink(ms, tree, levels, fm, ms[p].children[j], p, j);
    VisitAllIsFirstSeen(paths, k);
    var a, b := ChildIdsInOrder(LevelOr(levels, k), ms[p].id, i, j);
    r, q := FirstSeenInOrder(paths, k, a, b);
  }

  /** And so the root messages come out. */
  lemma RootsInRowOrder(elements: seq<Element>, rows: seq<Row>, ms: seq<Message>, tree: Tree, roots: seq<nat>, i: nat, j: nat)
    returns (r: nat, q: nat)
    requires forall r | r in rows :: Fits(elements, r, 0)
    requires Represents(ms, tree, VisitAll(Paths(elements, rows)), AllFields(elements, rows), 0)
    requires Lists(roots, TreeOr(tree, 0), Ids(FirstSeen(Paths(elements, rows), 0)))
    requires i < j < |roots|
    ensures r < q && roots[i] < |ms| && roots[j] < |ms| && ms[roots[i]].level == 0 == ms[roots[j]].level
    ensures FirstNamed(Paths(elements, rows), r, 0, ms[roots[i]].id) && FirstNamed(Paths(elements, rows), q, 0, ms[roots[j]].id)
  {
    var paths := Paths(elements, rows);
    r, q := FirstSeenInOrder(paths, 0, i, j);
    VisitAllIsFirstSeen(paths, 0);
    var ids := Ids(FirstSeen(paths, 0));
    assert ids[i] in TreeOr(tree, 0) && ids[j] in TreeOr(tree, 0);
    assert LevelFinds(ms, 0, tree[0], LevelOr(VisitAll(paths), 0));
  }

  /** Every id that a row names has a message on that level. */
  lemma NamedHasMessage(elements: seq<Element>, rows: seq<Row>, ms: seq<Message>, tree: Tree, q: nat, k: nat, id: int) returns (h: nat)
    requires forall r | r in rows :: Fits(elements, r, 0)
    requires Represents(ms, tree, VisitAll(Paths(elements, rows)), AllFields(elements, rows), 0)
    requires q < |rows| && Names(Path(elements, rows[q], 0), k, id)
    ensures h < |ms| && ms[h].level == k && ms[h].id == id
    ensures forall g | 0 <= g < |ms| && ms[g].level == k && ms[g].id == id :: g == h
  {
    var paths := Paths(elements, rows);
    assert paths[q] in paths && Names(paths[q], k, id);
    var r := FirstSeenFrom(paths, k, id);
    VisitAllIsFirstSeen(paths, k);
    var levels := VisitAll(paths);
    assert LevelFinds(ms, k, tree[k], levels[k]);
    h := tree[k][id];
    forall g | 0 <= g < |ms| && ms[g].level == k && ms[g].id == id ensures g == h {
      assert IsFound(g, ms[g], tree);
    }
  }

  /** Its fields are what the last row with a cell for them says. */
  lemma MessageHasLastCells(elements: seq<Element>, rows: seq<Row>, ms: seq<Message>, tree: Tree, h: nat, n: nat)
    requires forall r | r in rows :: Fits(elements, r, 0)
    requires Represents(ms, tree, VisitAll(Paths(elements, rows)), AllFields(elements, rows), 0)
    requires h < |ms|
    ensures n in ms[h].fields <==> exists q | 0 <= q < |rows| :: HasCell(elements, rows[q], ms[h].level, ms[h].id, n)
    ensures forall q | 0 <= q < |rows| && HasCell(elements, rows[q], ms[h].level, ms[h].id, n) &&
        (forall p | q < p < |rows| :: !HasCell(elements, rows[p], ms[h].level, ms[h].id, n)) ::
      n in ms[h].fields && Cell(elements, rows[q], 0, ms[h].level, n) == Some(ms[h].fields[n])
  {
    LastCellWins(elements, rows, ms[h].level, ms[h].id, n);
    assert HasFields(ms[h], AllFields(elements, rows));
  }
}
