/** One row of a joined query: which messages its columns belong to, and what they set. */
module Rows {
  import opened Common

  /** A column is null or holds a value; the ids are such values. */
  type Row = seq<Option<int>>

  /** The children of a mapper element. Association and collection are treated alike. */
  datatype Element = Id | Result | Nested(children: seq<Element>)

  type FieldMap = map<(nat, int), map<nat, int>>

  /** The elements describe the columns of the row from `col` on, as far as they are read. */
  predicate Fits(elements: seq<Element>, r: Row, col: nat)
    decreases |r| - col, elements
  {
    col >= |r| || r[col].None? || (elements != [] && elements[0].Id? && FitsRest(elements[1..], r, col + 1))
  }

  predicate FitsRest(elements: seq<Element>, r: Row, col: nat)
    decreases |r| - col, elements
  {
    col >= |r| ||
    (elements != [] && match elements[0]
       case Id => false
       case Result => FitsRest(elements[1..], r, col + 1)
       case Nested(c) => Fits(c, r, col))
  }

  /** The ids the row names, level by level, up to the first null. */
  function Path(elements: seq<Element>, r: Row, col: nat): seq<int>
    requires Fits(elements, r, col)
    decreases |r| - col, elements
  {
    if col >= |r| || r[col].None? then [] else [r[col].value] + PathRest(elements[1..], r, col + 1)
  }

  function PathRest(elements: seq<Element>, r: Row, col: nat): seq<int>
    requires FitsRest(elements, r, col)
    decreases |r| - col, elements
  {
    if col >= |r| then []
    else match elements[0]
      case Result => PathRest(elements[1..], r, col + 1)
      case Nested(c) => Path(c, r, col)
  }

  function FieldsOf(fm: FieldMap, k: nat, id: int): map<nat, int> {
    if (k, id) in fm then fm[(k, id)] else map[]
  }

  /** A null column leaves the field as it is. */
  function SetField(fields: map<nat, int>, num: nat, cell: Option<int>): map<nat, int> {
    if cell.Some? then fields[num := cell.value] else fields
  }

  /** The field values of all messages after the row. */
  function RowFields(fm: FieldMap, elements: seq<Element>, r: Row, col: nat, k: nat): FieldMap
    requires Fits(elements, r, col)
    decreases |r| - col, elements
  {
    if col >= |r| || r[col].None? then fm
    else RestFields(fm, elements[1..], r, col + 1, 1, k, r[col].value)
  }

  function RestFields(fm: FieldMap, elements: seq<Element>, r: Row, col: nat, num: nat, k: nat, id: int): FieldMap
    requires FitsRest(elements, r, col)
    decreases |r| - col, elements
  {
    if col >= |r| then fm
    else match elements[0]
      case Result =>
        RestFields(fm[(k, id) := SetField(FieldsOf(fm, k, id), num, r[col])], elements[1..], r, col + 1, num + 1, k, id)
      case Nested(c) => RowFields(fm, c, r, col, k + 1)
  }

  // ------------------------------------------------------------------ what a row sets, said directly

  /** The number of plain columns before the nested element or the end. */
  function Results(els: seq<Element>): nat {
    if els == [] || !els[0].Result? then 0 else 1 + Results(els[1..])
  }

  /** The cell that a row has for field `n` of the `j`-th message it names. */
  function Cell(elements: seq<Element>, r: Row, col: nat, j: nat, n: nat): Option<int>
    decreases j, 1
  {
    if col >= |r| || r[col].None? || elements == [] then None
    else CellRest(elements[1..], r, col + 1, 1, j, n)
  }

  function CellRest(els: seq<Element>, r: Row, col: nat, num: nat, j: nat, n: nat): Option<int>
    decreases j, 0
  {
    var m := Results(els);
    if j == 0 then
      if num <= n < num + m && col + n - num < |r| then r[col + n - num] else None
    else if m < |els| && els[m].Nested? && col + m < |r| then Cell(els[m].children, r, col + m, j - 1, n)
    else None
  }

  // ------------------------------------------------------------------ where a row has its ids and cells

  /** The column of the `j`-th id, if the elements are nested that deep. */
  function IdColumn(elements: seq<Element>, col: nat, j: nat): Option<nat>
    decreases j
  {
    if j == 0 then Some(col)
    else if elements == [] then None
    else
      var els := elements[1..];
      var m := Results(els);
      if m < |els| && els[m].Nested? then IdColumn(els[m].children, col + 1 + m, j - 1) else None
  }

  /** The elements of the `j`-th level. */
  function ElementsAt(elements: seq<Element>, j: nat): seq<Element>
    decreases j
  {
    if j == 0 || elements == [] then elements
    else
      var els := elements[1..];
      var m := Results(els);
      if m < |els| && els[m].Nested? then ElementsAt(els[m].children, j - 1) else []
  }

  /** The row has a column for the `j`-th id, and it is not null. */
  predicate HasIdAt(elements: seq<Element>, r: Row, col: nat, j: nat) {
    var c := IdColumn(elements, col, j);
    c.Some? && c.value < |r| && r[c.value].Some?
  }

  ghost predicate HasIds(elements: seq<Element>, r: Row, col: nat, j: nat) {
    forall i: nat | i <= j :: HasIdAt(elements, r, col, i)
  }

  lemma IdBelow(elements: seq<Element>, r: Row, col: nat, i: nat, els: seq<Element>, m: nat)
    requires elements != [] && els == elements[1..] && m == Results(els) && m < |els| && els[m].Nested?
    ensures HasIdAt(elements, r, col, i + 1) <==> HasIdAt(els[m].children, r, col + 1 + m, i)
  {
  }

  lemma HasIdsBelow(elements: seq<Element>, r: Row, col: nat, j: nat, els: seq<Element>, m: nat)
    requires elements != [] && els == elements[1..] && m == Results(els) && m < |els| && els[m].Nested?
    ensures HasIds(elements, r, col, j + 1) <==> HasIdAt(elements, r, col, 0) && HasIds(els[m].children, r, col + 1 + m, j)
  {
    var c := els[m].children;
    if HasIdAt(elements, r, col, 0) && HasIds(c, r, col + 1 + m, j) {
      forall i: nat | i <= j + 1 ensures HasIdAt(elements, r, col, i) {
        if i > 0 {
          IdBelow(elements, r, col, i - 1, els, m);
          assert HasIdAt(c, r, col + 1 + m, i - 1);
        }
      }
    }
    if HasIds(elements, r, col, j + 1) {
      assert HasIdAt(elements, r, col, 0);
      var base := col + 1 + m;
      forall i: nat | i <= j ensures HasIdAt(c, r, base, i) {
        IdBelow(elements, r, col, i, els, m);
        assert HasIdAt(elements, r, col, i + 1);
      }
    }
  }

  /** Behind the plain columns the path goes on with the nested element. */
  lemma {:induction false} RestIs(els: seq<Element>, r: Row, col: nat)
    requires FitsRest(els, r, col)
    ensures var m := Results(els);
      if m < |els| && els[m].Nested? && col + m < |r| then
        Fits(els[m].children, r, col + m) && PathRest(els, r, col) == Path(els[m].children, r, col + m)
      else PathRest(els, r, col) == []
    decreases |els|
  {
    if col < |r| && els[0].Result? {
      RestIs(els[1..], r, col + 1);
    }
  }

  /** The path of a row: its `j`-th entry is there if and only if the row has all id columns up to
      that one and none of them is null, and then it is the value of that column. */
  lemma {:induction false} PathIs(elements: seq<Element>, r: Row, col: nat, j: nat)
    requires Fits(elements, r, col)
    ensures j < |Path(elements, r, col)| <==> HasIds(elements, r, col, j)
    ensures j < |Path(elements, r, col)| ==>
      HasIdAt(elements, r, col, j) && Path(elements, r, col)[j] == r[IdColumn(elements, col, j).value].value
    decreases j
  {
    if col >= |r| || r[col].None? {
      assert !HasIdAt(elements, r, col, 0);
    } else {
      var els := elements[1..];
      var m := Results(els);
      RestIs(els, r, col + 1);
      if j == 0 {
        assert HasIdAt(elements, r, col, 0);
      } else if m < |els| && els[m].Nested? {
        HasIdsBelow(elements, r, col, j - 1, els, m);
        if col + 1 + m < |r| {
          PathIs(els[m].children, r, col + 1 + m, j - 1);
        } else {
          assert !HasIdAt(els[m].children, r, col + 1 + m, 0);
        }
      } else {
        assert !HasIdAt(elements, r, col, j);
      }
    }
  }

  /** The cell for field `n` of the `j`-th message is `n` columns behind its id, if the element has
      that many plain columns and the row that column; nothing else counts as a cell. */
  lemma {:induction false} CellIs(elements: seq<Element>, r: Row, col: nat, j: nat, n: nat)
    ensures var own := ElementsAt(elements, j);
      Cell(elements, r, col, j, n) ==
        if && HasIds(elements, r, col, j) && HasIdAt(elements, r, col, j)
           && own != [] && 1 <= n <= Results(own[1..]) && IdColumn(elements, col, j).value + n < |r|
        then r[IdColumn(elements, col, j).value + n] else None
    decreases j
  {
    if col >= |r| || r[col].None? || elements == [] {
      assert elements == [] || !HasIdAt(elements, r, col, 0);
    } else if j > 0 {
      var els := elements[1..];
      var m := Results(els);
      if m < |els| && els[m].Nested? {
        HasIdsBelow(elements, r, col, j - 1, els, m);
        CellIs(els[m].children, r, col + 1 + m, j - 1, n);
        assert HasIdAt(els[m].children, r, col + 1 + m, 0) ==> col + 1 + m < |r|;
      } else {
        assert !HasIdAt(elements, r, col, j);
      }
    } else {
      assert HasIdAt(elements, r, col, 0);
    }
  }

  function FieldAt(fm: FieldMap, k: nat, id: int, n: nat): Option<int> {
    var fields := FieldsOf(fm, k, id);
    if n in fields then Some(fields[n]) else None
  }

  ghost predicate Names(path: seq<int>, k: nat, id: int) {
    k < |path| && path[k] == id
  }

  /** A row sets exactly the fields of the messages it names for which it has a cell. */
  lemma {:induction false} RowSets(fm: FieldMap, elements: seq<Element>, r: Row, col: nat, k: nat, j: int, id: int, n: nat)
    requires Fits(elements, r, col) && k + j >= 0
    ensures FieldAt(RowFields(fm, elements, r, col, k), k + j, id, n) ==
      if j >= 0 && Names(Path(elements, r, col), j, id) && Cell(elements, r, col, j, n).Some? then Cell(elements, r, col, j, n)
      else FieldAt(fm, k + j, id, n)
    decreases |r| - col, elements
  {
    if col < |r| && r[col].Some? {
      RestSets(fm, elements[1..], r, col + 1, 1, k, r[col].value, j, id, n);
    }
  }

  lemma {:induction false} RestSets(fm: FieldMap, els: seq<Element>, r: Row, col: nat, num: nat, k: nat, own: int, j: int, id: int, n: nat)
    requires FitsRest(els, r, col) && k + j >= 0
    ensures FieldAt(RestFields(fm, els, r, col, num, k, own), k + j, id, n) ==
      if j >= 0 && Names([own] + PathRest(els, r, col), j, id) && CellRest(els, r, col, num, j, n).Some?
      then CellRest(els, r, col, num, j, n)
      else FieldAt(fm, k + j, id, n)
    decreases |r| - col, els
  {
    if col < |r| {
      match els[0]
      case Result =>
        var fm' := fm[(k, own) := SetField(FieldsOf(fm, k, own), num, r[col])];
        RestSets(fm', els[1..], r, col + 1, num + 1, k, own, j, id, n);
        NextCell(els, r, col, num, j, n);
        FieldSet(fm, k, own, num, r[col], k + j, id, n);
      case Nested(c) =>
        RowSets(fm, c, r, col, k + 1, j - 1, id, n);
    }
  }

  /** A plain column is the cell of one field; the others are found behind it. */
  lemma NextCell(els: seq<Element>, r: Row, col: nat, num: nat, j: int, n: nat)
    requires els != [] && els[0].Result? && col < |r|
    ensures j == 0 && n == num ==> CellRest(els, r, col, num, 0, n) == r[col]
    ensures j == 0 && n == num ==> CellRest(els[1..], r, col + 1, num + 1, 0, n) == None
    ensures j > 0 || (j == 0 && n != num) ==> CellRest(els, r, col, num, j, n) == CellRest(els[1..], r, col + 1, num + 1, j, n)
  {
  }

  lemma FieldSet(fm: FieldMap, k: nat, own: int, num: nat, cell: Option<int>, k': nat, id: int, n: nat)
    ensures FieldAt(fm[(k, own) := SetField(FieldsOf(fm, k, own), num, cell)], k', id, n) ==
      if k' == k && id == own && n == num && cell.Some? then cell else FieldAt(fm, k', id, n)
  {
  }

  function Paths(elements: seq<Element>, rows: seq<Row>): seq<seq<int>>
    requires forall r | r in rows :: Fits(elements, r, 0)
  {
    seq(|rows|, i requires 0 <= i < |rows| => Path(elements, rows[i], 0))
  }

  function AllFields(elements: seq<Element>, rows: seq<Row>): FieldMap
    requires forall r | r in rows :: Fits(elements, r, 0)
  {
    if rows == [] then map[]
    else RowFields(AllFields(elements, rows[..|rows| - 1]), elements, rows[|rows| - 1], 0, 0)
  }

  /** Row `q` has a cell for field `n` of message (k, id). */
  ghost predicate HasCell(elements: seq<Element>, r: Row, k: nat, id: int, n: nat)
    requires Fits(elements, r, 0)
  {
    Names(Path(elements, r, 0), k, id) && Cell(elements, r, 0, k, n).Some?
  }

  /** After all rows a field has the value of the last row that has a cell for it. */
  lemma {:induction false} LastCellWins(elements: seq<Element>, rows: seq<Row>, k: nat, id: int, n: nat)
    requires forall r | r in rows :: Fits(elements, r, 0)
    ensures FieldAt(AllFields(elements, rows), k, id, n) == None <==> forall q | 0 <= q < |rows| :: !HasCell(elements, rows[q], k, id, n)
    ensures forall q | 0 <= q < |rows| && HasCell(elements, rows[q], k, id, n) &&
        (forall p | q < p < |rows| :: !HasCell(elements, rows[p], k, id, n)) ::
      FieldAt(AllFields(elements, rows), k, id, n) == Cell(elements, rows[q], 0, k, n)
    decreases |rows|
  {
    if rows != [] {
      var last := |rows| - 1;
      var init := rows[..last];
      LastCellWins(elements, init, k, id, n);
      RowSets(AllFields(elements, init), elements, rows[last], 0, 0, k, id, n);
      assert forall q | 0 <= q < last :: HasCell(elements, init[q], k, id, n) <==> HasCell(elements, rows[q], k, id, n);
    }
  }
}
