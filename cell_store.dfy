/**
 * The backing model the table view reads and writes. Its own source is not
 * part of this model; it is assumed to behave as the view uses it: the value
 * of cell (col, row) lives in a plain object `data` under the key
 * `${col}:${row}`, `getValue` reads that property and `setValue` assigns it.
 */
module Model {
  import opened Wrappers
  import opened JsText

  /** A cell location `{col, row}`. */
  datatype Position = Position(col: int, row: int)

  /** The key `${col}:${row}` built from the texts of a column and a row. */
  function CellId(colText: string, rowText: string): string {
    colText + ":" + rowText
  }

  /** The key under which the model keeps the value of cell `p`. */
  function PositionId(p: Position): string {
    CellId(IntText(p.col), IntText(p.row))
  }

  /**
   * A plain JavaScript object from keys to strings: `keys` is what
   * `Object.keys` enumerates (insertion order, since no key of the form
   * "c:r" is an array index), `values` what each key holds.
   */
  datatype Store = Store(keys: seq<string>, values: map<string, string>) {

    /** Every own property is enumerated exactly once. */
    ghost predicate Wf() {
      && (forall i, j :: 0 <= i < j < |keys| ==> keys[i] != keys[j])
      && (forall id :: id in values <==> id in keys)
    }

    /** `data[id]`: `None` stands for `undefined`. */
    function Get(id: string): Option<string> {
      if id in values then Some(values[id]) else None
    }

    /** `data[id] = value`: a new property is enumerated after the existing ones. */
    function Set(id: string, value: string): Store {
      Store(if id in values then keys else keys + [id], values[id := value])
    }
  }

  /** An empty store is well formed, and assignment keeps a store well formed. */
  lemma SetKeepsWf(s: Store, id: string, value: string)
    requires s.Wf()
    ensures s.Set(id, value).Wf()
    ensures Store([], map[]).Wf()
  {
  }

  /** The text of an integer never contains the separator of a key. */
  lemma NoColonInIntText(n: int)
    ensures ':' !in IntText(n)
  {
    var d := NatText(if n < 0 then -n else n);
    assert forall i :: 0 <= i < |d| ==> d[i] != ':';
  }

  /** The characters of a key: the column text, then ':'. */
  lemma CellIdAt(a: string, b: string, i: int)
    ensures 0 <= i < |a| ==> CellId(a, b)[i] == a[i]
    ensures i == |a| ==> CellId(a, b)[i] == ':'
  {
  }

  /** A key splits back into its column text and its row text at its first ':'. */
  lemma CellIdSplits(a: string, b: string, a2: string, b2: string)
    requires ':' !in a && ':' !in a2
    requires CellId(a, b) == CellId(a2, b2)
    ensures a == a2 && b == b2
  {
    var s := CellId(a, b);
    if |a| < |a2| {
      CellIdAt(a, b, |a|);
      CellIdAt(a2, b2, |a|);
      assert false;
    } else if |a2| < |a| {
      CellIdAt(a, b, |a2|);
      CellIdAt(a2, b2, |a2|);
      assert false;
    }
    assert a == s[..|a|] && a2 == CellId(a2, b2)[..|a2|];
    assert b == s[|a| + 1..] && b2 == CellId(a2, b2)[|a2| + 1..];
  }

  /** Distinct integers have distinct texts. */
  lemma IntTextInjective(m: int, n: int)
    requires IntText(m) == IntText(n)
    ensures m == n
  {
    ParseIntOfIntTextAlone(m);
    ParseIntOfIntTextAlone(n);
  }

  /** Distinct cells are kept under distinct keys. */
  lemma PositionIdInjective(p: Position, q: Position)
    requires PositionId(p) == PositionId(q)
    ensures p == q
  {
    NoColonInIntText(p.col);
    NoColonInIntText(q.col);
    CellIdSplits(IntText(p.col), IntText(p.row), IntText(q.col), IntText(q.row));
    IntTextInjective(p.col, q.col);
    IntTextInjective(p.row, q.row);
  }

  /** After `setValue(p, v)`, cell `p` reads `v` and every other cell reads as before. */
  lemma GetAfterSet(s: Store, p: Position, value: string, q: Position)
    ensures s.Set(PositionId(p), value).Get(PositionId(q))
         == if q == p then Some(value) else s.Get(PositionId(q))
  {
    if q != p && PositionId(q) == PositionId(p) {
      PositionIdInjective(q, p);
    }
  }

  /** The model object: grid dimensions and the cell store. */
  class TableModel {
    var numCols: nat
    var numRows: nat
    var data: Store

    ghost predicate Valid()
      reads this
    {
      data.Wf()
    }

    constructor (numCols: nat, numRows: nat)
      ensures Valid()
      ensures this.numCols == numCols && this.numRows == numRows
      ensures data == Store([], map[])
    {
      this.numCols := numCols;
      this.numRows := numRows;
      data := Store([], map[]);
    }

    /** `getValue(position)`: the cell's string, `None` for `undefined`. */
    function GetValue(p: Position): (r: Option<string>)
      reads this
      ensures Valid() ==> (r.Some? <==> PositionId(p) in data.keys)
      ensures r.Some? ==> PositionId(p) in data.values && data.values[PositionId(p)] == r.value
    {
      data.Get(PositionId(p))
    }

    /** `setValue(position, value)`. */
    method SetValue(p: Position, value: string)
      requires Valid()
      modifies this
      ensures Valid()
      ensures numCols == old(numCols) && numRows == old(numRows)
      ensures data == old(data).Set(PositionId(p), value)
      ensures GetValue(p) == Some(value)
      ensures forall q :: q != p ==> GetValue(q) == old(GetValue(q))
    {
      SetKeepsWf(data, PositionId(p), value);
      data := data.Set(PositionId(p), value);
      forall q | q != p
        ensures GetValue(q) == old(GetValue(q))
      {
        GetAfterSet(old(data), p, value, q);
      }
    }
  }
}
