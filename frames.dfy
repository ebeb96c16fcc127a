/**
 * The part of a pandas DataFrame that app.py uses: named columns in order, each
 * holding one cell per row, read with `df[name]` and assigned with
 * `df[name] = values`.
 *
 * Assigning a list to a column replaces the column of that name where it stands,
 * or appends a new column at the end; pandas refuses (raises `ValueError`) a list
 * whose length is not the number of rows, and then leaves the frame unchanged.
 */
module Frames {

  /** A cell: text read from the spreadsheet or returned as a label, or a confidence score. */
  datatype Cell<C> = Text(text: string) | Score(score: C)

  /** The value of a frame: its column labels in order, their cells, and the number of rows. */
  datatype Table<C> = Table(columns: seq<string>, data: map<string, seq<Cell<C>>>, height: nat)

  predicate Distinct(xs: seq<string>) {
    forall i, j :: 0 <= i < j < |xs| ==> xs[i] != xs[j]
  }

  /** The columns are distinct, each has its cells, and every column has one cell per row. */
  ghost predicate WellFormed<C>(t: Table<C>) {
    Distinct(t.columns) &&
    (forall name :: name in t.data <==> name in t.columns) &&
    (forall name :: name in t.data ==> |t.data[name]| == t.height)
  }

  /**
   * The table after `df[name] = values`, for a list of the right length: an
   * existing column is replaced in place, a new one is appended at the end, and
   * the frame stays well formed.
   */
  function WithColumn<C>(t: Table<C>, name: string, values: seq<Cell<C>>): (r: Table<C>)
    requires WellFormed(t) && |values| == t.height
    ensures WellFormed(r)
  {
    var columns := if name in t.columns then t.columns else t.columns + [name];
    assert forall c :: c in columns <==> c in t.columns || c == name;
    Table(columns, t.data[name := values], t.height)
  }

  /**
   * Assignment keeps the rows, keeps the columns in order (a new one goes at the
   * end), and changes no column but the assigned one.
   */
  lemma WithColumnKeepsTheRest<C>(t: Table<C>, name: string, values: seq<Cell<C>>)
    requires WellFormed(t) && |values| == t.height
    ensures WithColumn(t, name, values).height == t.height
    ensures WithColumn(t, name, values).columns[..|t.columns|] == t.columns
    ensures name !in t.columns ==> WithColumn(t, name, values).columns == t.columns + [name]
    ensures name in t.columns ==> WithColumn(t, name, values).columns == t.columns
    ensures WithColumn(t, name, values).data[name] == values
    ensures forall c :: c in t.columns && c != name ==> WithColumn(t, name, values).data[c] == t.data[c]
  {
  }

  /** A DataFrame that app.py reads and extends in place. */
  class Frame<C> {
    var columns: seq<string>
    var data: map<string, seq<Cell<C>>>
    var height: nat

    function Snapshot(): Table<C>
      reads this
    {
      Table(columns, data, height)
    }

    ghost predicate Valid()
      reads this
    {
      WellFormed(Snapshot())
    }

    /** The frame that `pd.read_excel` produced. */
    constructor (t: Table<C>)
      requires WellFormed(t)
      ensures Valid() && Snapshot() == t
    {
      columns, data, height := t.columns, t.data, t.height;
    }

    /** `df[name]`. */
    function Get(name: string): (column: seq<Cell<C>>)
      reads this
      requires Valid() && name in columns
      ensures |column| == height
    {
      data[name]
    }

    /** `df[name] = values`; `ok` is false where pandas raises `ValueError`. */
    method SetColumn(name: string, values: seq<Cell<C>>) returns (ok: bool)
      requires Valid()
      modifies this
      ensures Valid()
      ensures ok <==> |values| == old(height)
      ensures ok ==> Snapshot() == WithColumn(old(Snapshot()), name, values)
      ensures !ok ==> Snapshot() == old(Snapshot())
    {
      if |values| != height {
        return false;
      }
      if name !in columns {
        columns := columns + [name];
      }
      data := data[name := values];
      ok := true;
    }
  }
}
