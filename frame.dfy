/**
 * Tables as the dashboard sees them once a sheet has been read: ordered column
 * labels, one column of cells per label and a common row count. The class
 * `DataFrame` is the mutable frame that the LEGACY branch of the detector fills
 * one column assignment at a time.
 */
module Frame {

  /** A cell. NaN and None both read as `Missing`; numbers are carried, never computed with. */
  datatype Cell = Missing | Text(s: string) | Number(x: real)

  /** A DataFrame value: column labels in order, the cells of each column, and the row count. */
  datatype Table = Table(columns: seq<string>, cells: map<string, seq<Cell>>, height: nat)

  /** The right-hand side of a column assignment: a series, or a scalar to broadcast. */
  datatype Assigned = Series(col: seq<Cell>) | Scalar(v: Cell)

  /** The column an assignment stores in a frame of `n` rows: the series itself, or `n` copies of the scalar. */
  function Materialize(value: Assigned, n: nat): (col: seq<Cell>)
    ensures value.Series? ==> col == value.col
    ensures value.Scalar? ==> |col| == n && forall i | 0 <= i < n :: col[i] == value.v
  {
    match value
    case Series(c) => c
    case Scalar(v) => Fill(n, v)
  }

  /** One row (`df.iloc[i]`): column label to cell. */
  type Row = map<string, Cell>

  predicate Distinct(s: seq<string>) {
    forall i, j | 0 <= i < j < |s| :: s[i] != s[j]
  }

  /** Labels are unique, each label has a column, and every column has `height` cells. */
  ghost predicate WellFormed(t: Table) {
    && Distinct(t.columns)
    && t.cells.Keys == (set c | c in t.columns)
    && (forall c | c in t.cells :: |t.cells[c]| == t.height)
  }

  /** `keys.issubset(t.columns)` */
  predicate HasAll(t: Table, keys: set<string>) {
    forall k | k in keys :: k in t.columns
  }

  /** The column pandas builds when a scalar is assigned to a column of an `n`-row frame. */
  function Fill(n: nat, v: Cell): (col: seq<Cell>)
    ensures |col| == n
    ensures forall i | 0 <= i < n :: col[i] == v
  {
    seq(n, _ => v)
  }

  /** `t.iloc[i]`: the cells of row `i`, keyed by column label. */
  function RowAt(t: Table, i: nat): (row: Row)
    requires WellFormed(t) && i < t.height
    ensures forall c :: c in row <==> c in t.columns
    ensures forall c | c in row :: row[c] == t.cells[c][i]
  {
    map c | c in t.cells :: t.cells[c][i]
  }

  /** A pandas DataFrame updated in place by column assignment. */
  class DataFrame {
    var columns: seq<string>
    var cells: map<string, seq<Cell>>
    var height: nat

    ghost predicate Valid()
      reads this
    {
      WellFormed(View())
    }

    function View(): Table
      reads this
    {
      Table(columns, cells, height)
    }

    /** `pd.DataFrame()`: no columns and no rows. */
    constructor ()
      ensures Valid()
      ensures columns == [] && cells == map[] && height == 0
    {
      columns, cells, height := [], map[], 0;
    }

    /**
     * `df[name] = value`. A series must be on the frame's own index, unless the
     * frame is still empty and adopts the series' index; a scalar is repeated in
     * every existing row. A new label is appended after the existing ones; an
     * existing label keeps its position.
     */
    method SetItem(name: string, value: Assigned)
      requires Valid()
      requires value.Series? && columns != [] ==> |value.col| == height
      modifies this
      ensures Valid()
      ensures name in old(columns) ==> columns == old(columns)
      ensures name !in old(columns) ==> columns == old(columns) + [name]
      ensures cells == old(cells)[name := Materialize(value, old(height))]
      ensures height == |Materialize(value, old(height))|
    {
      var col := Materialize(value, height);
      if name !in columns {
        columns := columns + [name];
      }
      cells := cells[name := col];
      height := |col|;
    }
  }
}
