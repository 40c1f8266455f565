/**
 * Choosing the row to display: the selectable names are the 종목명 column (or
 * the 티커 column when there is none), a name is mapped to a ticker by
 * `dict(zip(names, tickers))`, and the row shown is the first one whose 티커
 * equals that ticker.
 */
module Selection {
  import opened Wrappers
  import opened Frame
  import opened Detect

  /** `ticker_map[selected_name]` raises KeyError; `.iloc[0]` of an empty filter raises IndexError. */
  datatype SelectError = KeyError | IndexError

  /** The selectable names: the 종목명 column when the table has one, the 티커 column otherwise. */
  function Names(df: Table): seq<Cell>
    requires WellFormed(df) && Ticker in df.cells
  {
    if Name in df.cells then df.cells[Name] else df.cells[Ticker]
  }

  /** `zip(a, b)`: pairs up to the shorter length. */
  function Zip(a: seq<Cell>, b: seq<Cell>): (z: seq<(Cell, Cell)>)
    ensures |z| == if |a| < |b| then |a| else |b|
    ensures forall i | 0 <= i < |z| :: z[i] == (a[i], b[i])
  {
    if a == [] || b == [] then [] else [(a[0], b[0])] + Zip(a[1..], b[1..])
  }

  /** Position `i` holds the last pair with its key among the first `n`. */
  predicate LastKeyAt(pairs: seq<(Cell, Cell)>, n: nat, i: nat)
    requires i < n <= |pairs|
  {
    forall j | i < j < n :: pairs[j].0 != pairs[i].0
  }

  /** The dictionary after the first `n` pairs have been inserted in order. */
  function InsertPairs(pairs: seq<(Cell, Cell)>, n: nat): (m: map<Cell, Cell>)
    requires n <= |pairs|
    ensures forall i | 0 <= i < n :: pairs[i].0 in m
    ensures forall k | k in m :: exists i :: 0 <= i < n && pairs[i].0 == k
    ensures forall i | 0 <= i < n && LastKeyAt(pairs, n, i) :: m[pairs[i].0] == pairs[i].1
  {
    if n == 0 then map[]
    else
      var m := InsertPairs(pairs, n - 1);
      assert forall i | 0 <= i < n - 1 && LastKeyAt(pairs, n, i) :: LastKeyAt(pairs, n - 1, i);
      m[pairs[n - 1].0 := pairs[n - 1].1]
  }

  /**
   * `dict(pairs)`: pairs are inserted in order, so the keys are exactly the
   * first components and a repeated key keeps the value of its LAST pair.
   */
  function Dict(pairs: seq<(Cell, Cell)>): (m: map<Cell, Cell>)
    ensures forall i | 0 <= i < |pairs| :: pairs[i].0 in m
    ensures forall k | k in m :: exists i :: 0 <= i < |pairs| && pairs[i].0 == k
    ensures forall i | 0 <= i < |pairs| && LastKeyAt(pairs, |pairs|, i) :: m[pairs[i].0] == pairs[i].1
  {
    InsertPairs(pairs, |pairs|)
  }

  /** `dict(zip(names, tickers))`, the name-to-ticker map. */
  function TickerMap(names: seq<Cell>, tickers: seq<Cell>): map<Cell, Cell> {
    Dict(Zip(names, tickers))
  }

  /** Element-wise `==` of pandas: a missing value equals nothing, not even another missing value. */
  predicate CellEq(a: Cell, b: Cell) {
    a != Missing && a == b
  }

  /** The first row at or after `from` whose cell equals `key`, or None. */
  function FirstMatch(col: seq<Cell>, key: Cell, from: nat): (r: Option<nat>)
    decreases |col| - from
    ensures r.Some? ==> from <= r.value < |col| && CellEq(col[r.value], key)
    ensures r.Some? ==> forall j | from <= j < r.value :: !CellEq(col[j], key)
    ensures r.None? ==> forall j | from <= j < |col| :: !CellEq(col[j], key)
  {
    if from >= |col| then None
    else if CellEq(col[from], key) then Some(from)
    else FirstMatch(col, key, from + 1)
  }

  /** `ticker = ticker_map[selected_name]; row = df[df["티커"] == ticker].iloc[0]`, as a row index. */
  function Select(df: Table, selected: Cell): Result<nat, SelectError>
    requires WellFormed(df) && Ticker in df.cells
  {
    var m := TickerMap(Names(df), df.cells[Ticker]);
    if selected !in m then Err(KeyError)
    else
      match FirstMatch(df.cells[Ticker], m[selected], 0)
      case None => Err(IndexError)
      case Some(i) => Ok(i)
  }

  /** The position of the last occurrence of `s` in `names`. */
  function LastIndex(names: seq<Cell>, s: Cell): (k: nat)
    requires s in names
    ensures k < |names| && names[k] == s
    ensures forall j | k < j < |names| :: names[j] != s
  {
    var n := |names| - 1;
    if names[n] == s then n else LastIndex(names[..n], s)
  }

  /**
   * Row `i` is the one shown for the selected name `s`: its 티커 equals the
   * ticker on the last row named `s`, and no earlier row's 티커 does.
   */
  ghost predicate ShowsRow(df: Table, s: Cell, i: nat)
    requires WellFormed(df) && Ticker in df.cells
  {
    var tickers := df.cells[Ticker];
    && s in Names(df)
    && var k := LastIndex(Names(df), s);
    && i <= k
    && CellEq(tickers[i], tickers[k])
    && forall j | 0 <= j < i :: !CellEq(tickers[j], tickers[k])
  }

  /** `dict(zip(names, tickers))` offers exactly the names, each mapped to the ticker on its last row. */
  lemma {:induction false} TickerMapLookup(names: seq<Cell>, tickers: seq<Cell>, s: Cell)
    requires |names| == |tickers|
    ensures s in TickerMap(names, tickers) <==> s in names
    ensures s in names ==> TickerMap(names, tickers)[s] == tickers[LastIndex(names, s)]
  {
    var z := Zip(names, tickers);
    if s in names {
      var k := LastIndex(names, s);
      assert z[k] == (s, tickers[k]);
      assert LastKeyAt(z, |z|, k);
    } else {
      assert forall i | 0 <= i < |z| :: z[i].0 == names[i];
    }
  }

  /**
   * The selection fails with KeyError exactly for a name that is not offered,
   * fails with IndexError exactly when the ticker kept for the name is missing,
   * and otherwise shows the first row carrying the ticker of the name's last row.
   */
  lemma {:induction false} SelectOutcome(df: Table, s: Cell)
    requires WellFormed(df) && Ticker in df.cells
    ensures Select(df, s) == Err(KeyError) <==> s !in Names(df)
    ensures Select(df, s) == Err(IndexError) <==>
      s in Names(df) && df.cells[Ticker][LastIndex(Names(df), s)] == Missing
    ensures Select(df, s).Ok? ==> ShowsRow(df, s, Select(df, s).value)
  {
    var names, tickers := Names(df), df.cells[Ticker];
    assert |names| == |tickers| == df.height;
    TickerMapLookup(names, tickers, s);
    if s in names {
      var k := LastIndex(names, s);
      var r := FirstMatch(tickers, tickers[k], 0);
      assert Select(df, s) == (if r.None? then Err(IndexError) else Ok(r.value));
      if tickers[k] == Missing {
        assert r.None?;
      } else {
        assert CellEq(tickers[k], tickers[k]);
        assert r.Some? && r.value <= k;
      }
    }
  }

  /** Without a 종목명 column, selecting a ticker shows the first row carrying it. */
  lemma {:induction false} SelectByTicker(df: Table, i: nat)
    requires WellFormed(df) && Ticker in df.cells && Name !in df.cells
    requires i < df.height && df.cells[Ticker][i] != Missing
    requires forall j | 0 <= j < i :: df.cells[Ticker][j] != df.cells[Ticker][i]
    ensures Select(df, df.cells[Ticker][i]) == Ok(i)
  {
    var tickers := df.cells[Ticker];
    var s := tickers[i];
    SelectOutcome(df, s);
    var k := LastIndex(tickers, s);
    assert tickers[k] == s;
  }
}
