/**
 * The spreadsheet mode detector `load_and_detect`: a workbook is classified as
 * SUMMARY, LEGACY or UNKNOWN by a fixed priority chain of column checks, and a
 * LEGACY sheet is normalised into a six-column table with defaults.
 */
module Detect {
  import opened Wrappers
  import opened Frame

  const SummarySheet: string := "SUMMARY"

  const Ticker: string := "티커"
  const Close: string := "종가"
  const Rsi: string := "RSI"
  const Name: string := "종목명"
  const Signal: string := "신호"
  const Score: string := "점수"
  const Judgement: string := "판단"
  const SignalUsd: string := "시그널가격(USD)"

  /** Columns a SUMMARY sheet must have. */
  const SummaryKeys: set<string> := {Ticker, SignalUsd, Rsi}
  /** Columns the first sheet must have to be read as LEGACY. */
  const LegacyKeys: set<string> := {Ticker, Close, Rsi}
  /** The columns of the normalised LEGACY table, in order. */
  const LegacyColumns: seq<string> := [Ticker, Close, Rsi, Name, Signal, Score]

  /** The six LEGACY labels are pairwise different: each pair differs in its first or second character. */
  lemma LegacyLabelsDiffer()
    ensures Ticker != Close && Ticker != Rsi && Ticker != Name && Ticker != Signal && Ticker != Score
    ensures Close != Rsi && Close != Name && Close != Signal && Close != Score
    ensures Rsi != Name && Rsi != Signal && Rsi != Score
    ensures Name != Signal && Name != Score
    ensures Signal != Score
  {
    assert Ticker[0] == '티' && Close[0] == '종' && Close[1] == '가' && Rsi[0] == 'R';
    assert Name[0] == '종' && Name[1] == '목' && Signal[0] == '신' && Score[0] == '점';
  }

  datatype Sheet = Sheet(name: string, table: Table)

  /** The workbook's sheets in `sheet_names` order. */
  type Workbook = seq<Sheet>

  /** Sheet names in a workbook are unique and every sheet reads as a table. */
  ghost predicate WellFormedWorkbook(wb: Workbook) {
    && (forall i, j | 0 <= i < j < |wb| :: wb[i].name != wb[j].name)
    && (forall i | 0 <= i < |wb| :: WellFormed(wb[i].table))
  }

  datatype Mode = SUMMARY | LEGACY | UNKNOWN

  /** `sheet_names[0]` of a workbook without sheets raises an IndexError. */
  datatype LoadError = NoSheets

  datatype Detected = Detected(mode: Mode, table: Table)

  /** The position of the first sheet at or after `from` named `name`, or None. */
  function SheetIndex(wb: Workbook, name: string, from: nat): (r: Option<nat>)
    decreases |wb| - from
    ensures r.Some? ==> from <= r.value < |wb| && wb[r.value].name == name
    ensures r.Some? ==> forall j | from <= j < r.value :: wb[j].name != name
    ensures r.None? ==> forall j | from <= j < |wb| :: wb[j].name != name
  {
    if from >= |wb| then None
    else if wb[from].name == name then Some(from)
    else SheetIndex(wb, name, from + 1)
  }

  /** `pd.read_excel(xls, sheet_name=name)`, or None when no sheet has that name. */
  function SheetNamed(wb: Workbook, name: string): Option<Table> {
    match SheetIndex(wb, name, 0)
    case None => None
    case Some(k) => Some(wb[k].table)
  }

  /** The SUMMARY branch fires: a sheet named SUMMARY exists and holds the SUMMARY columns. */
  predicate SummaryQualifies(wb: Workbook) {
    match SheetNamed(wb, SummarySheet)
    case None => false
    case Some(t) => HasAll(t, SummaryKeys)
  }

  /** The mode `load_and_detect` reports. */
  function Classify(wb: Workbook): Result<Mode, LoadError> {
    if SummaryQualifies(wb) then Ok(SUMMARY)
    else if |wb| == 0 then Err(NoSheets)
    else if HasAll(wb[0].table, LegacyKeys) then Ok(LEGACY)
    else Ok(UNKNOWN)
  }

  /**
   * `t` is the LEGACY table built from `raw`: the six columns in order, the same
   * rows, 티커/종가/RSI copied, 종목명 falling back to 티커, 신호 taken from 판단
   * or "-" in every row, and 점수 copied or missing in every row.
   */
  ghost predicate IsLegacyOf(raw: Table, t: Table)
    requires WellFormed(raw) && HasAll(raw, LegacyKeys)
  {
    && WellFormed(t)
    && t.columns == LegacyColumns
    && t.height == raw.height
    && t.cells[Ticker] == raw.cells[Ticker]
    && t.cells[Close] == raw.cells[Close]
    && t.cells[Rsi] == raw.cells[Rsi]
    && t.cells[Name] == (if Name in raw.cells then raw.cells[Name] else raw.cells[Ticker])
    && t.cells[Signal] == (if Judgement in raw.cells then raw.cells[Judgement] else Fill(raw.height, Text("-")))
    && t.cells[Score] == (if Score in raw.cells then raw.cells[Score] else Fill(raw.height, Missing))
  }

  /** What the LEGACY branch relies on in the raw sheet: its three key columns exist and every column has the sheet's height. */
  lemma LegacyInputs(raw: Table)
    requires WellFormed(raw) && HasAll(raw, LegacyKeys)
    ensures Ticker in raw.cells && Close in raw.cells && Rsi in raw.cells
    ensures |raw.cells[Ticker]| == |raw.cells[Close]| == |raw.cells[Rsi]| == raw.height
    ensures Name in raw.cells ==> |raw.cells[Name]| == raw.height
    ensures Judgement in raw.cells ==> |raw.cells[Judgement]| == raw.height
    ensures Score in raw.cells ==> |raw.cells[Score]| == raw.height
  {
    assert Ticker in LegacyKeys && Close in LegacyKeys && Rsi in LegacyKeys;
  }

  /** The cells of the LEGACY table, as its six column assignments leave them. */
  function LegacyCells(raw: Table): map<string, seq<Cell>>
    requires WellFormed(raw) && HasAll(raw, LegacyKeys)
  {
    map[]
      [Ticker := raw.cells[Ticker]]
      [Close := raw.cells[Close]]
      [Rsi := raw.cells[Rsi]]
      [Name := if Name in raw.cells then raw.cells[Name] else raw.cells[Ticker]]
      [Signal := Materialize(if Judgement in raw.cells then Series(raw.cells[Judgement]) else Scalar(Text("-")), raw.height)]
      [Score := Materialize(if Score in raw.cells then Series(raw.cells[Score]) else Scalar(Missing), raw.height)]
  }

  /** A well-formed table with the LEGACY columns, the raw height and those cells is the LEGACY table. */
  lemma LegacyAssembled(raw: Table, t: Table)
    requires WellFormed(raw) && HasAll(raw, LegacyKeys)
    requires WellFormed(t) && t.columns == LegacyColumns && t.height == raw.height
    requires t.cells == LegacyCells(raw)
    ensures IsLegacyOf(raw, t)
  {
    LegacyLabelsDiffer();
  }

  /** The LEGACY branch: an empty frame receives its six columns one assignment at a time. */
  method BuildLegacy(raw: Table) returns (t: Table)
    requires WellFormed(raw) && HasAll(raw, LegacyKeys)
    ensures IsLegacyOf(raw, t)
  {
    LegacyLabelsDiffer();
    LegacyInputs(raw);
    var df2 := new DataFrame();
    df2.SetItem(Ticker, Series(raw.cells[Ticker]));
    assert Close !in df2.columns;
    df2.SetItem(Close, Series(raw.cells[Close]));
    assert Rsi !in df2.columns;
    df2.SetItem(Rsi, Series(raw.cells[Rsi]));
    assert Name !in df2.columns;
    df2.SetItem(Name, Series(if Name in raw.cells then raw.cells[Name] else raw.cells[Ticker]));
    assert Signal !in df2.columns;
    df2.SetItem(Signal, if Judgement in raw.cells then Series(raw.cells[Judgement]) else Scalar(Text("-")));
    assert Score !in df2.columns;
    df2.SetItem(Score, if Score in raw.cells then Series(raw.cells[Score]) else Scalar(Missing));
    assert df2.columns == LegacyColumns;
    t := df2.View();
    LegacyAssembled(raw, t);
  }

  /**
   * `load_and_detect`: the SUMMARY sheet unchanged when it qualifies; otherwise
   * the first sheet, normalised when it has the LEGACY columns and raw when not.
   */
  method LoadAndDetect(wb: Workbook) returns (r: Result<Detected, LoadError>)
    requires WellFormedWorkbook(wb)
    ensures r.Err? <==> |wb| == 0
    ensures r.Ok? ==> Classify(wb) == Ok(r.value.mode)
    ensures r.Ok? && r.value.mode == SUMMARY ==> SheetNamed(wb, SummarySheet) == Some(r.value.table)
    ensures r.Ok? && r.value.mode == LEGACY ==>
      |wb| > 0 && HasAll(wb[0].table, LegacyKeys) && IsLegacyOf(wb[0].table, r.value.table)
    ensures r.Ok? && r.value.mode == UNKNOWN ==> |wb| > 0 && r.value.table == wb[0].table
    ensures r.Ok? && r.value.mode != UNKNOWN ==> WellFormed(r.value.table) && Ticker in r.value.table.cells
  {
    var sum := SheetNamed(wb, SummarySheet);
    if sum.Some? {
      if HasAll(sum.value, SummaryKeys) {
        return Ok(Detected(SUMMARY, sum.value));
      }
    }
    if |wb| == 0 {
      return Err(NoSheets);
    }
    var raw := wb[0].table;
    if HasAll(raw, LegacyKeys) {
      var df2 := BuildLegacy(raw);
      return Ok(Detected(LEGACY, df2));
    }
    return Ok(Detected(UNKNOWN, raw));
  }

  /** With unique sheet names, looking a sheet up by its name finds that very sheet, and a name no sheet has finds none. */
  lemma SheetNamedFindsSheet(wb: Workbook, i: nat, name: string)
    requires WellFormedWorkbook(wb) && i < |wb|
    ensures SheetNamed(wb, wb[i].name) == Some(wb[i].table)
    ensures SheetNamed(wb, name).None? <==> forall j | 0 <= j < |wb| :: wb[j].name != name
  {
  }

  /** The SUMMARY branch fires exactly when some sheet is named SUMMARY and holds the SUMMARY columns. */
  lemma SummaryQualifiesIff(wb: Workbook)
    requires WellFormedWorkbook(wb)
    ensures SummaryQualifies(wb) <==>
      exists i :: 0 <= i < |wb| && wb[i].name == SummarySheet && HasAll(wb[i].table, SummaryKeys)
  {
  }

  /**
   * SUMMARY wins first: a qualifying SUMMARY sheet anywhere in the workbook
   * decides the mode, whatever the first sheet holds.
   */
  lemma SummaryWinsFirst(wb: Workbook, i: nat)
    requires WellFormedWorkbook(wb) && i < |wb|
    requires wb[i].name == SummarySheet && HasAll(wb[i].table, SummaryKeys)
    ensures Classify(wb) == Ok(SUMMARY)
    ensures SheetNamed(wb, SummarySheet) == Some(wb[i].table)
  {
  }

  /**
   * The fallback reads `sheet_names[0]` even when that first sheet is the
   * SUMMARY sheet that just failed its column check.
   */
  lemma FallbackReadsFailingSummary(wb: Workbook)
    requires WellFormedWorkbook(wb) && |wb| > 0
    requires wb[0].name == SummarySheet && !HasAll(wb[0].table, SummaryKeys)
    ensures Classify(wb) == Ok(if HasAll(wb[0].table, LegacyKeys) then LEGACY else UNKNOWN)
  {
  }

  /**
   * LEGACY exactly when no sheet named SUMMARY qualifies and the first sheet
   * has the LEGACY columns.
   */
  lemma LegacyIff(wb: Workbook)
    requires WellFormedWorkbook(wb)
    ensures Classify(wb) == Ok(LEGACY) <==>
      && |wb| > 0
      && HasAll(wb[0].table, LegacyKeys)
      && forall i | 0 <= i < |wb| :: wb[i].name == SummarySheet ==> !HasAll(wb[i].table, SummaryKeys)
  {
    SummaryQualifiesIff(wb);
  }

  /** UNKNOWN exactly when neither the SUMMARY nor the LEGACY check passes on a non-empty workbook. */
  lemma UnknownIff(wb: Workbook)
    requires WellFormedWorkbook(wb)
    ensures Classify(wb) == Ok(UNKNOWN) <==>
      && |wb| > 0
      && !HasAll(wb[0].table, LegacyKeys)
      && forall i | 0 <= i < |wb| :: wb[i].name == SummarySheet ==> !HasAll(wb[i].table, SummaryKeys)
  {
    SummaryQualifiesIff(wb);
  }

  /** Every workbook with a sheet gets exactly one mode; only an empty one fails. */
  lemma ExactlyOneMode(wb: Workbook)
    ensures Classify(wb).Err? <==> |wb| == 0
  {
  }

  /** Row by row, the LEGACY table is the raw row projected onto six columns with the documented defaults. */
  lemma LegacyRow(raw: Table, t: Table, i: nat)
    requires WellFormed(raw) && HasAll(raw, LegacyKeys)
    requires IsLegacyOf(raw, t) && i < raw.height
    ensures i < t.height
    ensures RowAt(t, i).Keys == {Ticker, Close, Rsi, Name, Signal, Score}
    ensures RowAt(t, i)[Ticker] == raw.cells[Ticker][i]
    ensures RowAt(t, i)[Close] == raw.cells[Close][i]
    ensures RowAt(t, i)[Rsi] == raw.cells[Rsi][i]
    ensures RowAt(t, i)[Name] == (if Name in raw.cells then raw.cells[Name][i] else raw.cells[Ticker][i])
    ensures RowAt(t, i)[Signal] == (if Judgement in raw.cells then raw.cells[Judgement][i] else Text("-"))
    ensures RowAt(t, i)[Score] == (if Score in raw.cells then raw.cells[Score][i] else Missing)
  {
    assert RowAt(t, i).Keys == t.cells.Keys;
    assert t.cells.Keys == {Ticker, Close, Rsi, Name, Signal, Score};
  }
}
