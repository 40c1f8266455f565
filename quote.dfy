/**
 * The values shown for the selected row. In SUMMARY mode they are read from
 * the sheet's own columns; in LEGACY mode only the price, RSI and signal exist
 * and every SUMMARY-only value is None.
 */
module Quote {
  import opened Wrappers
  import opened Frame
  import opened Detect

  const SignalKrw: string := "시그널가격(KRW)"
  const Dist: string := "저점대비(%)"
  const Grade: string := "등급"
  const Hold: string := "HOLD"
  const TpPct: string := "TP(%)"
  const SlPct: string := "SL(%)"
  const TpUsd: string := "TP목표가(USD)"
  const SlUsd: string := "SL손절가(USD)"
  const TpKrw: string := "TP목표가(KRW)"
  const SlKrw: string := "SL손절가(KRW)"
  const WinRate: string := "승률(%)"
  const AvgRet: string := "평균수익률(%)"
  const Confidence: string := "신뢰도(%)"

  /** The columns each mode reads unconditionally, in the order it reads them. */
  const SummaryReads: seq<string> :=
    [SignalUsd, SignalKrw, Dist, Rsi, Grade, Hold, TpPct, SlPct, TpUsd, SlUsd, TpKrw, SlKrw, WinRate, AvgRet]
  const LegacyReads: seq<string> := [Close, Rsi, Signal]

  /**
   * A displayed value: None, the value of a cell (`float(cell)`, `int(cell)`
   * or the cell itself), or a USD cell converted to KRW at the current rate.
   */
  datatype Field = Nothing | Value(c: Cell) | Krw(usd: Cell)

  datatype Quote = Quote(
    sigUsd: Field, sigKrw: Field, dist: Field, rsi: Field, grade: Field, hold: Field,
    tpPct: Field, slPct: Field, tpUsd: Field, slUsd: Field, tpKrw: Field, slKrw: Field,
    winRate: Field, avgRet: Field, confidence: Field)

  /** `row[column]` of an absent column raises KeyError. */
  datatype KeyError = KeyError(column: string)

  function Reads(mode: Mode): seq<string> {
    if mode == SUMMARY then SummaryReads else LegacyReads
  }

  /** Every column the mode reads unconditionally is in the row. */
  predicate Readable(mode: Mode, row: Row) {
    forall k | k in Reads(mode) :: k in row
  }

  /** `column` is the first of `keys` missing from the row. */
  predicate FirstAbsent(keys: seq<string>, row: Row, column: string) {
    exists i :: 0 <= i < |keys| && keys[i] == column && column !in row && forall j | 0 <= j < i :: keys[j] in row
  }

  /** A read of the `i`-th column fails when every earlier read succeeded: the error names the first absent column. */
  lemma MissingRead(keys: seq<string>, row: Row, i: nat)
    requires i < |keys| && keys[i] !in row
    requires forall j | 0 <= j < i :: keys[j] in row
    ensures FirstAbsent(keys, row, keys[i])
    ensures !(forall k | k in keys :: k in row)
  {
    assert keys[i] in keys;
  }

  /** The values that exist only in SUMMARY mode are all None. */
  predicate SummaryOnlyAbsent(q: Quote) {
    && q.dist == Nothing && q.hold == Nothing && q.tpPct == Nothing && q.slPct == Nothing
    && q.tpUsd == Nothing && q.slUsd == Nothing && q.tpKrw == Nothing && q.slKrw == Nothing
    && q.winRate == Nothing && q.avgRet == Nothing && q.confidence == Nothing
  }

  /** `f` is None exactly when the column is absent or its cell is missing, and the cell otherwise. */
  predicate NoneWhenMissing(f: Field, row: Row, column: string) {
    && (f == Nothing <==> column !in row || row[column] == Missing)
    && (f != Nothing ==> column in row && f == Value(row[column]))
  }

  /** The SUMMARY reads, position by position. */
  lemma SummaryReadsSpelled()
    ensures |SummaryReads| == 14
    ensures SummaryReads[0] == SignalUsd && SummaryReads[1] == SignalKrw && SummaryReads[2] == Dist
    ensures SummaryReads[3] == Rsi && SummaryReads[4] == Grade && SummaryReads[5] == Hold
    ensures SummaryReads[6] == TpPct && SummaryReads[7] == SlPct && SummaryReads[8] == TpUsd
    ensures SummaryReads[9] == SlUsd && SummaryReads[10] == TpKrw && SummaryReads[11] == SlKrw
    ensures SummaryReads[12] == WinRate && SummaryReads[13] == AvgRet
  {
  }

  /** The SUMMARY block: fourteen reads in order, the KRW prices and the confidence None when missing. */
  method ExtractSummary(row: Row) returns (r: Result<Quote, KeyError>)
    ensures r.Err? <==> !Readable(SUMMARY, row)
    ensures r.Err? ==> FirstAbsent(SummaryReads, row, r.error.column)
    ensures r.Ok? ==>
      && r.value.sigUsd == Value(row[SignalUsd]) && r.value.dist == Value(row[Dist])
      && r.value.rsi == Value(row[Rsi]) && r.value.grade == Value(row[Grade])
      && r.value.hold == Value(row[Hold]) && r.value.tpPct == Value(row[TpPct])
      && r.value.slPct == Value(row[SlPct]) && r.value.tpUsd == Value(row[TpUsd])
      && r.value.slUsd == Value(row[SlUsd]) && r.value.winRate == Value(row[WinRate])
      && r.value.avgRet == Value(row[AvgRet])
      && NoneWhenMissing(r.value.sigKrw, row, SignalKrw)
      && NoneWhenMissing(r.value.tpKrw, row, TpKrw)
      && NoneWhenMissing(r.value.slKrw, row, SlKrw)
      && NoneWhenMissing(r.value.confidence, row, Confidence)
  {
    SummaryReadsSpelled();
    if SignalUsd !in row {
      MissingRead(SummaryReads, row, 0);
      return Err(KeyError(SignalUsd));
    }
    var sigUsd := Value(row[SignalUsd]);
    if SignalKrw !in row {
      MissingRead(SummaryReads, row, 1);
      return Err(KeyError(SignalKrw));
    }
    var sigKrw := if row[SignalKrw] != Missing then Value(row[SignalKrw]) else Nothing;
    if Dist !in row {
      MissingRead(SummaryReads, row, 2);
      return Err(KeyError(Dist));
    }
    var dist := Value(row[Dist]);
    if Rsi !in row {
      MissingRead(SummaryReads, row, 3);
      return Err(KeyError(Rsi));
    }
    var rsi := Value(row[Rsi]);
    if Grade !in row {
      MissingRead(SummaryReads, row, 4);
      return Err(KeyError(Grade));
    }
    var grade := Value(row[Grade]);
    if Hold !in row {
      MissingRead(SummaryReads, row, 5);
      return Err(KeyError(Hold));
    }
    var hold := Value(row[Hold]);
    if TpPct !in row {
      MissingRead(SummaryReads, row, 6);
      return Err(KeyError(TpPct));
    }
    var tpPct := Value(row[TpPct]);
    if SlPct !in row {
      MissingRead(SummaryReads, row, 7);
      return Err(KeyError(SlPct));
    }
    var slPct := Value(row[SlPct]);
    if TpUsd !in row {
      MissingRead(SummaryReads, row, 8);
      return Err(KeyError(TpUsd));
    }
    var tpUsd := Value(row[TpUsd]);
    if SlUsd !in row {
      MissingRead(SummaryReads, row, 9);
      return Err(KeyError(SlUsd));
    }
    var slUsd := Value(row[SlUsd]);
    if TpKrw !in row {
      MissingRead(SummaryReads, row, 10);
      return Err(KeyError(TpKrw));
    }
    var tpKrw := if row[TpKrw] != Missing then Value(row[TpKrw]) else Nothing;
    if SlKrw !in row {
      MissingRead(SummaryReads, row, 11);
      return Err(KeyError(SlKrw));
    }
    var slKrw := if row[SlKrw] != Missing then Value(row[SlKrw]) else Nothing;
    if WinRate !in row {
      MissingRead(SummaryReads, row, 12);
      return Err(KeyError(WinRate));
    }
    var winRate := Value(row[WinRate]);
    if AvgRet !in row {
      MissingRead(SummaryReads, row, 13);
      return Err(KeyError(AvgRet));
    }
    var avgRet := Value(row[AvgRet]);
    var confidence := if Confidence in row && row[Confidence] != Missing then Value(row[Confidence]) else Nothing;
    return Ok(Quote(sigUsd, sigKrw, dist, rsi, grade, hold, tpPct, slPct, tpUsd, slUsd, tpKrw, slKrw,
                    winRate, avgRet, confidence));
  }

  /** The LEGACY block: price, RSI and signal are read; every SUMMARY-only value is None. */
  method ExtractLegacy(row: Row) returns (r: Result<Quote, KeyError>)
    ensures r.Err? <==> !Readable(LEGACY, row)
    ensures r.Err? ==> FirstAbsent(LegacyReads, row, r.error.column)
    ensures r.Ok? ==>
      && r.value.sigUsd == Value(row[Close]) && r.value.sigKrw == Krw(row[Close])
      && r.value.rsi == Value(row[Rsi]) && r.value.grade == Value(row[Signal])
      && SummaryOnlyAbsent(r.value)
  {
    if Close !in row {
      MissingRead(LegacyReads, row, 0);
      return Err(KeyError(Close));
    }
    var sigUsd := Value(row[Close]);
    var sigKrw := Krw(row[Close]);
    if Rsi !in row {
      MissingRead(LegacyReads, row, 1);
      return Err(KeyError(Rsi));
    }
    var rsi := Value(row[Rsi]);
    if Signal !in row {
      MissingRead(LegacyReads, row, 2);
      return Err(KeyError(Signal));
    }
    var grade := Value(row[Signal]);
    return Ok(Quote(sigUsd, sigKrw, Nothing, rsi, grade, Nothing, Nothing, Nothing, Nothing, Nothing,
                    Nothing, Nothing, Nothing, Nothing, Nothing));
  }

  /**
   * The SUMMARY / LEGACY parsing block for the selected row. A read of an
   * absent column raises KeyError for the first such column.
   */
  method ExtractQuote(mode: Mode, row: Row) returns (r: Result<Quote, KeyError>)
    requires mode != UNKNOWN
    ensures r.Err? <==> !Readable(mode, row)
    ensures r.Err? ==> FirstAbsent(Reads(mode), row, r.error.column)
    ensures r.Ok? && mode == LEGACY ==>
      && r.value.sigUsd == Value(row[Close]) && r.value.sigKrw == Krw(row[Close])
      && r.value.rsi == Value(row[Rsi]) && r.value.grade == Value(row[Signal])
      && SummaryOnlyAbsent(r.value)
    ensures r.Ok? && mode == SUMMARY ==>
      && r.value.sigUsd == Value(row[SignalUsd]) && r.value.dist == Value(row[Dist])
      && r.value.rsi == Value(row[Rsi]) && r.value.grade == Value(row[Grade])
      && r.value.hold == Value(row[Hold]) && r.value.tpPct == Value(row[TpPct])
      && r.value.slPct == Value(row[SlPct]) && r.value.tpUsd == Value(row[TpUsd])
      && r.value.slUsd == Value(row[SlUsd]) && r.value.winRate == Value(row[WinRate])
      && r.value.avgRet == Value(row[AvgRet])
      && NoneWhenMissing(r.value.sigKrw, row, SignalKrw)
      && NoneWhenMissing(r.value.tpKrw, row, TpKrw)
      && NoneWhenMissing(r.value.slKrw, row, SlKrw)
      && NoneWhenMissing(r.value.confidence, row, Confidence)
  {
    if mode == SUMMARY {
      r := ExtractSummary(row);
    } else {
      r := ExtractLegacy(row);
    }
  }

  /** Every row of a LEGACY table has the columns LEGACY mode reads, so its extraction never raises KeyError. */
  lemma LegacyRowsReadable(raw: Table, t: Table, i: nat)
    requires WellFormed(raw) && HasAll(raw, LegacyKeys)
    requires IsLegacyOf(raw, t) && i < t.height
    ensures Readable(LEGACY, RowAt(t, i))
    ensures RowAt(t, i)[Signal] == (if Judgement in raw.cells then raw.cells[Judgement][i] else Text("-"))
  {
    LegacyRow(raw, t, i);
  }

  /** A SUMMARY sheet holding only the three columns the SUMMARY check looks at, with one row. */
  const ThinSummary: Table :=
    Table([Ticker, SignalUsd, Rsi], map[Ticker := [Text("AAPL")], SignalUsd := [Number(150.0)], Rsi := [Number(55.2)]], 1)

  lemma ThinSummaryWellFormed()
    ensures WellFormed(ThinSummary)
  {
    assert Ticker[0] == '티' && SignalUsd[0] == '시' && Rsi[0] == 'R';
    assert ThinSummary.cells.Keys == (set c | c in ThinSummary.columns);
  }

  lemma ThinSummaryLacksKrw()
    requires WellFormed(ThinSummary)
    ensures SignalUsd in RowAt(ThinSummary, 0) && SignalKrw !in RowAt(ThinSummary, 0)
  {
    assert SignalKrw[0] == '시' && SignalKrw[5] == '(' && SignalKrw[6] == 'K';
    assert SignalUsd[6] == 'U' && Ticker[0] == '티' && Rsi[0] == 'R';
  }

  /**
   * The SUMMARY check looks at three columns while SUMMARY extraction reads
   * fourteen: a sheet named SUMMARY with only 티커, 시그널가격(USD) and RSI is
   * accepted, and reading its first row raises KeyError for 시그널가격(KRW).
   */
  lemma SummaryCheckAdmitsUnreadableRows()
    ensures WellFormed(ThinSummary)
    ensures Classify([Sheet(SummarySheet, ThinSummary)]) == Ok(SUMMARY)
    ensures !Readable(SUMMARY, RowAt(ThinSummary, 0))
    ensures FirstAbsent(SummaryReads, RowAt(ThinSummary, 0), SignalKrw)
  {
    ThinSummaryWellFormed();
    var wb := [Sheet(SummarySheet, ThinSummary)];
    assert SheetNamed(wb, SummarySheet) == Some(ThinSummary);
    ThinSummaryLacksKrw();
    MissingRead(SummaryReads, RowAt(ThinSummary, 0), 1);
  }
}
