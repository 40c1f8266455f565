# ODIN'S SPEAR dashboard: mode detection and row selection

This project models the deterministic core of the ODIN'S SPEAR STRATEGY dashboard (`dashboard.py`). It proves properties of that model in Dafny.

A user uploads a result workbook. The dashboard then does four things:

1. **Detects the mode** (`load_and_detect`). If a sheet named `SUMMARY` exists and has the columns 티커, 시그널가격(USD) and RSI, the mode is `SUMMARY` and that sheet is used unchanged. Otherwise the first sheet is read. If it has 티커, 종가 and RSI, the mode is `LEGACY`: the sheet is copied into a new frame with exactly six columns (티커, 종가, RSI, 종목명, 신호, 점수), one column assignment at a time. 종목명 defaults to 티커, 신호 is taken from 판단 or is `"-"`, and 점수 is all-missing when absent. Any other sheet is returned raw as `UNKNOWN`.
2. **Selects a row.** The selectable names are the 종목명 column, or 티커 when there is no 종목명. `dict(zip(names, tickers))` maps a name to a ticker, so a repeated name keeps the ticker of its last row. The row shown is the first row whose 티커 equals that ticker.
3. **Extracts the displayed values** for that row, per mode.
4. **Chooses the time axis** of the price chart (`load_price_data`).

Modules:

- `wrappers.dfy` (`Wrappers`): `Option` and `Result`.
- `frame.dfy` (`Frame`): defines cells, tables and rows. Its class `DataFrame` is a pandas frame updated in place by `df[name] = value`.
- `detect.dfy` (`Detect`):
  - `Classify` is the pure priority chain.
  - `BuildLegacy` is the imperative LEGACY normaliser, proved against `IsLegacyOf`.
  - `LoadAndDetect` is `load_and_detect`, proved against `Classify`.
  - Lemmas cover the priority order.
- `selection.dfy` (`Selection`): `zip`, `dict` (last key wins), the first-match row filter, and the outcome of a selection.
- `quote.dfy` (`Quote`): `ExtractQuote`, the per-mode parsing block, and how it relates to the detected tables.
- `chart.dfy` (`Chart`): the time-column choice.

Modelling conventions:

- A cell is `Missing` (NaN or None), `Text` or `Number`. Numbers are carried and never computed with.
- pandas element-wise `==` never matches a missing value. `CellEq` models this.
- A workbook is its sheets in `sheet_names` order. Sheet names are unique, as in an xlsx file.
- `sheet_names[0]` of a workbook with no sheets raises IndexError. The model returns `Err(NoSheets)` for this.
- `row[c]` of an absent column raises KeyError. `ExtractQuote` returns `Err(KeyError(c))` naming the first absent column in the order the source reads them.
- In SUMMARY mode only the 신뢰도(%) read is guarded by `in row`. Every other read raises KeyError when its column is absent.

The SUMMARY check looks at 3 columns, but SUMMARY extraction reads 14. So a sheet named SUMMARY that has only 티커, 시그널가격(USD) and RSI is accepted, and reading its row then raises KeyError for 시그널가격(KRW). The lemma `Quote.SummaryCheckAdmitsUnreadableRows` exhibits this.

Other revisions of the dashboard add header sanitation, column aliases, an `ODIN_AI` mode and safe numeric coercion. `dashboard.py` has none of them, so the model has none either. Its LEGACY defaults are the ones this file applies: 점수 becomes all-missing, not 0, and there are no probability columns.

## Model

| member | source | states |
|---|---|---|
| `Frame.DataFrame.constructor` | dashboard.py:54 | `pd.DataFrame()` has no columns, no cells and no rows |
| `Frame.DataFrame.SetItem` | dashboard.py:55-60 | `df[name] = value` keeps the frame well formed. A new label is appended after the existing ones and an existing label keeps its place. The label's column becomes the series, or the scalar repeated once per existing row. A series assigned to an empty frame sets the row count |
| `Frame.Materialize` | dashboard.py:59-60 | a scalar right-hand side yields a column of the frame's height holding that scalar in every row. A series yields itself |
| `Frame.RowAt` | dashboard.py:93 | `iloc[i]` holds exactly the table's column labels, each mapped to that column's cell in row `i` |
| `Detect.SheetIndex` | dashboard.py:46-47 | the lookup behind reading a sheet by name: the position of the first sheet at or after a given position that has the name, or None exactly when no sheet from there on has it |
| `Detect.SheetNamedFindsSheet` | dashboard.py:47 | with unique sheet names, reading a sheet by its name returns that very sheet, and reading a name no sheet has gives nothing |
| `Detect.BuildLegacy` | dashboard.py:54-61 | the LEGACY frame has exactly the columns 티커, 종가, RSI, 종목명, 신호, 점수 in that order and as many rows as the raw sheet. 티커, 종가 and RSI are copied. 종목명 is copied or falls back to 티커. 신호 is 판단 or `"-"` in every row. 점수 is copied or missing in every row |
| `Detect.LoadAndDetect` | dashboard.py:42-64 | fails only on a workbook without sheets. The mode is `Classify`'s. SUMMARY returns the SUMMARY sheet unchanged, LEGACY returns the LEGACY table of the first sheet, and UNKNOWN returns the first sheet unchanged. SUMMARY and LEGACY tables are well formed and have a 티커 column |
| `Detect.SummaryQualifiesIff` | dashboard.py:46-48 | the SUMMARY branch fires exactly when some sheet is named SUMMARY and has 티커, 시그널가격(USD) and RSI |
| `Detect.SummaryWinsFirst` | dashboard.py:46-49 | a qualifying SUMMARY sheet at any position makes the mode SUMMARY and is the returned sheet, whatever the first sheet holds |
| `Detect.FallbackReadsFailingSummary` | dashboard.py:46-53 | when the first sheet is the SUMMARY sheet and fails its check, the fallback classifies that same sheet as LEGACY if it has 티커, 종가 and RSI, and as UNKNOWN otherwise |
| `Detect.LegacyIff` | dashboard.py:52-61 | LEGACY exactly when the workbook has a sheet, the first sheet has 티커, 종가 and RSI, and no sheet named SUMMARY has the SUMMARY columns |
| `Detect.UnknownIff` | dashboard.py:63-64 | UNKNOWN exactly when the workbook has a sheet, the first sheet lacks one of 티커, 종가 and RSI, and no sheet named SUMMARY has the SUMMARY columns |
| `Detect.ExactlyOneMode` | dashboard.py:42-64 | every workbook with at least one sheet gets a mode. Only an empty workbook fails |
| `Detect.LegacyRow` | dashboard.py:54-60 | each LEGACY row has exactly the six labels. It holds the raw row's 티커, 종가 and RSI, the 종목명-or-티커 name, the 판단-or-`"-"` signal, and the 점수-or-missing score |
| `Selection.Zip` | dashboard.py:87 | `zip` pairs the two lists element by element up to the shorter length |
| `Selection.InsertPairs` | dashboard.py:87 | inserting the first `n` pairs in order gives exactly their keys. Each key maps to the value of its last pair among them |
| `Selection.Dict` | dashboard.py:87 | `dict(pairs)` has exactly the first components as keys. A repeated key maps to the value of its last pair |
| `Selection.TickerMapLookup` | dashboard.py:87 | `dict(zip(names, tickers))` has a name as a key exactly when the name is offered. It maps the name to the ticker on the name's last row |
| `Selection.FirstMatch` | dashboard.py:93 | the filter-then-`iloc[0]` index is the first row whose cell equals the ticker under pandas `==`. None means no row does |
| `Selection.SelectOutcome` | dashboard.py:82-93 | selection raises KeyError exactly for a name not among the 종목명 (or 티커) values. It raises IndexError exactly when the ticker on the name's last row is missing. Otherwise it shows the first row whose 티커 equals that ticker, at or before that last row |
| `Selection.SelectByTicker` | dashboard.py:84-93 | without a 종목명 column, selecting a non-missing ticker shows the first row that carries it |
| `Quote.ExtractSummary` | dashboard.py:98-113 | fails with KeyError exactly when one of the fourteen SUMMARY columns is absent, and names the first one in read order. Otherwise each value is read from its own column. 시그널가격(KRW), TP목표가(KRW) and SL손절가(KRW) are None exactly when their cell is missing. 신뢰도(%) is None exactly when its column is absent or its cell is missing |
| `Quote.ExtractLegacy` | dashboard.py:115-130 | fails with KeyError exactly when 종가, RSI or 신호 is absent, and names the first one in that order. Otherwise the price and KRW price come from 종가, RSI from RSI and the grade from 신호, and every SUMMARY-only value is None |
| `Quote.ExtractQuote` | dashboard.py:98-130 | fails with KeyError exactly when a column the mode reads is absent, and names the first one in read order. LEGACY: the price and KRW price come from 종가, RSI from RSI and the grade from 신호; every SUMMARY-only value is None. SUMMARY: every value is read from its column. 시그널가격(KRW), TP목표가(KRW) and SL손절가(KRW) are None exactly when their cell is missing. 신뢰도(%) is None exactly when its column is absent or its cell is missing |
| `Quote.LegacyRowsReadable` | dashboard.py:115-119 | every row of a LEGACY table has 종가, RSI and 신호, so LEGACY extraction never raises KeyError. Its grade is 판단 or `"-"` |
| `Quote.SummaryCheckAdmitsUnreadableRows` | dashboard.py:98-100 | a workbook whose SUMMARY sheet has only 티커, 시그널가격(USD) and RSI is classified SUMMARY, but reading its row raises KeyError for 시그널가격(KRW) |
| `Chart.Lower` | dashboard.py:174 | lower-casing keeps the length and maps each character on its own |
| `Chart.TimeLike` | dashboard.py:174 | the list comprehension keeps exactly the columns whose lower-cased label contains "date" or "time". Its head is the first such column |
| `Chart.ChooseTimeColumnSpec` | dashboard.py:174-175 | the time column is the first time-like column if there is one, and otherwise the first column. Only a frame with no columns has none |
| `Chart.ChoosesDatetime` | dashboard.py:173-175 | for the columns Datetime, Open, High, Low, Close, Volume the time column is Datetime |

## Left out

- Streamlit page setup, the uploader, metrics, tables, charts, the sidebar and `st.stop` are presentation only. The user's choice in the select box is an input to `Selection.Select`.
- `get_usdkrw` and its 1400.0 fallback, the `yfinance` downloads and `st.cache_data` are network and caching. The rate appears only as `Quote.Field.Krw`, a USD cell "times the current rate".
- Workbook decoding (`pd.ExcelFile`, `pd.read_excel`) is a library call. Sheets and their tables are inputs.
- Floating point is not modelled: `float(...)` and `int(...)` of cells, the KRW multiplication, and all number formatting. `Quote.Field.Value` carries the cell itself. The ValueError of `int(...)` or `float(...)` on an unparsable cell (for instance `int` of a missing HOLD) is not modelled.
- Flattening of MultiIndex columns and `reset_index` in `load_price_data` are pandas representation details. The chart model starts from the resulting column labels.
- Chart.Lower: lower-cases ASCII letters only and leaves every other character unchanged. Python's `str.lower` also maps non-ASCII letters. No non-ASCII lower-casing can create or break an ASCII "date" or "time" substring, so the choice of time column is unaffected.
- Frame.DataFrame.SetItem: covers a series on the frame's own index (or any series on an empty frame) and scalars. pandas index alignment of a series on a different index is not modelled, and the source never does this.
- Selection.Dict: keys are compared by value. A missing name therefore equals another missing name, whereas Python dictionary keys that are distinct NaN objects stay apart.
- The display of 점수 in LEGACY mode and the reference price table (lines 135-209) are presentation only.
