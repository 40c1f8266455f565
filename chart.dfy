/**
 * The time axis of the price chart: `load_price_data` picks the first column
 * whose lower-cased label contains "date" or "time", and the first column when
 * none does.
 */
module Chart {
  import opened Wrappers

  /** `str.lower()` on one character, for the ASCII letters. */
  function LowerChar(c: char): char {
    if 'A' <= c <= 'Z' then (c as int + 32) as char else c
  }

  function Lower(s: string): (r: string)
    ensures |r| == |s|
    ensures forall i | 0 <= i < |s| :: r[i] == LowerChar(s[i])
  {
    if s == [] then [] else [LowerChar(s[0])] + Lower(s[1..])
  }

  /** `sub in s` for strings. */
  predicate Contains(s: string, sub: string)
    decreases |s|
  {
    if |s| < |sub| then false
    else s[..|sub|] == sub || Contains(s[1..], sub)
  }

  /** `"date" in c.lower() or "time" in c.lower()` */
  predicate IsTimeLike(c: string) {
    Contains(Lower(c), "date") || Contains(Lower(c), "time")
  }

  /** `[c for c in columns if "date" in c.lower() or "time" in c.lower()]` */
  function TimeLike(columns: seq<string>): (r: seq<string>)
    ensures forall c :: c in r <==> c in columns && IsTimeLike(c)
    ensures r != [] ==> exists i :: (0 <= i < |columns| && columns[i] == r[0] &&
      forall j | 0 <= j < i :: !IsTimeLike(columns[j]))
  {
    if columns == [] then []
    else
      var rest := TimeLike(columns[1..]);
      assert forall j | 1 <= j < |columns| :: columns[j] == columns[1..][j - 1];
      if IsTimeLike(columns[0]) then [columns[0]] + rest else rest
  }

  /** `time_col[0] if time_col else df.columns[0]`; None stands for the IndexError of a frame without columns. */
  function ChooseTimeColumn(columns: seq<string>): Option<string> {
    var candidates := TimeLike(columns);
    if candidates != [] then Some(candidates[0])
    else if columns != [] then Some(columns[0])
    else None
  }

  /**
   * The chosen column is the first time-like column when there is one, and the
   * first column otherwise; only a frame without columns has no choice.
   */
  lemma {:induction false} ChooseTimeColumnSpec(columns: seq<string>)
    ensures ChooseTimeColumn(columns).None? <==> columns == []
    ensures ChooseTimeColumn(columns).Some? ==>
      exists i :: (0 <= i < |columns| && columns[i] == ChooseTimeColumn(columns).value &&
        (forall j | 0 <= j < i :: !IsTimeLike(columns[j])) &&
        (IsTimeLike(columns[i]) || (i == 0 && forall j | 0 <= j < |columns| :: !IsTimeLike(columns[j]))))
  {
    var candidates := TimeLike(columns);
    if candidates == [] {
      assert forall j | 0 <= j < |columns| :: !IsTimeLike(columns[j]) by {
        forall j | 0 <= j < |columns| ensures !IsTimeLike(columns[j]) {
          assert columns[j] in columns;
        }
      }
    } else {
      assert candidates[0] in candidates;
    }
  }

  /** The columns of an intraday download after `reset_index()`: "Datetime" is chosen. */
  lemma ChoosesDatetime()
    ensures ChooseTimeColumn(["Datetime", "Open", "High", "Low", "Close", "Volume"]) == Some("Datetime")
  {
    assert Lower("Datetime")[..4] == "date";
  }
}
