/** `BinanceReadService`: symbol validation, the positional k-line record,
    the frame clean-up of `_process_dataframe`, and the retried fetch whose
    every failure the data-frame entry point turns into an empty frame.

    The python-binance client is a function from (validated symbol, attempt
    index) to what `Client.get_historical_klines` does on that attempt; the
    pandas conversions `to_datetime` and `to_numeric` are functions on one
    cell value that may raise. */
module Binance {
  import opened Outcomes
  import opened Text
  import Retry

  const KLINE_COLUMNS: seq<string> := [
    "OpenTime", "Open", "High", "Low", "Close", "Volume", "CloseTime",
    "QuoteAssetVolume", "NumberOfTrades", "TakerBuyBaseAssetVolume",
    "TakerBuyQuoteAssetVolume", "CanBeIgnored"
  ]

  const NUMERIC_COLUMNS: seq<string> := [
    "Open", "High", "Low", "Close", "Volume", "QuoteAssetVolume",
    "NumberOfTrades", "TakerBuyBaseAssetVolume", "TakerBuyQuoteAssetVolume"
  ]

  const IGNORED_COLUMN: string := "CanBeIgnored"

  const EmptySymbol: Exception := Exception(ValueError, "Symbol cannot be empty")

  function Min(a: int, b: int): int {
    if a <= b then a else b
  }

  predicate Distinct<X(==)>(s: seq<X>) {
    forall i, j :: 0 <= i < j < |s| ==> s[i] != s[j]
  }

  // ---------------------------------------------------------------------
  // _validate_symbol

  /** `_validate_symbol`: only the empty string is rejected; anything else is
      upper-cased and then stripped. */
  function ValidateSymbol(symbol: string): (r: Outcome<string>)
    ensures r.Raised? <==> symbol == ""
    ensures r.Raised? ==> r.error == EmptySymbol
    ensures r.Returned? ==> NoLower(r.value)
    ensures r.Returned? ==> (r.value == [] <==> AllSpace(symbol))
  {
    if symbol == "" then Raised(EmptySymbol)
    else
      StripUpperShape(symbol);
      Returned(Strip(Upper(symbol)))
  }

  lemma StripUpperShape(symbol: string)
    ensures NoLower(Strip(Upper(symbol)))
    ensures Strip(Upper(symbol)) == [] <==> AllSpace(symbol)
  {
    NoLowerUpper(symbol);
    NoLowerStrip(Upper(symbol));
    AllSpaceUpper(symbol);
  }

  /** A validated symbol neither starts nor ends with whitespace. */
  lemma ValidateSymbolTrimmed(symbol: string)
    requires ValidateSymbol(symbol).Returned? && ValidateSymbol(symbol).value != ""
    ensures var v := ValidateSymbol(symbol).value;
      !IsSpace(v[0]) && !IsSpace(v[|v| - 1])
  {
    var v := Strip(Upper(symbol));
    assert ValidateSymbol(symbol) == Returned(v);
    assert v != [] ==> !IsSpace(v[0]) && !IsSpace(v[|v| - 1]);
  }

  /** A validated, non-empty symbol validates to itself. */
  lemma ValidateSymbolIdempotent(symbol: string)
    requires ValidateSymbol(symbol).Returned? && ValidateSymbol(symbol).value != ""
    ensures ValidateSymbol(ValidateSymbol(symbol).value) == ValidateSymbol(symbol)
  {
    var r := Strip(Upper(symbol));
    assert ValidateSymbol(symbol) == Returned(r);
    assert !IsSpace(r[0]) && !IsSpace(r[|r| - 1]);
    UpperOfNoLower(r);
    StripOfTrimmed(r);
    assert ValidateSymbol(r) == Returned(Strip(Upper(r)));
  }

  /** A symbol made only of whitespace passes the emptiness check and comes
      out empty. */
  lemma ValidateSymbolWhitespaceOnly(symbol: string)
    requires symbol != "" && AllSpace(symbol)
    ensures ValidateSymbol(symbol) == Returned("")
  {
  }

  /** Validation ignores case and surrounding whitespace: `" btcusdt "` and
      `"BTCUSDT"` validate identically. */
  lemma ValidateSymbolInsensitive(p: string, s: string, q: string, t: string)
    requires AllSpace(p) && AllSpace(q)
    requires s != "" && Upper(s) == Upper(t)
    ensures ValidateSymbol(p + s + q) == ValidateSymbol(t)
  {
    UpperAppend(p + s, q);
    UpperAppend(p, s);
    assert AllSpace(Upper(p)) && AllSpace(Upper(q));
    StripIgnoresPadding(Upper(p), Upper(s), Upper(q));
  }

  // ---------------------------------------------------------------------
  // _kline_to_dict

  /** A Python dict as its ordered list of (key, value) pairs. */
  type Record<V> = seq<(string, V)>

  function Keys<V>(r: Record<V>): (ks: seq<string>)
    ensures |ks| == |r|
    ensures forall i :: 0 <= i < |r| ==> ks[i] == r[i].0
  {
    seq(|r|, i requires 0 <= i < |r| => r[i].0)
  }

  /** Python's `zip`: pairs up to the shorter of the two. */
  function Zip<K, V>(keys: seq<K>, values: seq<V>): (r: seq<(K, V)>)
    ensures |r| == Min(|keys|, |values|)
    ensures forall i :: 0 <= i < |r| ==> r[i] == (keys[i], values[i])
  {
    if keys == [] || values == [] then []
    else [(keys[0], values[0])] + Zip(keys[1..], values[1..])
  }

  /** `_kline_to_dict`: column `i` of `KLINE_COLUMNS` names field `i` of the
      k-line; a short k-line gives fewer entries, a long one loses its extra
      fields. */
  function KlineToDict<V>(kline: seq<V>): (d: Record<V>)
    ensures |d| == Min(|KLINE_COLUMNS|, |kline|)
    ensures forall i :: 0 <= i < |d| ==> d[i].0 == KLINE_COLUMNS[i] && d[i].1 == kline[i]
    ensures Distinct(Keys(d))
  {
    var d := Zip(KLINE_COLUMNS, kline);
    KlineColumnsDistinct();
    assert forall i :: 0 <= i < |d| ==> Keys(d)[i] == KLINE_COLUMNS[i];
    d
  }

  lemma KlineColumnsDistinct()
    ensures Distinct(KLINE_COLUMNS)
  {
  }

  lemma NumericColumnsDistinct()
    ensures Distinct(NUMERIC_COLUMNS)
  {
  }

  lemma TimeColumnsNotNumeric()
    ensures "OpenTime" !in NUMERIC_COLUMNS && "CloseTime" !in NUMERIC_COLUMNS
  {
  }

  // ---------------------------------------------------------------------
  // pd.DataFrame and _process_dataframe

  /** A frame cell; `Missing` is pandas' NaN for a key a record lacks. */
  datatype Cell<V> = Missing | Present(value: V)

  /** `record.get(key)`: the value of the key's entry. */
  function Lookup<V>(r: Record<V>, key: string): (c: Cell<V>)
    ensures c.Present? <==> key in Keys(r)
    ensures c.Present? ==> exists i :: 0 <= i < |r| && r[i] == (key, c.value) && forall j :: 0 <= j < i ==> r[j].0 != key
  {
    var i := FirstKey(r, key, 0);
    if i == |r| then Missing
    else
      assert r[i] == (key, r[i].1) && Keys(r)[i] == key;
      Present(r[i].1)
  }

  /** The first position at or after `from` whose key is `key`, or `|r|`. */
  function FirstKey<V>(r: Record<V>, key: string, from: nat): (i: nat)
    requires from <= |r|
    requires forall j :: 0 <= j < from ==> r[j].0 != key
    ensures from <= i <= |r|
    ensures forall j :: 0 <= j < i ==> r[j].0 != key
    ensures i < |r| ==> r[i].0 == key
    decreases |r| - from
  {
    if from == |r| || r[from].0 == key then from else FirstKey(r, key, from + 1)
  }

  /** `keys` appended to `cols`, skipping those already there, in order. */
  function AddNew(cols: seq<string>, keys: seq<string>): (r: seq<string>)
    ensures Distinct(cols) ==> Distinct(r)
    ensures forall c :: c in r <==> c in cols || c in keys
    ensures |cols| <= |r| && r[..|cols|] == cols
    decreases |keys|
  {
    if keys == [] then cols
    else AddNew(if keys[0] in cols then cols else cols + [keys[0]], keys[1..])
  }

  /** The columns of `pd.DataFrame(records)`: every key, in order of first
      appearance. */
  function ColumnsOf<V>(records: seq<Record<V>>): (cols: seq<string>)
    ensures Distinct(cols)
    ensures forall c :: c in cols <==> exists i :: 0 <= i < |records| && c in Keys(records[i])
  {
    if records == [] then []
    else
      var prefix := records[..|records| - 1];
      var cols := AddNew(ColumnsOf(prefix), Keys(records[|records| - 1]));
      assert forall c :: c in cols <==> exists i :: 0 <= i < |records| && c in Keys(records[i]) by {
        forall c ensures c in cols <==> exists i :: 0 <= i < |records| && c in Keys(records[i]) {
          if c in cols && c !in Keys(records[|records| - 1]) {
            var i :| 0 <= i < |prefix| && c in Keys(prefix[i]);
            assert records[i] == prefix[i];
          }
          if exists i :: 0 <= i < |records| && c in Keys(records[i]) {
            var i :| 0 <= i < |records| && c in Keys(records[i]);
            if i < |prefix| {
              assert records[i] == prefix[i];
            }
          }
        }
      }
      cols
  }

  /** The column `key` of `pd.DataFrame(records)`. */
  function Column<V>(records: seq<Record<V>>, key: string): (col: seq<Cell<V>>)
    ensures |col| == |records|
    ensures forall i :: 0 <= i < |records| ==> col[i] == Lookup(records[i], key)
  {
    seq(|records|, i requires 0 <= i < |records| => Lookup(records[i], key))
  }

  /** The cells of `pd.DataFrame(records)`, column by column. */
  function RecordCells<V>(records: seq<Record<V>>): (m: map<string, seq<Cell<V>>>)
    ensures forall c :: c in m <==> c in ColumnsOf(records)
    ensures forall c :: c in m ==> |m[c]| == |records|
  {
    map c | c in ColumnsOf(records) :: Column(records, c)
  }

  /** `cols` without `c`. */
  function Without(cols: seq<string>, c: string): (r: seq<string>)
    ensures forall x :: x in r <==> x in cols && x != c
    ensures Distinct(cols) ==> Distinct(r)
  {
    if cols == [] then []
    else
      var rest := Without(cols[1..], c);
      assert Distinct(cols) ==> cols[0] !in cols[1..];
      (if cols[0] == c then [] else [cols[0]]) + rest
  }

  /** A pandas DataFrame: named columns of equal height. */
  class DataFrame<V> {
    var columns: seq<string>
    var cells: map<string, seq<Cell<V>>>
    var height: nat

    ghost predicate Valid()
      reads this
    {
      && Distinct(columns)
      && (forall c :: c in cells <==> c in columns)
      && (forall c :: c in cells ==> |cells[c]| == height)
    }

    /** `df.empty`: no columns or no rows. */
    predicate IsEmpty()
      reads this
    {
      |columns| == 0 || height == 0
    }

    /** `pd.DataFrame()`. */
    constructor Empty()
      ensures Valid() && columns == [] && cells == map[] && height == 0
    {
      columns, cells, height := [], map[], 0;
    }

    /** `pd.DataFrame(records)` for a list of dicts. */
    constructor FromRecords(records: seq<Record<V>>)
      ensures Valid()
      ensures columns == ColumnsOf(records) && height == |records|
      ensures cells == RecordCells(records)
    {
      var cols := ColumnsOf(records);
      columns := cols;
      cells := RecordCells(records);
      height := |records|;
    }

    /** `df[c] = values` for a column the frame has. */
    method SetColumn(c: string, values: seq<Cell<V>>)
      requires Valid() && c in cells && |values| == height
      modifies this
      ensures Valid()
      ensures columns == old(columns) && height == old(height)
      ensures cells == old(cells)[c := values]
    {
      cells := cells[c := values];
    }

    /** `df.drop(c, axis=1)`: a new frame without the column. */
    method Drop(c: string) returns (r: DataFrame<V>)
      requires Valid() && c in cells
      ensures fresh(r) && r.Valid()
      ensures r.columns == Without(columns, c) && r.height == height
      ensures r.cells == cells - {c}
    {
      r := new DataFrame.Empty();
      r.columns := Without(columns, c);
      r.cells := cells - {c};
      r.height := height;
    }
  }

  /** `pd.to_datetime` or `pd.to_numeric` on a column: NaN stays NaN, and the
      first value that cannot be converted raises. */
  function ConvertCells<V>(col: seq<Cell<V>>, convert: V -> Outcome<V>): (r: Outcome<seq<Cell<V>>>)
    ensures r.Returned? ==> |r.value| == |col|
    ensures r.Returned? <==> forall i :: 0 <= i < |col| && col[i].Present? ==> convert(col[i].value).Returned?
    ensures r.Returned? ==> forall i :: 0 <= i < |col| ==>
      r.value[i] == (if col[i].Present? then Present(convert(col[i].value).value) else Missing)
  {
    if col == [] then Returned([])
    else
      var rest := ConvertCells(col[1..], convert);
      var head: Outcome<Cell<V>> :=
        if col[0].Missing? then Returned(Missing)
        else if convert(col[0].value).Raised? then Raised(convert(col[0].value).error)
        else Returned(Present(convert(col[0].value).value));
      if head.Raised? then Raised(head.error)
      else if rest.Raised? then
        assert forall i :: 1 <= i < |col| ==> col[i] == col[1..][i - 1];
        Raised(rest.error)
      else
        assert forall i :: 1 <= i < |col| ==> col[i] == col[1..][i - 1];
        Returned([head.value] + rest.value)
  }

  /** What `_process_dataframe` makes of column `c`: the two time columns go
      through `to_datetime`, the columns of `NUMERIC_COLUMNS` through
      `to_numeric`, and every other column is kept as it is. */
  function ConvertedColumn<V>(c: string, col: seq<Cell<V>>, toDatetime: V -> Outcome<V>, toNumeric: V -> Outcome<V>): Outcome<seq<Cell<V>>>
  {
    if c == "OpenTime" || c == "CloseTime" then ConvertCells(col, toDatetime)
    else if c in NUMERIC_COLUMNS then ConvertCells(col, toNumeric)
    else Returned(col)
  }

  /** `_process_dataframe` raises on a non-empty frame exactly when a time
      column is missing (KeyError) or some value cannot be converted. */
  predicate Processable<V>(cells: map<string, seq<Cell<V>>>, toDatetime: V -> Outcome<V>, toNumeric: V -> Outcome<V>) {
    && "OpenTime" in cells
    && "CloseTime" in cells
    && forall c :: c in cells ==> ConvertedColumn(c, cells[c], toDatetime, toNumeric).Returned?
  }

  /** The columns converted once the loop over `NUMERIC_COLUMNS` has done its
      first `i` entries. */
  predicate ConvertedBy(c: string, i: nat)
    requires i <= |NUMERIC_COLUMNS|
  {
    c == "OpenTime" || c == "CloseTime" || c in NUMERIC_COLUMNS[..i]
  }

  /** `df[c] = convert(df[c])`: the column is replaced when every value
      converts, and the frame is left as it was when one raises. */
  method ConvertColumn<V>(df: DataFrame<V>, c: string, convert: V -> Outcome<V>)
    returns (r: Outcome<seq<Cell<V>>>)
    requires df.Valid() && c in df.cells
    modifies df
    ensures r == ConvertCells(old(df.cells[c]), convert)
    ensures df.Valid() && df.columns == old(df.columns) && df.height == old(df.height)
    ensures df.cells == if r.Returned? then old(df.cells)[c := r.value] else old(df.cells)
  {
    r := ConvertCells(df.cells[c], convert);
    if r.Returned? {
      df.SetColumn(c, r.value);
    }
  }

  /** After the first `i` entries of `NUMERIC_COLUMNS`: the converted columns
      hold their converted values, the others their original ones. */
  ghost predicate ConvertedUpTo<V>(cells: map<string, seq<Cell<V>>>, original: map<string, seq<Cell<V>>>, i: nat,
                                   toDatetime: V -> Outcome<V>, toNumeric: V -> Outcome<V>)
    requires i <= |NUMERIC_COLUMNS|
  {
    && cells.Keys == original.Keys
    && (forall c :: c in cells && ConvertedBy(c, i) ==>
          Returned(cells[c]) == ConvertedColumn(c, original[c], toDatetime, toNumeric))
    && (forall c :: c in cells && !ConvertedBy(c, i) ==> cells[c] == original[c])
  }

  /** One pass of the loop over `NUMERIC_COLUMNS`: entry `i` is converted
      when the frame has it. */
  method ConvertNumericColumn<V>(df: DataFrame<V>, i: nat, toNumeric: V -> Outcome<V>,
                                 ghost original: map<string, seq<Cell<V>>>, ghost toDatetime: V -> Outcome<V>)
    returns (status: Outcome<()>)
    requires i < |NUMERIC_COLUMNS|
    requires df.Valid() && ConvertedUpTo(df.cells, original, i, toDatetime, toNumeric)
    modifies df
    ensures df.Valid() && df.columns == old(df.columns) && df.height == old(df.height)
    ensures status.Returned? ==> ConvertedUpTo(df.cells, original, i + 1, toDatetime, toNumeric)
    ensures status.Raised? ==> var col := NUMERIC_COLUMNS[i];
      col in original && ConvertedColumn(col, original[col], toDatetime, toNumeric).Raised?
  {
    var col := NUMERIC_COLUMNS[i];
    NotYetConverted(i);
    if col in df.cells {
      var converted := ConvertColumn(df, col, toNumeric);
      NumericConverts(original, i, toDatetime, toNumeric);
      if converted.Raised? {
        return Raised(converted.error);
      }
      ConvertedStep(old(df.cells), original, i, converted.value, toDatetime, toNumeric);
    } else {
      AbsentStep(df.cells, original, i, toDatetime, toNumeric);
    }
    return Returned(());
  }

  /** Entry `i` of `NUMERIC_COLUMNS` is not among the columns converted before it. */
  lemma NotYetConverted(i: nat)
    requires i < |NUMERIC_COLUMNS|
    ensures !ConvertedBy(NUMERIC_COLUMNS[i], i)
  {
    NumericColumnsDistinct();
    TimeColumnsNotNumeric();
  }

  /** Entry `i` of `NUMERIC_COLUMNS` is converted with `to_numeric`. */
  lemma NumericConverts<V>(original: map<string, seq<Cell<V>>>, i: nat, toDatetime: V -> Outcome<V>, toNumeric: V -> Outcome<V>)
    requires i < |NUMERIC_COLUMNS| && NUMERIC_COLUMNS[i] in original
    ensures ConvertedColumn(NUMERIC_COLUMNS[i], original[NUMERIC_COLUMNS[i]], toDatetime, toNumeric)
      == ConvertCells(original[NUMERIC_COLUMNS[i]], toNumeric)
  {
    TimeColumnsNotNumeric();
  }

  /** A numeric column the frame has, once converted, joins the converted ones. */
  lemma ConvertedStep<V>(cells: map<string, seq<Cell<V>>>, original: map<string, seq<Cell<V>>>, i: nat,
                         values: seq<Cell<V>>, toDatetime: V -> Outcome<V>, toNumeric: V -> Outcome<V>)
    requires i < |NUMERIC_COLUMNS| && ConvertedUpTo(cells, original, i, toDatetime, toNumeric)
    requires NUMERIC_COLUMNS[i] in cells
    requires Returned(values) == ConvertCells(cells[NUMERIC_COLUMNS[i]], toNumeric)
    ensures ConvertedUpTo(cells[NUMERIC_COLUMNS[i] := values], original, i + 1, toDatetime, toNumeric)
  {
    var col := NUMERIC_COLUMNS[i];
    NotYetConverted(i);
    NumericConverts(original, i, toDatetime, toNumeric);
    JoinConverted(cells, original, i, values, toDatetime, toNumeric);
  }

  lemma JoinConverted<V>(cells: map<string, seq<Cell<V>>>, original: map<string, seq<Cell<V>>>, i: nat,
                         values: seq<Cell<V>>, toDatetime: V -> Outcome<V>, toNumeric: V -> Outcome<V>)
    requires i < |NUMERIC_COLUMNS| && ConvertedUpTo(cells, original, i, toDatetime, toNumeric)
    requires NUMERIC_COLUMNS[i] in cells
    requires Returned(values) == ConvertedColumn(NUMERIC_COLUMNS[i], original[NUMERIC_COLUMNS[i]], toDatetime, toNumeric)
    ensures ConvertedUpTo(cells[NUMERIC_COLUMNS[i] := values], original, i + 1, toDatetime, toNumeric)
  {
    var col := NUMERIC_COLUMNS[i];
    var next := cells[col := values];
    assert NUMERIC_COLUMNS[..i + 1] == NUMERIC_COLUMNS[..i] + [col];
    forall c | c in next && ConvertedBy(c, i + 1)
      ensures Returned(next[c]) == ConvertedColumn(c, original[c], toDatetime, toNumeric)
    {
      if c != col {
        assert ConvertedBy(c, i);
      }
    }
    forall c | c in next && !ConvertedBy(c, i + 1)
      ensures next[c] == original[c]
    {
      assert c != col && !ConvertedBy(c, i);
    }
  }

  /** A numeric column the frame lacks is skipped. */
  lemma AbsentStep<V>(cells: map<string, seq<Cell<V>>>, original: map<string, seq<Cell<V>>>, i: nat,
                      toDatetime: V -> Outcome<V>, toNumeric: V -> Outcome<V>)
    requires i < |NUMERIC_COLUMNS| && ConvertedUpTo(cells, original, i, toDatetime, toNumeric)
    requires NUMERIC_COLUMNS[i] !in cells
    ensures ConvertedUpTo(cells, original, i + 1, toDatetime, toNumeric)
  {
    assert NUMERIC_COLUMNS[..i + 1] == NUMERIC_COLUMNS[..i] + [NUMERIC_COLUMNS[i]];
  }

  /** The loop `for col in NUMERIC_COLUMNS: if col in df.columns: df[col] =
      pd.to_numeric(df[col])`, run after both time columns were converted. */
  method ConvertNumericColumns<V>(df: DataFrame<V>, toNumeric: V -> Outcome<V>,
                                  ghost original: map<string, seq<Cell<V>>>, ghost toDatetime: V -> Outcome<V>)
    returns (status: Outcome<()>)
    requires df.Valid() && ConvertedUpTo(df.cells, original, 0, toDatetime, toNumeric)
    modifies df
    ensures df.Valid() && df.columns == old(df.columns) && df.height == old(df.height)
    ensures status.Returned? <==> forall c :: c in original ==> ConvertedColumn(c, original[c], toDatetime, toNumeric).Returned?
    ensures status.Returned? ==> df.cells.Keys == original.Keys
    ensures status.Returned? ==> forall c :: c in df.cells ==>
      Returned(df.cells[c]) == ConvertedColumn(c, original[c], toDatetime, toNumeric)
  {
    for i := 0 to |NUMERIC_COLUMNS|
      invariant df.Valid()
      invariant df.columns == old(df.columns) && df.height == old(df.height)
      invariant ConvertedUpTo(df.cells, original, i, toDatetime, toNumeric)
    {
      status := ConvertNumericColumn(df, i, toNumeric, original, toDatetime);
      if status.Raised? {
        return;
      }
    }
    assert forall c :: c in df.cells && !ConvertedBy(c, |NUMERIC_COLUMNS|) ==>
      ConvertedColumn(c, original[c], toDatetime, toNumeric) == Returned(original[c]);
    return Returned(());
  }

  /** `_process_dataframe`. An empty frame is returned as the same object,
      untouched. Otherwise the time and numeric columns are converted in place
      and, when present, `CanBeIgnored` is dropped into a new frame; no other
      column is removed. */
  method ProcessDataframe<V>(df: DataFrame<V>, toDatetime: V -> Outcome<V>, toNumeric: V -> Outcome<V>)
    returns (result: Outcome<DataFrame<V>>)
    requires df.Valid()
    modifies df
    ensures old(df.IsEmpty()) ==> result == Returned(df) && unchanged(df)
    ensures !old(df.IsEmpty()) ==> (result.Returned? <==> Processable(old(df.cells), toDatetime, toNumeric))
    ensures result.Returned? && !old(df.IsEmpty()) ==>
      && result.value.Valid()
      && result.value.columns == Without(old(df.columns), IGNORED_COLUMN)
      && result.value.height == old(df.height)
      && result.value.cells.Keys == old(df.cells).Keys - {IGNORED_COLUMN}
      && forall c :: c in result.value.cells ==>
           Returned(result.value.cells[c]) == ConvertedColumn(c, old(df.cells)[c], toDatetime, toNumeric)
    ensures result.Returned? ==> result.value == df || fresh(result.value)
  {
    if df.IsEmpty() {
      return Returned(df);
    }
    ghost var original := df.cells;
    if "OpenTime" !in df.cells {
      return Raised(Exception(KeyError, "OpenTime"));
    }
    var openTimes := ConvertColumn(df, "OpenTime", toDatetime);
    if openTimes.Raised? {
      return Raised(openTimes.error);
    }
    if "CloseTime" !in df.cells {
      return Raised(Exception(KeyError, "CloseTime"));
    }
    var closeTimes := ConvertColumn(df, "CloseTime", toDatetime);
    if closeTimes.Raised? {
      return Raised(closeTimes.error);
    }
    TimesConverted(original, openTimes.value, closeTimes.value, toDatetime, toNumeric);
    var status := ConvertNumericColumns(df, toNumeric, original, toDatetime);
    if status.Raised? {
      return Raised(status.error);
    }
    if IGNORED_COLUMN in df.cells {
      var dropped := df.Drop(IGNORED_COLUMN);
      return Returned(dropped);
    }
    WithoutAbsent(df.columns, IGNORED_COLUMN);
    return Returned(df);
  }

  /** With both time columns converted, the loop over `NUMERIC_COLUMNS`
      starts from the state it expects. */
  lemma TimesConverted<V>(original: map<string, seq<Cell<V>>>, openTimes: seq<Cell<V>>, closeTimes: seq<Cell<V>>,
                          toDatetime: V -> Outcome<V>, toNumeric: V -> Outcome<V>)
    requires "OpenTime" in original && "CloseTime" in original
    requires Returned(openTimes) == ConvertCells(original["OpenTime"], toDatetime)
    requires Returned(closeTimes) == ConvertCells(original["CloseTime"], toDatetime)
    ensures ConvertedUpTo(original["OpenTime" := openTimes]["CloseTime" := closeTimes], original, 0, toDatetime, toNumeric)
  {
  }

  lemma {:induction false} WithoutAbsent(cols: seq<string>, c: string)
    requires c !in cols
    ensures Without(cols, c) == cols
  {
    if cols != [] {
      WithoutAbsent(cols[1..], c);
    }
  }

  // ---------------------------------------------------------------------
  // get_historical_klines and get_historical_data_as_dataframe

  /** What the client's `get_historical_klines` does on one attempt for a
      validated symbol; interval and dates are fixed for the whole fetch. */
  type KlineClient<!V> = (string, nat) -> Outcome<seq<seq<V>>>

  /** `[self._kline_to_dict(k) for k in all_klines]`, or the client's exception. */
  function ToRecords<V>(fetched: Outcome<seq<seq<V>>>): (r: Outcome<seq<Record<V>>>)
    ensures r.Raised? <==> fetched.Raised?
    ensures r.Raised? ==> r.error == fetched.error
    ensures r.Returned? ==> |r.value| == |fetched.value|
    ensures r.Returned? ==> forall i :: 0 <= i < |r.value| ==> r.value[i] == KlineToDict(fetched.value[i])
  {
    match fetched
    case Raised(e) => Raised(e)
    case Returned(klines) =>
      Returned(seq(|klines|, i requires 0 <= i < |klines| => KlineToDict(klines[i])))
  }

  /** One run of the body of the decorated `get_historical_klines`: validate
      the symbol, which raises before the client is reached, then fetch. */
  function KlinesAttempt<V>(symbol: string, client: KlineClient<V>, attempt: nat): Outcome<seq<Record<V>>> {
    match ValidateSymbol(symbol)
    case Raised(e) => Raised(e)
    case Returned(s) => ToRecords(client(s, attempt))
  }

  /** `get_historical_klines` under `@retry_on_api_error(max_retries=3)`:
      each attempt validates the symbol and then asks the client. */
  method GetHistoricalKlines<V>(symbol: string, client: KlineClient<V>)
    returns (result: Outcome<seq<Record<V>>>, calls: nat, ghost sleeps: seq<nat>)
    ensures 1 <= calls <= Retry.DEFAULT_MAX_RETRIES
    // every attempt but the last failed transiently; a transient failure ends
    // the retries only on the third attempt
    ensures forall k :: 0 <= k < calls - 1 ==> Retry.FailedTransiently(KlinesAttempt(symbol, client, k))
    ensures Retry.FailedTransiently(KlinesAttempt(symbol, client, calls - 1)) ==> calls == Retry.DEFAULT_MAX_RETRIES
    // the outcome of the last attempt is the answer
    ensures result == KlinesAttempt(symbol, client, calls - 1)
    ensures sleeps == Retry.Backoff(Retry.DEFAULT_DELAY_MS, calls - 1)
    // the empty symbol: one attempt, its ValueError re-raised, no sleep
    ensures symbol == "" ==> result == Raised(EmptySymbol) && calls == 1 && sleeps == []
  {
    var attempt := (k: nat) => KlinesAttempt(symbol, client, k);
    result, calls, sleeps := Retry.RetryOnApiError(Retry.DEFAULT_MAX_RETRIES, Retry.DEFAULT_DELAY_MS, attempt);
    assert forall k :: 0 <= k < calls ==> attempt(k) == KlinesAttempt(symbol, client, k);
    assert result == attempt(calls - 1);
    if symbol == "" {
      EmptySymbolAttempt(client, 0);
    }
  }

  lemma EmptySymbolAttempt<V>(client: KlineClient<V>, k: nat)
    ensures KlinesAttempt("", client, k) == Raised(EmptySymbol)
    ensures !Retry.FailedTransiently(KlinesAttempt("", client, k))
  {
  }

  /** For a non-empty symbol every attempt reaches the client with the
      normalised symbol, and it fails transiently exactly when the client does. */
  lemma ValidSymbolAttempt<V>(symbol: string, client: KlineClient<V>, k: nat)
    requires symbol != ""
    ensures KlinesAttempt(symbol, client, k) == ToRecords(client(ValidateSymbol(symbol).value, k))
    ensures Retry.FailedTransiently(KlinesAttempt(symbol, client, k))
        <==> Retry.FailedTransiently(client(ValidateSymbol(symbol).value, k))
  {
  }

  /** Does the fetched outcome yield a frame with columns? */
  predicate YieldsRows<V>(fetched: Outcome<seq<Record<V>>>) {
    fetched.Returned? && fetched.value != []
  }

  /** `get_historical_data_as_dataframe`: never raises. A failed or empty fetch
      and any exception while building the frame give `pd.DataFrame()`. */
  method GetHistoricalDataAsDataframe<V>(symbol: string, client: KlineClient<V>,
                                         toDatetime: V -> Outcome<V>, toNumeric: V -> Outcome<V>)
    returns (df: DataFrame<V>, ghost fetched: Outcome<seq<Record<V>>>, ghost attempts: nat)
    ensures fresh(df) && df.Valid()
    // `fetched` is the outcome of the retried fetch: up to three attempts,
    // each one but the last failing transiently
    ensures 0 < attempts <= Retry.DEFAULT_MAX_RETRIES
    ensures fetched == KlinesAttempt(symbol, client, attempts - 1)
    ensures forall k :: 0 <= k < attempts - 1 ==> Retry.FailedTransiently(KlinesAttempt(symbol, client, k))
    ensures Retry.FailedTransiently(fetched) ==> attempts == Retry.DEFAULT_MAX_RETRIES
    ensures !YieldsRows(fetched) ==> df.columns == [] && df.height == 0
    ensures YieldsRows(fetched) ==>
      var records := fetched.value;
      var cells := RecordCells(records);
      if ColumnsOf(records) == [] then
        df.columns == [] && df.height == |records|
      else if Processable(cells, toDatetime, toNumeric) then
        && df.columns == Without(ColumnsOf(records), IGNORED_COLUMN)
        && df.height == |records|
        && forall c :: c in df.cells ==> Returned(df.cells[c]) == ConvertedColumn(c, cells[c], toDatetime, toNumeric)
      else
        df.columns == [] && df.height == 0
  {
    var klines, calls, sleeps := GetHistoricalKlines(symbol, client);
    fetched, attempts := klines, calls;
    assert KlinesAttempt(symbol, client, calls - 1) == klines;
    if klines.Raised? || klines.value == [] {
      df := new DataFrame.Empty();
      return;
    }
    var raw := new DataFrame.FromRecords(klines.value);
    var processed := ProcessDataframe(raw, toDatetime, toNumeric);
    if processed.Raised? {
      df := new DataFrame.Empty();
      return;
    }
    df := processed.value;
  }
}
