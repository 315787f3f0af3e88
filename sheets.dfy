/** The arithmetic of both `export_to_excel` methods: column widths and the
    KuCoin sheet name. Cells are given as the strings `astype(str)` makes of
    them; the workbook itself is not modelled. */
module Sheets {
  import opened Outcomes
  import opened Text
  import KuCoin
  import Binance

  const MAX_COLUMN_WIDTH: nat := 50
  const TIMESTAMP_COLUMN_WIDTH: nat := 20
  const SHEET_PAIR_PREFIX: nat := 15

  /** `df[col].astype(str).map(len).max()` of a non-empty column. */
  function Longest(cells: seq<string>): (m: nat)
    requires cells != []
    ensures forall i :: 0 <= i < |cells| ==> |cells[i]| <= m
    ensures exists i :: 0 <= i < |cells| && |cells[i]| == m
  {
    if |cells| == 1 then |cells[0]|
    else
      var rest := Longest(cells[1..]);
      assert forall i :: 1 <= i < |cells| ==> cells[i] == cells[1..][i - 1];
      if |cells[0]| >= rest then |cells[0]| else rest
  }

  /** `min(max(longest cell, len(col)) + 2, 50)`. Export happens only for a
      non-empty frame, so every column has a cell. */
  function ColumnWidth(header: string, cells: seq<string>): (w: nat)
    requires cells != []
    ensures w <= MAX_COLUMN_WIDTH
    // room for the header and for every cell, two characters to spare, up to the cap
    ensures Capped(|header| + 2) <= w
    ensures forall i :: 0 <= i < |cells| ==> Capped(|cells[i]| + 2) <= w
    // and no wider than the widest of them needs
    ensures w <= |header| + 2 || exists i :: 0 <= i < |cells| && w <= |cells[i]| + 2
  {
    var longest := Longest(cells);
    var needed := (if longest >= |header| then longest else |header|) + 2;
    Capped(needed)
  }

  /** `min(n, 50)`. */
  function Capped(n: nat): nat {
    if n <= MAX_COLUMN_WIDTH then n else MAX_COLUMN_WIDTH
  }

  /** The width is the header's or the longest cell's, plus two, capped at 50:
      the contract of `ColumnWidth` leaves exactly one value. */
  lemma ColumnWidthDetermined(header: string, cells: seq<string>, w: nat)
    requires cells != []
    requires w <= MAX_COLUMN_WIDTH
    requires Capped(|header| + 2) <= w
    requires forall i :: 0 <= i < |cells| ==> Capped(|cells[i]| + 2) <= w
    requires w <= |header| + 2 || exists i :: 0 <= i < |cells| && w <= |cells[i]| + 2
    ensures w == ColumnWidth(header, cells)
  {
    var longest := Longest(cells);
    var k :| 0 <= k < |cells| && |cells[k]| == longest;
    if w <= |header| + 2 {
    } else {
      var i :| 0 <= i < |cells| && w <= |cells[i]| + 2;
    }
  }

  /** KuCoin's rule: 20 for a column whose name contains "Timestamp",
      otherwise the general width. */
  function KuCoinColumnWidth(header: string, cells: seq<string>): (w: nat)
    requires cells != []
    ensures w <= MAX_COLUMN_WIDTH
    ensures Contains(header, "Timestamp") ==> w == TIMESTAMP_COLUMN_WIDTH
    ensures !Contains(header, "Timestamp") ==> w == ColumnWidth(header, cells)
  {
    if Contains(header, "Timestamp") then TIMESTAMP_COLUMN_WIDTH else ColumnWidth(header, cells)
  }

  /** `f"{trading_pair[:15]}_{interval}"`: at most fifteen characters of
      the pair, an underscore, the interval. */
  function KuCoinSheetName(pair: string, interval: string): (name: string)
    ensures |name| > |interval|
    ensures var n := |name| - |interval| - 1;
      && n <= SHEET_PAIR_PREFIX && n <= |pair|
      && (n < SHEET_PAIR_PREFIX ==> n == |pair|)
      && name[..n] == pair[..n]
      && name[n..] == "_" + interval
  {
    var n := if |pair| < SHEET_PAIR_PREFIX then |pair| else SHEET_PAIR_PREFIX;
    var name := pair[..n] + "_" + interval;
    name
  }

  /** Pairs that share their first fifteen characters get the same sheet name. */
  lemma SheetNameCollision(a: string, b: string, interval: string)
    requires |a| >= SHEET_PAIR_PREFIX && |b| >= SHEET_PAIR_PREFIX
    requires a[..SHEET_PAIR_PREFIX] == b[..SHEET_PAIR_PREFIX]
    ensures KuCoinSheetName(a, interval) == KuCoinSheetName(b, interval)
  {
  }

  /** For instance `"AAAAABBBBBCCCCCUSDT"` and `"AAAAABBBBBCCCCCBTC"`. */
  lemma SheetNameCollisionExample()
    ensures KuCoinSheetName("AAAAABBBBBCCCCCUSDT", "1day") == KuCoinSheetName("AAAAABBBBBCCCCCBTC", "1day")
  {
    SheetNameCollision("AAAAABBBBBCCCCCUSDT", "AAAAABBBBBCCCCCBTC", "1day");
  }

  /** What the KuCoin export writes: the sheet name, the column headers and
      the width of each column. */
  datatype Layout = Layout(sheetName: string, headers: seq<string>, widths: seq<nat>)

  const KUCOIN_HEADERS: seq<string> := ["Timestamp", "Open", "High", "Low", "Close", "Amount", "Volume"]

  /** Column `i` of the frame as strings; `showTime` and `show` stand for
      `astype(str)` on the timestamp and on the other values. */
  function ColumnCells<P>(rows: seq<KuCoin.Candle<P>>, i: nat, showTime: int -> string, show: P -> string): (cells: seq<string>)
    requires i < 7
    ensures |cells| == |rows|
  {
    seq(|rows|, k requires 0 <= k < |rows| =>
      var c := rows[k];
      if i == 0 then showTime(c.ts)
      else show([c.open, c.high, c.low, c.close, c.amount, c.volume][i - 1]))
  }

  /** KuCoin's `export_to_excel` after the fetch: nothing for an empty frame,
      otherwise one sheet with the seven headers and their widths. */
  function KuCoinLayout<P>(pair: string, interval: string, frame: KuCoin.Frame<P>,
                           showTime: int -> string, show: P -> string): (r: Option<Layout>)
    ensures r.None? <==> frame.Blank? || frame.rows == []
    ensures r.Some? ==>
      && r.value.sheetName == KuCoinSheetName(pair, interval)
      && r.value.headers == KUCOIN_HEADERS
      && |r.value.widths| == 7
      && r.value.widths[0] == TIMESTAMP_COLUMN_WIDTH
      && forall i :: 1 <= i < 7 ==> r.value.widths[i] == ColumnWidth(KUCOIN_HEADERS[i], ColumnCells(frame.rows, i, showTime, show))
  {
    if frame.Blank? || frame.rows == [] then None
    else
      HeadersAndTimestamp();
      var widths := seq(7, i requires 0 <= i < 7 =>
        KuCoinColumnWidth(KUCOIN_HEADERS[i], ColumnCells(frame.rows, i, showTime, show)));
      Some(Layout(KuCoinSheetName(pair, interval), KUCOIN_HEADERS, widths))
  }

  /** Only the first KuCoin header contains "Timestamp". */
  lemma HeadersAndTimestamp()
    ensures Contains(KUCOIN_HEADERS[0], "Timestamp")
    ensures forall i :: 1 <= i < 7 ==> !Contains(KUCOIN_HEADERS[i], "Timestamp")
  {
    assert OccursAt(KUCOIN_HEADERS[0], "Timestamp", 0);
  }

  /** Column `c` of a Binance frame as strings; `show` stands for `astype(str)`
      on one cell. */
  function Shown<V>(col: seq<Binance.Cell<V>>, show: Binance.Cell<V> -> string): (cells: seq<string>)
    ensures |cells| == |col|
  {
    seq(|col|, k requires 0 <= k < |col| => show(col[k]))
  }

  /** Binance's `export_to_excel` after the fetch: nothing for an empty frame,
      otherwise one sheet named `{symbol}_{interval}` with the frame's columns,
      each set to the general width. */
  function BinanceLayout<V>(symbol: string, interval: string, df: Binance.DataFrame<V>,
                            show: Binance.Cell<V> -> string): (r: Option<Layout>)
    reads df
    requires df.Valid()
    ensures r.None? <==> df.IsEmpty()
    ensures r.Some? ==>
      && r.value.sheetName == symbol + "_" + interval
      && r.value.headers == df.columns
      && |r.value.widths| == |df.columns|
      && forall i :: 0 <= i < |df.columns| ==>
           && r.value.widths[i] <= MAX_COLUMN_WIDTH
           && (|df.columns[i]| + 2 <= MAX_COLUMN_WIDTH ==> |df.columns[i]| + 2 <= r.value.widths[i])
           && r.value.widths[i] == ColumnWidth(df.columns[i], Shown(df.cells[df.columns[i]], show))
  {
    if df.IsEmpty() then None
    else
      var widths := seq(|df.columns|, i requires 0 <= i < |df.columns| && df.columns[i] in df.cells
                                        && |df.cells[df.columns[i]]| == df.height > 0 reads df =>
        ColumnWidth(df.columns[i], Shown(df.cells[df.columns[i]], show)));
      Some(Layout(symbol + "_" + interval, df.columns, widths))
  }
}
