/** `KuCoinService`: the pair formatter, the backward paginator of
    `get_kline_data_as_dataframe` and the steps that turn the fetched pages
    into an ascending candle series. */
module KuCoin {
  import opened Outcomes
  import opened Text

  // ---------------------------------------------------------------------
  // _format_symbol

  /** The quote currencies tried by `_format_symbol`, in priority order. */
  const QUOTES: seq<string> := ["USDT", "USDC", "TUSD", "BUSD", "BTC", "ETH", "KCS"]

  /** `pair.endswith(base) and len(pair) > len(base)`. */
  predicate SplitsOn(pair: string, quote: string) {
    EndsWith(pair, quote) && |pair| > |quote|
  }

  /** The index of the first quote from position `i` on that splits `pair`,
      or `|QUOTES|` when none does. */
  function FirstQuote(pair: string, i: nat): (r: nat)
    requires i <= |QUOTES|
    ensures i <= r <= |QUOTES|
    ensures forall j :: i <= j < r ==> !SplitsOn(pair, QUOTES[j])
    ensures r < |QUOTES| ==> SplitsOn(pair, QUOTES[r])
    decreases |QUOTES| - i
  {
    if i == |QUOTES| then i
    else if SplitsOn(pair, QUOTES[i]) then i
    else FirstQuote(pair, i + 1)
  }

  /** Quote `i` is the first listed quote that splits `pair`. */
  predicate FirstSplit(pair: string, i: nat) {
    && i < |QUOTES|
    && SplitsOn(pair, QUOTES[i])
    && forall j :: 0 <= j < i ==> !SplitsOn(pair, QUOTES[j])
  }

  /** No listed quote splits `pair`. */
  predicate NoSplit(pair: string) {
    forall j :: 0 <= j < |QUOTES| ==> !SplitsOn(pair, QUOTES[j])
  }

  /** The quote that `_format_symbol` puts after the dash: the first listed
      quote that ends the upper-cased pair and is shorter than it, otherwise
      the last three characters. Only pairs longer than three are split. */
  function QuoteOf(pair: string): (q: string)
    requires |pair| > 3
    ensures SplitsOn(Upper(pair), q) && |q| >= 3
    ensures forall i: nat :: FirstSplit(Upper(pair), i) ==> q == QUOTES[i]
    ensures NoSplit(Upper(pair)) ==> q == Upper(pair)[|pair| - 3..]
  {
    var p := Upper(pair);
    var i := FirstQuote(p, 0);
    QuoteLengths();
    if i < |QUOTES| then
      assert forall i': nat :: FirstSplit(p, i') ==> i' == i;
      QUOTES[i]
    else
      p[|p| - 3..]
  }

  /** The last letter of each quote: T, C or D for the four-letter ones,
      C, H or S for the three-letter ones. */
  lemma QuoteEndings()
    ensures forall j :: 0 <= j < |QUOTES| ==>
      || (|QUOTES[j]| == 4 && QUOTES[j][3] in {'T', 'C', 'D'})
      || (|QUOTES[j]| == 3 && QUOTES[j][2] in {'C', 'H', 'S'})
  {
  }

  /** No quote splits a pair whose last character differs from the last
      character of every quote shorter than the pair. */
  lemma NoSplitByLastChar(p: string)
    requires p != []
    requires forall j :: 0 <= j < |QUOTES| && |QUOTES[j]| < |p| ==> QUOTES[j][|QUOTES[j]| - 1] != p[|p| - 1]
    ensures NoSplit(p)
  {
    forall j | 0 <= j < |QUOTES| ensures !SplitsOn(p, QUOTES[j]) {
      var q := QUOTES[j];
      if |q| < |p| {
        assert p[|p| - |q|..][|q| - 1] == p[|p| - 1] != q[|q| - 1];
      }
    }
  }

  lemma QuoteLengths()
    ensures forall j :: 0 <= j < |QUOTES| ==> 3 <= |QUOTES[j]| <= 4
  {
  }

  /** `f"{pair[:k]}-{pair[k:]}"`. */
  function DashBefore(p: string, k: nat): (r: string)
    requires k <= |p|
    ensures |r| == |p| + 1
    ensures r[k] == '-'
    ensures r[..k] + r[k + 1..] == p
    ensures r[k + 1..] == p[k..]
  {
    var r := p[..k] + "-" + p[k..];
    assert r[..k] == p[..k] && r[k + 1..] == p[k..];
    r
  }

  /** `_format_symbol(pair)`: upper-case, then insert a dash before the quote.
      Pairs of at most three characters, the empty one included, come back
      upper-cased and undivided; nothing is stripped. */
  function FormatSymbol(pair: string): (r: string)
    ensures |pair| <= 3 ==> r == Upper(pair)
    ensures |pair| > 3 ==>
      var k := |pair| - |QuoteOf(pair)|;
      && 0 < k < |pair|
      && |r| == |pair| + 1
      && r[k] == '-'
      && r[..k] + r[k + 1..] == Upper(pair)
      && r[k + 1..] == QuoteOf(pair)
  {
    var p := Upper(pair);
    var i := FirstQuote(p, 0);
    QuoteLengths();
    if i < |QUOTES| then
      DashBefore(p, |p| - |QUOTES[i]|)
    else if |p| > 3 then
      DashBefore(p, |p| - 3)
    else
      p
  }

  /** Exactly one dash is added to a pair longer than three characters. */
  lemma FormatSymbolAddsOneDash(pair: string)
    requires |pair| > 3
    ensures Count(FormatSymbol(pair), '-') == Count(pair, '-') + 1
  {
    var r := FormatSymbol(pair);
    var k := |pair| - |QuoteOf(pair)|;
    assert r == r[..k] + [r[k]] + r[k + 1..];
    CountAppend(r[..k] + [r[k]], r[k + 1..], '-');
    CountAppend(r[..k], [r[k]], '-');
    CountAppend(r[..k], r[k + 1..], '-');
    CountUpper(pair, '-');
  }

  /** No listed quote is a suffix of another, so at most one of them splits a
      pair and their priority order never decides anything. */
  lemma QuotesAreSuffixFree(p: string, i: nat, j: nat)
    requires i < |QUOTES| && j < |QUOTES|
    requires EndsWith(p, QUOTES[i]) && EndsWith(p, QUOTES[j])
    ensures i == j
  {
    var qi, qj := QUOTES[i], QUOTES[j];
    QuoteLengths();
    assert qi[|qi| - 1] == p[|p| - 1] == qj[|qj| - 1];
    assert qi[|qi| - 2] == p[|p| - 2] == qj[|qj| - 2];
    assert qi[|qi| - 3] == p[|p| - 3] == qj[|qj| - 3];
    if |qi| == 4 && |qj| == 4 {
      assert qi[0] == p[|p| - 4] == qj[0];
    }
  }

  /** The pair is cut before the first listed quote that splits it. */
  lemma FormatSymbolOnQuote(pair: string, i: nat)
    requires FirstSplit(Upper(pair), i)
    ensures FormatSymbol(pair) == DashBefore(Upper(pair), |pair| - |QUOTES[i]|)
  {
    var p := Upper(pair);
    var k := FirstQuote(p, 0);
    assert k == i;
  }

  /** Without a splitting quote, a pair longer than three is cut before its
      last three characters. */
  lemma FormatSymbolOnFallback(pair: string)
    requires |pair| > 3 && NoSplit(Upper(pair))
    ensures FormatSymbol(pair) == DashBefore(Upper(pair), |pair| - 3)
  {
    var p := Upper(pair);
    var k := FirstQuote(p, 0);
    assert k == |QUOTES|;
  }

  /** A pair with no lower-case letter that ends in its first splitting
      quote is cut just before that quote. */
  lemma FormatSymbolCuts(head: string, i: nat)
    requires i < |QUOTES| && NoLower(head + QUOTES[i])
    requires FirstSplit(head + QUOTES[i], i)
    ensures FormatSymbol(head + QUOTES[i]) == head + "-" + QUOTES[i]
  {
    var pair := head + QUOTES[i];
    UpperOfNoLower(pair);
    FormatSymbolOnQuote(pair, i);
    assert pair[..|head|] == head && pair[|head|..] == QUOTES[i];
  }

  /** The same for a pair that no listed quote splits: the last three
      characters become the quote. */
  lemma FormatSymbolCutsLastThree(head: string, tail: string)
    requires |tail| == 3 && |head| > 0 && NoLower(head + tail)
    requires NoSplit(head + tail)
    ensures FormatSymbol(head + tail) == head + "-" + tail
  {
    var pair := head + tail;
    UpperOfNoLower(pair);
    FormatSymbolOnFallback(pair);
    assert pair[..|head|] == head && pair[|head|..] == tail;
  }

  /** A dash already in the pair is kept, so the formatter is not idempotent. */
  lemma FormatSymbolNotIdempotent()
    ensures FormatSymbol("BTC-USDT") == "BTC--USDT"
  {
    assert "BTC-USDT" == "BTC-" + QUOTES[0];
    assert "BTC-" + "-" + QUOTES[0] == "BTC--USDT";
    FormatSymbolCuts("BTC-", 0);
  }

  /** A lower-case pair is upper-cased before it is split. */
  lemma FormatSymbolUpperCases()
    ensures FormatSymbol("ethusdt") == "ETH-USDT"
  {
    assert Upper("ethusdt") == "ETH" + QUOTES[0];
    UpperCaseInsensitive("ethusdt", "ETH" + QUOTES[0]);
    FormatSymbolCuts("ETH", 0);
  }

  /** Without a listed quote the last three characters become the quote. */
  lemma FormatSymbolFallback()
    ensures FormatSymbol("XRPEUR") == "XRP-EUR"
  {
    QuoteEndings();
    assert "XRP" + "EUR" == "XRPEUR";
    assert "XRP" + "-" + "EUR" == "XRP-EUR";
    NoSplitByLastChar("XRPEUR");
    FormatSymbolCutsLastThree("XRP", "EUR");
  }

  /** A listed quote as long as the pair itself does not split it. */
  lemma FormatSymbolWholeQuote()
    ensures FormatSymbol("USDT") == "U-SDT"
  {
    QuoteEndings();
    assert "U" + "SDT" == "USDT";
    assert "U" + "-" + "SDT" == "U-SDT";
    NoSplitByLastChar("USDT");
    FormatSymbolCutsLastThree("U", "SDT");
  }

  /** The formatter sees a pair only through its upper-case form. */
  lemma UpperCaseInsensitive(a: string, b: string)
    requires Upper(a) == Upper(b)
    ensures FormatSymbol(a) == FormatSymbol(b)
  {
  }

  // ---------------------------------------------------------------------
  // The backward paginator of get_kline_data_as_dataframe

  /** One row of `get_kline_data`, in the exchange's column order
      `Timestamp, Open, Close, High, Low, Amount, Volume`. Timestamps are
      integer seconds; the other fields are opaque values. */
  datatype RawKline<P> = RawKline(ts: int, open: P, close: P, high: P, low: P, amount: P, volume: P)

  type Page<P> = seq<RawKline<P>>

  /** `self._client.get_kline_data(symbol, interval, endAt=e, startAt=s)` for
      the fixed interval, as a function of the symbol, `s` and `e`. */
  type PageSource<!P> = (string, int, int) -> Outcome<Page<P>>

  /** The pause after each page that lets the loop go on, in milliseconds. */
  const PAUSE_MS: nat := 300

  /** `int(kline_chunk[-1][0])`: the timestamp of the page's last row. */
  function Oldest<P>(page: Page<P>): int
    requires page != []
  {
    page[|page| - 1].ts
  }

  /** Does the loop ask for another page after receiving `o`? Not after an
      exception, an empty page, or a last row at or before the start. */
  predicate Continues<P>(o: Outcome<Page<P>>, start: int) {
    o.Returned? && o.value != [] && Oldest(o.value) > start
  }

  predicate NoLaterThan<P>(o: Outcome<Page<P>>, endAt: int) {
    o.Returned? && o.value != [] ==> Oldest(o.value) <= endAt
  }

  /** The exchange never ends a page after the `endAt` it was asked for. */
  ghost predicate Bounded<P>(fetch: PageSource<P>, symbol: string, start: int) {
    forall endAt :: NoLaterThan(fetch(symbol, start, endAt), endAt)
  }

  /** The `endAt` of every request the loop makes once its cursor is at
      `cursor`, in order. */
  function Requests<P>(fetch: PageSource<P>, symbol: string, start: int, cursor: int): seq<int>
    requires Bounded(fetch, symbol, start)
    decreases cursor - start
  {
    if cursor <= start then []
    else
      var o := fetch(symbol, start, cursor);
      assert NoLaterThan(o, cursor);
      if Continues(o, start) then [cursor] + Requests(fetch, symbol, start, Oldest(o.value) - 1)
      else [cursor]
  }

  /** What a request adds to `all_data`. */
  function PageOf<P>(o: Outcome<Page<P>>): Page<P> {
    if o.Returned? then o.value else []
  }

  /** The pages received for the requests `reqs`, concatenated in request order. */
  function Received<P>(fetch: PageSource<P>, symbol: string, start: int, reqs: seq<int>): Page<P> {
    if reqs == [] then []
    else Received(fetch, symbol, start, reqs[..|reqs| - 1]) + PageOf(fetch(symbol, start, reqs[|reqs| - 1]))
  }

  /** `min(elapsed_duration / total_duration, 1.0)`. */
  function Fraction(start: int, end: int, oldest: int): (f: real)
    requires start < end
    ensures f <= 1.0
    ensures oldest <= end ==> 0.0 <= f
  {
    var f := (end - oldest) as real / (end - start) as real;
    if 1.0 < f then 1.0 else f
  }

  /** The values passed to the progress callback: one per non-empty page. */
  function ProgressOf<P>(fetch: PageSource<P>, symbol: string, start: int, end: int, reqs: seq<int>): (r: seq<real>)
    requires reqs != [] ==> start < end
    ensures |r| <= |reqs|
  {
    if reqs == [] then []
    else
      var o := fetch(symbol, start, reqs[|reqs| - 1]);
      ProgressOf(fetch, symbol, start, end, reqs[..|reqs| - 1])
      + (if o.Returned? && o.value != [] then [Fraction(start, end, Oldest(o.value))] else [])
  }

  /** The pauses made: one after each request that lets the loop go on. */
  function PausesOf<P>(fetch: PageSource<P>, symbol: string, start: int, reqs: seq<int>): (r: seq<nat>)
    ensures |r| <= |reqs|
  {
    if reqs == [] then []
    else
      PausesOf(fetch, symbol, start, reqs[..|reqs| - 1])
      + (if Continues(fetch(symbol, start, reqs[|reqs| - 1]), start) then [PAUSE_MS] else [])
  }

  /** Appending a request appends what it contributes to each log. */
  lemma LogsSnoc<P>(fetch: PageSource<P>, symbol: string, start: int, end: int, reqs: seq<int>, c: int)
    requires start < end
    ensures var o := fetch(symbol, start, c);
      && Received(fetch, symbol, start, reqs + [c]) == Received(fetch, symbol, start, reqs) + PageOf(o)
      && ProgressOf(fetch, symbol, start, end, reqs + [c]) == ProgressOf(fetch, symbol, start, end, reqs)
         + (if o.Returned? && o.value != [] then [Fraction(start, end, Oldest(o.value))] else [])
      && PausesOf(fetch, symbol, start, reqs + [c]) == PausesOf(fetch, symbol, start, reqs)
         + (if Continues(o, start) then [PAUSE_MS] else [])
  {
    assert (reqs + [c])[..|reqs|] == reqs;
  }

  lemma RequestsUnfold<P>(fetch: PageSource<P>, symbol: string, start: int, cursor: int)
    requires Bounded(fetch, symbol, start)
    requires cursor > start
    ensures var o := fetch(symbol, start, cursor);
      Requests(fetch, symbol, start, cursor)
      == if Continues(o, start) then [cursor] + Requests(fetch, symbol, start, Oldest(o.value) - 1) else [cursor]
  {
  }

  /** The request at the cursor moves from the requests still to come to
      the requests made. */
  lemma RequestsAdvance<P>(fetch: PageSource<P>, symbol: string, start: int, end: int, made: seq<int>, cursor: int)
    requires Bounded(fetch, symbol, start)
    requires cursor > start
    requires made + Requests(fetch, symbol, start, cursor) == Requests(fetch, symbol, start, end)
    ensures var o := fetch(symbol, start, cursor);
      if Continues(o, start) then
        (made + [cursor]) + Requests(fetch, symbol, start, Oldest(o.value) - 1) == Requests(fetch, symbol, start, end)
      else
        made + [cursor] == Requests(fetch, symbol, start, end)
  {
    var o := fetch(symbol, start, cursor);
    RequestsUnfold(fetch, symbol, start, cursor);
    if Continues(o, start) {
      var rest := Requests(fetch, symbol, start, Oldest(o.value) - 1);
      assert (made + [cursor]) + rest == made + ([cursor] + rest);
    }
  }

  /** One pass of the loop body: ask for the page ending at `cursor`, add
      what it brings to `all_data`, report progress for a non-empty page, and
      decide whether to go on from just before its last row. An exception
      from the exchange is caught here and ends the loop. */
  method FetchPage<P>(fetch: PageSource<P>, symbol: string, start: int, end: int, reportProgress: bool, cursor: int,
                      allData: Page<P>, ghost requests: seq<int>, ghost progress: seq<real>, ghost pauses: seq<nat>)
    returns (goOn: bool, next: int, allData': Page<P>, ghost requests': seq<int>, ghost progress': seq<real>, ghost pauses': seq<nat>)
    requires start < cursor
    requires Progressed(fetch, symbol, start, end, reportProgress, cursor, requests, allData, progress, pauses)
    ensures var o := fetch(symbol, start, cursor);
      && goOn == Continues(o, start)
      && (goOn ==> next == Oldest(o.value) - 1 && start <= next < cursor)
      && allData' == allData + PageOf(o)
      && requests' == requests + [cursor]
      && progress' == progress + (if reportProgress && PageOf(o) != [] then [Fraction(start, end, Oldest(o.value))] else [])
      && pauses' == pauses + (if goOn then [PAUSE_MS] else [])
    // the invariant of the loop holds again, from the next cursor or, when the loop stops, from the start
    ensures Progressed(fetch, symbol, start, end, reportProgress, if goOn then next else start,
                       requests', allData', progress', pauses')
  {
    ProgressedStep(fetch, symbol, start, end, reportProgress, cursor, requests, allData, progress, pauses);
    goOn, next, allData', requests', progress', pauses' := false, cursor, allData, requests + [cursor], progress, pauses;
    var chunk := fetch(symbol, start, cursor);
    assert NoLaterThan(chunk, cursor);
    if chunk.Raised? {
      return;
    }
    var page := chunk.value;
    allData' := allData + page;
    if page == [] {
      return;
    }
    var oldest := page[|page| - 1].ts;
    if reportProgress {
      progress' := progress + [Fraction(start, end, oldest)];
    }
    if oldest <= start {
      return;
    }
    goOn, next, pauses' := true, oldest - 1, pauses + [PAUSE_MS];
  }

  /** The `while current_end_ts > start_at_ts` loop. `requests` records the
      `endAt` of each call (its `startAt` is always `start`), `progress` the
      values reported when a callback is given, `pauses` the sleeps. */
  method FetchPages<P>(fetch: PageSource<P>, symbol: string, start: int, end: int, reportProgress: bool)
    returns (allData: Page<P>, ghost requests: seq<int>, ghost progress: seq<real>, ghost pauses: seq<nat>)
    requires Bounded(fetch, symbol, start)
    ensures requests == Requests(fetch, symbol, start, end)
    ensures allData == Received(fetch, symbol, start, requests)
    ensures requests != [] ==> start < end
    ensures progress == if reportProgress then ProgressOf(fetch, symbol, start, end, requests) else []
    ensures pauses == PausesOf(fetch, symbol, start, requests)
  {
    allData, requests, progress, pauses := [], [], [], [];
    var cursor := end;
    // the cursor the requests still to come start from; the start once the loop breaks
    ghost var remaining := cursor;
    while cursor > start
      invariant remaining == cursor
      invariant Progressed(fetch, symbol, start, end, reportProgress, remaining, requests, allData, progress, pauses)
      decreases cursor - start
    {
      var goOn, next;
      goOn, next, allData, requests, progress, pauses :=
        FetchPage(fetch, symbol, start, end, reportProgress, cursor, allData, requests, progress, pauses);
      if !goOn {
        remaining := start;
        break;
      }
      cursor := next;
      remaining := cursor;
    }
    ProgressedDone(fetch, symbol, start, end, reportProgress, remaining, requests, allData, progress, pauses);
  }

  /** The loop invariant: the requests made and the requests still to come
      from `cursor` make up all requests, and each log holds what the
      requests made contributed. */
  ghost predicate Progressed<P>(fetch: PageSource<P>, symbol: string, start: int, end: int, reportProgress: bool,
                                cursor: int, requests: seq<int>, allData: Page<P>, progress: seq<real>, pauses: seq<nat>)
  {
    && Bounded(fetch, symbol, start)
    && cursor <= end
    && requests + Requests(fetch, symbol, start, cursor) == Requests(fetch, symbol, start, end)
    && (requests != [] ==> start < end)
    && allData == Received(fetch, symbol, start, requests)
    && progress == (if reportProgress then ProgressOf(fetch, symbol, start, end, requests) else [])
    && pauses == PausesOf(fetch, symbol, start, requests)
  }

  /** Once the cursor is at or before the start, every request has been made. */
  lemma ProgressedDone<P>(fetch: PageSource<P>, symbol: string, start: int, end: int, reportProgress: bool,
                          cursor: int, requests: seq<int>, allData: Page<P>, progress: seq<real>, pauses: seq<nat>)
    requires cursor <= start
    requires Progressed(fetch, symbol, start, end, reportProgress, cursor, requests, allData, progress, pauses)
    ensures requests == Requests(fetch, symbol, start, end)
    ensures allData == Received(fetch, symbol, start, requests)
    ensures requests != [] ==> start < end
    ensures progress == if reportProgress then ProgressOf(fetch, symbol, start, end, requests) else []
    ensures pauses == PausesOf(fetch, symbol, start, requests)
  {
    assert requests + [] == requests;
  }

  /** One pass of the loop keeps the invariant; when the loop stops, the
      requests still to come are none. */
  lemma ProgressedStep<P>(fetch: PageSource<P>, symbol: string, start: int, end: int, reportProgress: bool,
                          cursor: int, requests: seq<int>, allData: Page<P>, progress: seq<real>, pauses: seq<nat>)
    requires start < cursor
    requires Progressed(fetch, symbol, start, end, reportProgress, cursor, requests, allData, progress, pauses)
    ensures var o := fetch(symbol, start, cursor);
      Progressed(fetch, symbol, start, end, reportProgress,
                 if Continues(o, start) then Oldest(o.value) - 1 else start,
                 requests + [cursor], allData + PageOf(o),
                 progress + (if reportProgress && PageOf(o) != [] then [Fraction(start, end, Oldest(o.value))] else []),
                 pauses + (if Continues(o, start) then [PAUSE_MS] else []))
  {
    var o := fetch(symbol, start, cursor);
    assert NoLaterThan(o, cursor);
    RequestsAdvance(fetch, symbol, start, end, requests, cursor);
    LogsSnoc(fetch, symbol, start, end, requests, cursor);
  }

  /** The first request asks for `endAt = end_ts`, every request's `endAt` is
      after the start and no later than the cursor it began from, and there is
      a request exactly when the start precedes the cursor. */
  lemma {:induction false} RequestsInRange<P>(fetch: PageSource<P>, symbol: string, start: int, cursor: int)
    requires Bounded(fetch, symbol, start)
    ensures var r := Requests(fetch, symbol, start, cursor);
      && (r != [] <==> cursor > start)
      && (r != [] ==> r[0] == cursor)
      && forall i :: 0 <= i < |r| ==> start < r[i] <= cursor
    decreases cursor - start
  {
    if cursor > start {
      var o := fetch(symbol, start, cursor);
      assert NoLaterThan(o, cursor);
      if Continues(o, start) {
        RequestsInRange(fetch, symbol, start, Oldest(o.value) - 1);
      }
    }
  }

  /** Each request after the first asks for the second just before the
      oldest row of the previous page, and that page let the loop go on; the
      `endAt` values strictly decrease, so there are at most `end - start`
      requests. */
  lemma {:induction false} RequestsStep<P>(fetch: PageSource<P>, symbol: string, start: int, cursor: int)
    requires Bounded(fetch, symbol, start)
    ensures var r := Requests(fetch, symbol, start, cursor);
      && (forall i :: 0 <= i < |r| - 1 ==>
            Continues(fetch(symbol, start, r[i]), start) && r[i + 1] == Oldest(fetch(symbol, start, r[i]).value) - 1)
      && (forall i, j :: 0 <= i < j < |r| ==> r[j] < r[i])
      && |r| <= if cursor > start then cursor - start else 0
    decreases cursor - start
  {
    if cursor > start {
      var o := fetch(symbol, start, cursor);
      assert NoLaterThan(o, cursor);
      if Continues(o, start) {
        var next := Oldest(o.value) - 1;
        RequestsStep(fetch, symbol, start, next);
        RequestsInRange(fetch, symbol, start, next);
      }
    }
  }

  /** The loop stops after the last request because that request failed,
      returned an empty page, or reached back to the start. */
  lemma {:induction false} RequestsStop<P>(fetch: PageSource<P>, symbol: string, start: int, cursor: int)
    requires Bounded(fetch, symbol, start)
    ensures var r := Requests(fetch, symbol, start, cursor);
      r != [] ==>
        var o := fetch(symbol, start, r[|r| - 1]);
        !Continues(o, start) || Oldest(o.value) - 1 <= start
    decreases cursor - start
  {
    if cursor > start {
      var o := fetch(symbol, start, cursor);
      assert NoLaterThan(o, cursor);
      if Continues(o, start) {
        var next := Oldest(o.value) - 1;
        RequestsStop(fetch, symbol, start, next);
        var rest := Requests(fetch, symbol, start, next);
        if rest != [] {
          assert Requests(fetch, symbol, start, cursor)[|rest|] == rest[|rest| - 1];
        }
      }
    }
  }

  /** The progress fraction lies in [0, 1] for a row no later than the end
      and reaches 1 once the row is at or before the start. */
  lemma FractionBounds(start: int, end: int, oldest: int)
    requires start < end && oldest <= end
    ensures 0.0 <= Fraction(start, end, oldest) <= 1.0
    ensures oldest <= start ==> Fraction(start, end, oldest) == 1.0
  {
    var d := (end - start) as real;
    var f := (end - oldest) as real / d;
    assert 0.0 <= f by { DivNonNegative((end - oldest) as real, d); }
    if oldest <= start {
      assert 1.0 <= f by { DivAtLeastOne((end - oldest) as real, d); }
    }
  }

  lemma DivNonNegative(x: real, d: real)
    requires 0.0 <= x && 0.0 < d
    ensures 0.0 <= x / d
  {
  }

  lemma DivAtLeastOne(x: real, d: real)
    requires d <= x && 0.0 < d
    ensures 1.0 <= x / d
  {
  }

  lemma DivMonotone(x: real, y: real, d: real)
    requires x <= y && 0.0 < d
    ensures x / d <= y / d
  {
  }

  /** An older row means more progress. */
  lemma FractionMonotone(start: int, end: int, older: int, newer: int)
    requires start < end && older <= newer
    ensures Fraction(start, end, newer) <= Fraction(start, end, older)
  {
    DivMonotone((end - newer) as real, (end - older) as real, (end - start) as real);
  }

  /** When every request but the last received a non-empty page, the i-th
      progress value belongs to the i-th request, and only the last request
      can lack one. */
  lemma {:induction false} ProgressIndexed<P>(fetch: PageSource<P>, symbol: string, start: int, end: int, reqs: seq<int>)
    requires start < end
    requires forall i :: 0 <= i < |reqs| - 1 ==> Continues(fetch(symbol, start, reqs[i]), start)
    ensures var p := ProgressOf(fetch, symbol, start, end, reqs);
      && (reqs == [] ==> p == [])
      && (reqs != [] ==> |p| == |reqs| - (if PageOf(fetch(symbol, start, reqs[|reqs| - 1])) != [] then 0 else 1))
      && forall i :: 0 <= i < |p| ==>
           PageOf(fetch(symbol, start, reqs[i])) != []
           && p[i] == Fraction(start, end, Oldest(fetch(symbol, start, reqs[i]).value))
  {
    if reqs != [] {
      var init := reqs[..|reqs| - 1];
      ProgressIndexed(fetch, symbol, start, end, init);
      var q := ProgressOf(fetch, symbol, start, end, init);
      if init != [] {
        assert Continues(fetch(symbol, start, init[|init| - 1]), start);
      }
      assert |q| == |init|;
      var p := ProgressOf(fetch, symbol, start, end, reqs);
      var o := fetch(symbol, start, reqs[|reqs| - 1]);
      assert p == q + (if o.Returned? && o.value != [] then [Fraction(start, end, Oldest(o.value))] else []);
      forall i | 0 <= i < |p|
        ensures PageOf(fetch(symbol, start, reqs[i])) != []
        ensures p[i] == Fraction(start, end, Oldest(fetch(symbol, start, reqs[i]).value))
      {
        if i < |q| {
          assert p[i] == q[i] && reqs[i] == init[i];
        }
      }
    }
  }

  /** The values the loop reports never exceed 1, never go back, and the
      last one is 1 when the loop stopped because it reached the start. */
  lemma ProgressOfLoop<P>(fetch: PageSource<P>, symbol: string, start: int, end: int)
    requires Bounded(fetch, symbol, start)
    requires start < end
    ensures var r := Requests(fetch, symbol, start, end);
      var p := ProgressOf(fetch, symbol, start, end, r);
      && (forall i :: 0 <= i < |p| ==> 0.0 <= p[i] <= 1.0)
      && (forall i, j :: 0 <= i <= j < |p| ==> p[i] <= p[j])
      && ((r != [] && PageOf(fetch(symbol, start, r[|r| - 1])) != []
           && Oldest(fetch(symbol, start, r[|r| - 1]).value) <= start)
          ==> p != [] && p[|p| - 1] == 1.0)
  {
    var r := Requests(fetch, symbol, start, end);
    RequestsInRange(fetch, symbol, start, end);
    RequestsStep(fetch, symbol, start, end);
    ProgressIndexed(fetch, symbol, start, end, r);
    var p := ProgressOf(fetch, symbol, start, end, r);
    forall i | 0 <= i < |p| ensures 0.0 <= p[i] <= 1.0 {
      assert NoLaterThan(fetch(symbol, start, r[i]), r[i]);
      FractionBounds(start, end, Oldest(fetch(symbol, start, r[i]).value));
    }
    forall i, j | 0 <= i <= j < |p| ensures p[i] <= p[j] {
      if i < j {
        var oi := Oldest(fetch(symbol, start, r[i]).value);
        var oj := Oldest(fetch(symbol, start, r[j]).value);
        assert NoLaterThan(fetch(symbol, start, r[j]), r[j]);
        assert r[j] <= r[i + 1];
        FractionMonotone(start, end, oj, oi);
      }
    }
    if r != [] && PageOf(fetch(symbol, start, r[|r| - 1])) != [] {
      var last := fetch(symbol, start, r[|r| - 1]);
      assert NoLaterThan(last, r[|r| - 1]);
      FractionBounds(start, end, Oldest(last.value));
    }
  }

  /** An exception ends the loop with what was received before it: every
      earlier request returned a non-empty page, and the failed one adds
      nothing. */
  lemma PartialResultOnFailure<P>(fetch: PageSource<P>, symbol: string, start: int, end: int)
    requires Bounded(fetch, symbol, start)
    ensures var r := Requests(fetch, symbol, start, end);
      r != [] && fetch(symbol, start, r[|r| - 1]).Raised? ==>
        && (forall i :: 0 <= i < |r| - 1 ==> fetch(symbol, start, r[i]).Returned? && fetch(symbol, start, r[i]).value != [])
        && Received(fetch, symbol, start, r) == Received(fetch, symbol, start, r[..|r| - 1])
  {
    RequestsStep(fetch, symbol, start, end);
  }

  // ---------------------------------------------------------------------
  // Assembling the frame

  function Timestamps<P>(rows: Page<P>): set<int> {
    set i | 0 <= i < |rows| :: rows[i].ts
  }

  predicate UniqueTimestamps<P>(rows: Page<P>) {
    forall i, j :: 0 <= i < j < |rows| ==> rows[i].ts != rows[j].ts
  }

  /** `x` is a row of `rows` and no row bearing its timestamp comes before it. */
  ghost predicate FirstOfItsTimestamp<P>(rows: Page<P>, x: RawKline<P>) {
    && x in rows
    && forall i :: 0 <= i < |rows| && rows[i].ts == x.ts ==> x in rows[..i + 1]
  }

  lemma TimestampsSnoc<P>(rows: Page<P>, x: RawKline<P>)
    ensures Timestamps(rows + [x]) == Timestamps(rows) + {x.ts}
  {
    var r := rows + [x];
    assert r[|rows|] == x;
    forall t | t in Timestamps(rows) ensures t in Timestamps(r) {
      var i :| 0 <= i < |rows| && rows[i].ts == t;
      assert r[i] == rows[i];
    }
  }

  /** `drop_duplicates(subset=['Timestamp'])`: the rows in order, each one
      dropped when an earlier row has its timestamp. */
  function KeepFirst<P>(rows: Page<P>): (r: Page<P>)
    ensures |r| <= |rows|
    ensures forall k :: 0 <= k < |r| ==> r[k] in rows
  {
    if rows == [] then []
    else
      var prev := KeepFirst(rows[..|rows| - 1]);
      var x := rows[|rows| - 1];
      if x.ts in Timestamps(prev) then prev else prev + [x]
  }

  /** Deduplication loses no timestamp and keeps one row per timestamp. */
  lemma {:induction false} KeepFirstTimestamps<P>(rows: Page<P>)
    ensures UniqueTimestamps(KeepFirst(rows))
    ensures Timestamps(KeepFirst(rows)) == Timestamps(rows)
  {
    if rows != [] {
      var init := rows[..|rows| - 1];
      var x := rows[|rows| - 1];
      var prev := KeepFirst(init);
      KeepFirstTimestamps(init);
      TimestampsSnoc(init, x);
      assert rows == init + [x];
      if x.ts !in Timestamps(prev) {
        TimestampsSnoc(prev, x);
        var r := prev + [x];
        forall i, j | 0 <= i < j < |r| ensures r[i].ts != r[j].ts {
          if j == |prev| {
            assert r[i].ts == prev[i].ts && prev[i].ts in Timestamps(prev);
          }
        }
      }
    }
  }

  /** The row kept for each timestamp is the first one bearing it. */
  lemma {:induction false} KeepFirstKeepsFirst<P>(rows: Page<P>)
    ensures forall k :: 0 <= k < |KeepFirst(rows)| ==> FirstOfItsTimestamp(rows, KeepFirst(rows)[k])
  {
    if rows != [] {
      var init := rows[..|rows| - 1];
      var x := rows[|rows| - 1];
      KeepFirstKeepsFirst(init);
      KeepFirstTimestamps(init);
      assert rows == init + [x];
      KeepFirstStep(init, x, KeepFirst(init));
    }
  }

  lemma KeepFirstStep<P>(init: Page<P>, x: RawKline<P>, prev: Page<P>)
    requires forall k :: 0 <= k < |prev| ==> FirstOfItsTimestamp(init, prev[k])
    requires Timestamps(prev) == Timestamps(init)
    ensures forall k :: 0 <= k < |prev| ==> FirstOfItsTimestamp(init + [x], prev[k])
    ensures x.ts !in Timestamps(prev) ==> FirstOfItsTimestamp(init + [x], x)
  {
    var rows := init + [x];
    forall k | 0 <= k < |prev| ensures FirstOfItsTimestamp(rows, prev[k]) {
      var y := prev[k];
      forall i | 0 <= i < |rows| && rows[i].ts == y.ts ensures y in rows[..i + 1] {
        if i < |init| {
          assert rows[..i + 1] == init[..i + 1];
        } else {
          var j :| 0 <= j < |init| && init[j] == y;
          assert rows[..i + 1][j] == y;
        }
      }
    }
    if x.ts !in Timestamps(prev) {
      forall i | 0 <= i < |rows| && rows[i].ts == x.ts ensures x in rows[..i + 1] {
        assert rows[..i + 1][i] == x;
      }
    }
  }

  /** The in-place `drop_duplicates`: one pass remembering the timestamps
      already kept. */
  method DropDuplicateTimestamps<P>(rows: Page<P>) returns (kept: Page<P>)
    ensures kept == KeepFirst(rows)
  {
    kept := [];
    var seen: set<int> := {};
    for n := 0 to |rows|
      invariant kept == KeepFirst(rows[..n])
      invariant seen == Timestamps(kept)
    {
      assert rows[..n + 1][..n] == rows[..n];
      if rows[n].ts !in seen {
        TimestampsSnoc(kept, rows[n]);
        kept := kept + [rows[n]];
        seen := seen + {rows[n].ts};
      }
    }
    assert rows[..|rows|] == rows;
  }

  /** `df[(df['Timestamp'] >= start_at) & (df['Timestamp'] <= end_at)]`:
      the rows of the inclusive range, in order. */
  function WithinRange<P>(rows: Page<P>, start: int, end: int): (r: Page<P>)
    ensures forall k :: 0 <= k < |r| ==> start <= r[k].ts <= end
  {
    if rows == [] then []
    else
      var init := WithinRange(rows[..|rows| - 1], start, end);
      var x := rows[|rows| - 1];
      if start <= x.ts <= end then init + [x] else init
  }

  /** The filter keeps every row of the range and nothing else. */
  lemma {:induction false} WithinRangeKeeps<P>(rows: Page<P>, start: int, end: int)
    ensures var r := WithinRange(rows, start, end);
      && (forall k :: 0 <= k < |r| ==> r[k] in rows)
      && (forall k :: 0 <= k < |rows| && start <= rows[k].ts <= end ==> rows[k] in r)
  {
    if rows != [] {
      var init := rows[..|rows| - 1];
      var x := rows[|rows| - 1];
      WithinRangeKeeps(init, start, end);
      assert rows == init + [x];
      var w := WithinRange(init, start, end);
      var r := WithinRange(rows, start, end);
      forall k | 0 <= k < |r| ensures r[k] in rows {
        if k < |w| {
          assert r[k] == w[k];
        }
      }
      forall k | 0 <= k < |rows| && start <= rows[k].ts <= end ensures rows[k] in r {
        if k < |init| {
          assert rows[k] == init[k];
        }
      }
    }
  }

  /** Each row's timestamp is at least the one before it. */
  predicate SortedByTimestamp<P>(rows: Page<P>) {
    forall i :: 0 < i < |rows| ==> rows[i - 1].ts <= rows[i].ts
  }

  /** Inserts `x` before the first row with a later timestamp. */
  function Insert<P>(x: RawKline<P>, rows: Page<P>): (r: Page<P>)
    requires SortedByTimestamp(rows)
    ensures |r| == |rows| + 1
    ensures r[0] == x || (rows != [] && r[0] == rows[0])
    ensures SortedByTimestamp(r)
  {
    if rows == [] then [x]
    else if x.ts <= rows[0].ts then [x] + rows
    else
      var tail := Insert(x, rows[1..]);
      var r := [rows[0]] + tail;
      assert forall k :: 1 <= k < |r| ==> r[k] == tail[k - 1];
      r
  }

  lemma {:induction false} InsertPermutes<P>(x: RawKline<P>, rows: Page<P>)
    requires SortedByTimestamp(rows)
    ensures multiset(Insert(x, rows)) == multiset(rows) + multiset{x}
  {
    if rows != [] && x.ts > rows[0].ts {
      InsertPermutes(x, rows[1..]);
      assert rows == [rows[0]] + rows[1..];
    }
  }

  /** `sort_values(by='Timestamp', ascending=True)`. */
  function SortByTimestamp<P>(rows: Page<P>): (r: Page<P>)
    ensures SortedByTimestamp(r)
    ensures multiset(r) == multiset(rows)
  {
    if rows == [] then []
    else
      var sorted := SortByTimestamp(rows[1..]);
      InsertPermutes(rows[0], sorted);
      assert rows == [rows[0]] + rows[1..];
      Insert(rows[0], sorted)
  }

  /** Each row's timestamp is later than the one before it. */
  predicate StrictlyAscending<P>(rows: Page<P>) {
    forall i :: 0 < i < |rows| ==> rows[i - 1].ts < rows[i].ts
  }

  lemma {:induction false} AscendingPairwise<P>(rows: Page<P>)
    requires StrictlyAscending(rows)
    ensures forall i, j :: 0 <= i < j < |rows| ==> rows[i].ts < rows[j].ts
  {
    if rows != [] {
      var init := rows[..|rows| - 1];
      AscendingPairwise(init);
      forall i, j | 0 <= i < j < |rows| ensures rows[i].ts < rows[j].ts {
        if j < |rows| - 1 {
          assert rows[i] == init[i] && rows[j] == init[j];
        } else if i < j - 1 {
          assert rows[i] == init[i] && rows[j - 1] == init[j - 1];
        }
      }
    }
  }

  /** Rows taken from another sequence bring no new timestamp. */
  lemma TimestampsOfPart<P>(a: Page<P>, b: Page<P>)
    requires forall k :: 0 <= k < |a| ==> a[k] in b
    ensures Timestamps(a) <= Timestamps(b)
  {
    forall t | t in Timestamps(a) ensures t in Timestamps(b) {
      var i :| 0 <= i < |a| && a[i].ts == t;
      var j :| 0 <= j < |b| && b[j] == a[i];
    }
  }

  /** A permutation holds the same rows. */
  lemma MembersOfPermutation<P>(a: Page<P>, b: Page<P>)
    requires multiset(a) == multiset(b)
    ensures forall k :: 0 <= k < |a| ==> a[k] in b
  {
    forall k | 0 <= k < |a| ensures a[k] in b {
      assert a[k] in multiset(a);
    }
  }

  /** Filtering keeps timestamps unique. */
  lemma {:induction false} WithinRangeUnique<P>(rows: Page<P>, start: int, end: int)
    requires UniqueTimestamps(rows)
    ensures UniqueTimestamps(WithinRange(rows, start, end))
  {
    if rows != [] {
      var init := rows[..|rows| - 1];
      var x := rows[|rows| - 1];
      var w := WithinRange(init, start, end);
      WithinRangeUnique(init, start, end);
      WithinRangeKeeps(init, start, end);
      TimestampsOfPart(w, init);
      var r := WithinRange(rows, start, end);
      forall i, j | 0 <= i < j < |r| ensures r[i].ts != r[j].ts {
        if j == |w| {
          assert r[i].ts in Timestamps(init);
          var m :| 0 <= m < |init| && init[m].ts == r[i].ts;
          assert rows[m] == init[m];
        }
      }
    }
  }

  lemma {:induction false} InsertStrict<P>(x: RawKline<P>, rows: Page<P>)
    requires StrictlyAscending(rows)
    requires x.ts !in Timestamps(rows)
    ensures StrictlyAscending(Insert(x, rows))
  {
    if rows != [] {
      assert rows[0].ts in Timestamps(rows);
      if x.ts > rows[0].ts {
        var rest := rows[1..];
        assert x.ts !in Timestamps(rest) by {
          forall i | 0 <= i < |rest| ensures rest[i].ts != x.ts {
            assert rest[i] == rows[i + 1] && rows[i + 1].ts in Timestamps(rows);
          }
        }
        InsertStrict(x, rest);
        var tail := Insert(x, rest);
        assert rows[0].ts < tail[0].ts;
        var r := Insert(x, rows);
        assert r == [rows[0]] + tail;
        assert forall k :: 1 <= k < |r| ==> r[k] == tail[k - 1];
      }
    }
  }

  /** Sorting rows with unique timestamps orders them strictly. */
  lemma {:induction false} SortStrict<P>(rows: Page<P>)
    requires UniqueTimestamps(rows)
    ensures StrictlyAscending(SortByTimestamp(rows))
  {
    if rows != [] {
      var rest := rows[1..];
      assert UniqueTimestamps(rest) by {
        forall i, j | 0 <= i < j < |rest| ensures rest[i].ts != rest[j].ts {
          assert rest[i] == rows[i + 1] && rest[j] == rows[j + 1];
        }
      }
      SortStrict(rest);
      var sorted := SortByTimestamp(rest);
      MembersOfPermutation(sorted, rest);
      TimestampsOfPart(sorted, rest);
      InsertStrict(rows[0], sorted);
    }
  }

  /** A row of the returned frame, in the column order
      `Timestamp, Open, High, Low, Close, Amount, Volume`. */
  datatype Candle<P> = Candle(ts: int, open: P, high: P, low: P, close: P, amount: P, volume: P)

  /** `df[['Timestamp', 'Open', 'High', 'Low', 'Close', 'Amount', 'Volume']]`
      applied to one row: fields 2, 3 and 4 of the raw row move to 4, 2 and 3. */
  function Reorder<P>(k: RawKline<P>): (c: Candle<P>)
    ensures ToRaw(c) == k
  {
    Candle(k.ts, k.open, k.high, k.low, k.close, k.amount, k.volume)
  }

  /** The raw column order of a candle. */
  function ToRaw<P>(c: Candle<P>): RawKline<P> {
    RawKline(c.ts, c.open, c.close, c.high, c.low, c.amount, c.volume)
  }

  lemma ReorderToRaw<P>(c: Candle<P>)
    ensures Reorder(ToRaw(c)) == c
  {
  }

  /** What `get_kline_data_as_dataframe` returns: `pd.DataFrame()` when
      nothing was fetched, otherwise the seven-column table (possibly with
      no rows). */
  datatype Frame<P> = Blank | Table(rows: seq<Candle<P>>)

  function CandleTimestamps<P>(rows: seq<Candle<P>>): set<int> {
    set k | 0 <= k < |rows| :: rows[k].ts
  }

  function Candles<P>(rows: Page<P>): (r: seq<Candle<P>>)
    ensures |r| == |rows|
    ensures forall k :: 0 <= k < |rows| ==> ToRaw(r[k]) == rows[k]
  {
    seq(|rows|, k requires 0 <= k < |rows| => Reorder(rows[k]))
  }

  /** Deduplicate, keep the inclusive range, sort. */
  function Series<P>(allData: Page<P>, start: int, end: int): Page<P> {
    SortByTimestamp(WithinRange(KeepFirst(allData), start, end))
  }

  /** The steps after the loop: deduplicate, filter, sort, reorder. */
  function Assemble<P>(allData: Page<P>, start: int, end: int): (f: Frame<P>)
    ensures f == Blank <==> allData == []
  {
    if allData == [] then Blank else Table(Candles(Series(allData, start, end)))
  }

  lemma SeriesAscending<P>(allData: Page<P>, start: int, end: int)
    ensures StrictlyAscending(Series(allData, start, end))
  {
    var d := KeepFirst(allData);
    KeepFirstTimestamps(allData);
    WithinRangeUnique(d, start, end);
    SortStrict(WithinRange(d, start, end));
  }

  lemma SeriesRows<P>(allData: Page<P>, start: int, end: int)
    ensures var s := Series(allData, start, end);
      forall k :: 0 <= k < |s| ==> start <= s[k].ts <= end && FirstOfItsTimestamp(allData, s[k])
  {
    var d := KeepFirst(allData);
    KeepFirstKeepsFirst(allData);
    var w := WithinRange(d, start, end);
    var sorted := SortByTimestamp(w);
    WithinRangeKeeps(d, start, end);
    MembersOfPermutation(sorted, w);
    forall k | 0 <= k < |sorted| ensures start <= sorted[k].ts <= end && FirstOfItsTimestamp(allData, sorted[k]) {
      var i :| 0 <= i < |w| && w[i] == sorted[k];
      var j :| 0 <= j < |d| && d[j] == w[i];
    }
  }

  /** The timestamps of `ts` inside the inclusive range. */
  function InRange(ts: set<int>, start: int, end: int): set<int> {
    set t | t in ts && start <= t <= end
  }

  lemma WithinRangeTimestamps<P>(rows: Page<P>, start: int, end: int)
    ensures Timestamps(WithinRange(rows, start, end)) == InRange(Timestamps(rows), start, end)
  {
    var w := WithinRange(rows, start, end);
    WithinRangeKeeps(rows, start, end);
    TimestampsOfPart(w, rows);
    forall t | t in Timestamps(rows) && start <= t <= end ensures t in Timestamps(w) {
      var k :| 0 <= k < |rows| && rows[k].ts == t;
      var i :| 0 <= i < |w| && w[i] == rows[k];
    }
  }

  lemma SameTimestamps<P>(a: Page<P>, b: Page<P>)
    requires multiset(a) == multiset(b)
    ensures Timestamps(a) == Timestamps(b)
  {
    MembersOfPermutation(a, b);
    MembersOfPermutation(b, a);
    TimestampsOfPart(a, b);
    TimestampsOfPart(b, a);
  }

  lemma SeriesTimestamps<P>(allData: Page<P>, start: int, end: int)
    ensures Timestamps(Series(allData, start, end)) == InRange(Timestamps(allData), start, end)
  {
    var d := KeepFirst(allData);
    KeepFirstTimestamps(allData);
    var w := WithinRange(d, start, end);
    WithinRangeTimestamps(d, start, end);
    SameTimestamps(SortByTimestamp(w), w);
  }

  /** The frame is strictly ascending and inside the inclusive range, holds
      every fetched timestamp of that range, and each of its rows is the first
      fetched row with that timestamp, its columns reordered. */
  lemma AssembleSpec<P>(allData: Page<P>, start: int, end: int)
    requires allData != []
    ensures var rows := Assemble(allData, start, end).rows;
      && (forall i, j :: 0 <= i < j < |rows| ==> rows[i].ts < rows[j].ts)
      && (forall k :: 0 <= k < |rows| ==> start <= rows[k].ts <= end)
      && (forall k :: 0 <= k < |rows| ==> FirstOfItsTimestamp(allData, ToRaw(rows[k])))
      && CandleTimestamps(rows) == InRange(Timestamps(allData), start, end)
  {
    var s := Series(allData, start, end);
    SeriesAscending(allData, start, end);
    AscendingPairwise(s);
    SeriesRows(allData, start, end);
    SeriesTimestamps(allData, start, end);
    CandlesKeepTimestamps(s);
  }

  lemma CandlesKeepTimestamps<P>(s: Page<P>)
    ensures var rows := Candles(s);
      && (forall k :: 0 <= k < |rows| ==> rows[k].ts == s[k].ts)
      && CandleTimestamps(rows) == Timestamps(s)
  {
    var rows := Candles(s);
    assert forall k :: 0 <= k < |rows| ==> rows[k].ts == ToRaw(rows[k]).ts == s[k].ts;
    forall t | t in Timestamps(s) ensures t in CandleTimestamps(rows) {
      var k :| 0 <= k < |s| && s[k].ts == t;
      assert rows[k].ts == t;
    }
  }

  /** `get_kline_data_as_dataframe`: format the pair, page backwards from
      `end` to `start`, then assemble what was received. An exception from
      the exchange does not fail it; it only ends the paging early. */
  method GetKlineDataAsDataframe<P>(tradingPair: string, fetch: PageSource<P>, start: int, end: int, reportProgress: bool)
    returns (frame: Frame<P>, symbol: string, ghost requests: seq<int>, ghost progress: seq<real>, ghost pauses: seq<nat>)
    requires Bounded(fetch, FormatSymbol(tradingPair), start)
    ensures symbol == FormatSymbol(tradingPair)
    ensures requests == Requests(fetch, symbol, start, end)
    ensures requests != [] ==> start < end
    ensures progress == if reportProgress then ProgressOf(fetch, symbol, start, end, requests) else []
    ensures pauses == PausesOf(fetch, symbol, start, requests)
    ensures frame == Assemble(Received(fetch, symbol, start, requests), start, end)
  {
    symbol := FormatSymbol(tradingPair);
    var allData;
    allData, requests, progress, pauses := FetchPages(fetch, symbol, start, end, reportProgress);
    if allData == [] {
      frame := Blank;
      return;
    }
    var kept := DropDuplicateTimestamps(allData);
    var inRange := WithinRange(kept, start, end);
    var sorted := SortByTimestamp(inRange);
    frame := Table(Candles(sorted));
  }
}
