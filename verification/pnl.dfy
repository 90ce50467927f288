/** The profit-and-loss summary of Dash-App/app.py `build_graphs`: per ticker, the
    average standardised entry per share, the realised P&L of its closing trades and
    the unrealised P&L of the shares still open, valued at today's price. */
module Pnl {
  import opened Wrappers
  import opened Calendar
  import opened Text
  import opened Sorting
  import opened Trades
  import opened Standardize

  /** The position-type selector: long positions, short positions or all of them. */
  datatype PositionType = LongPositions | ShortPositions | AllPositions

  /** The Initial rows a selector keeps (`str.contains` on the action label). */
  predicate Chosen(pt: PositionType, a: Action)
  {
    match pt
    case LongPositions => a == InitialBuy
    case ShortPositions => a == InitialShort
    case AllPositions => IsInitial(a)
  }

  function SumShares(rows: seq<StdRow>): int
    decreases |rows|
  {
    if rows == [] then 0 else SumShares(rows[..|rows| - 1]) + rows[|rows| - 1].fill.shares
  }

  /** A missing value counts as nothing in a column sum. */
  function Known(x: Option<real>): real
  {
    if x.Some? then x.value else 0.0
  }

  /** `Series.sum()` of the standardised values: missing values are skipped. */
  function SumValues(rows: seq<StdRow>): real
    decreases |rows|
  {
    if rows == [] then 0.0 else SumValues(rows[..|rows| - 1]) + Known(rows[|rows| - 1].value)
  }

  /** The average standardised entry value per share. */
  function AverageEntry(initials: seq<StdRow>): (avg: Option<real>)
    ensures avg.Some? <==> SumShares(initials) != 0
    ensures avg.Some? ==> avg.value * SumShares(initials) as real == SumValues(initials)
  {
    if SumShares(initials) == 0 then None else Some(SumValues(initials) / SumShares(initials) as real)
  }

  function Abs(x: real): real
  {
    if x < 0.0 then -x else x
  }

  /** One closing row's realised P&L against the average entry `avg`. */
  function ClosingPnl(row: StdRow, avg: real, isShort: bool): (p: Option<real>)
    ensures p.Some? <==> row.value.Some? && row.fill.shares != 0
  {
    if row.value.None? || row.fill.shares == 0 then None
    else
      var n := row.fill.shares as real;
      var exit := Abs(row.value.value) / n;
      Some((if isShort then avg - exit else exit + avg) * n)
  }

  /** The realised P&L accumulated over the closing rows (None once a value is NaN). */
  function Realized(closings: seq<StdRow>, avg: Option<real>, isShort: bool): (r: Option<real>)
    ensures closings == [] ==> r == Some(0.0)
    decreases |closings|
  {
    if closings == [] then Some(0.0)
    else
      var acc := Realized(closings[..|closings| - 1], avg, isShort);
      if acc.None? || avg.None? then None
      else
        match ClosingPnl(closings[|closings| - 1], avg.value, isShort)
        case None => None
        case Some(x) => Some(acc.value + x)
  }

  /** The realised P&L is known exactly when there is nothing to close, or the average
      entry is known and every closing row has a value and a nonzero share count. */
  lemma {:induction false} RealizedKnownIff(closings: seq<StdRow>, avg: Option<real>, isShort: bool)
    ensures Realized(closings, avg, isShort).Some? <==>
      closings == [] ||
      (&& avg.Some?
       && forall i :: 0 <= i < |closings| ==> closings[i].value.Some? && closings[i].fill.shares != 0)
    decreases |closings|
  {
    if closings != [] {
      var init := closings[..|closings| - 1];
      RealizedKnownIff(init, avg, isShort);
      assert forall i :: 0 <= i < |init| ==> init[i] == closings[i];
    }
  }

  /** Today's close of a ticker in the price file: the ticker is not listed there,
      or it is listed with a close that is a number or NaN (`None`). */
  datatype Quote = Unlisted | Listed(close: Option<real>)

  /** `price_lookup_series.get(ticker)` over the price file, as a map from ticker to
      close (a NaN close is `None`). */
  function QuoteOf(prices: map<string, Option<real>>, t: string): (q: Quote)
    ensures q.Unlisted? <==> t !in prices
    ensures q.Listed? ==> q.close == prices[t]
  {
    if t in prices then Listed(prices[t]) else Unlisted
  }

  /** The unrealised P&L of `remaining` open shares: today's close relative to the
      anchor price, scaled to the average standardised entry. An unlisted ticker
      means 0; a NaN close, or a zero anchor, makes the P&L NaN. */
  function UnrealizedFrom(remaining: int, current: Quote, anchor: real, avg: Option<real>, isShort: bool): (u: Option<real>)
    ensures remaining <= 0 || current.Unlisted? ==> u == Some(0.0)
    ensures u.None? <==> remaining > 0 && current.Listed? && (current.close.None? || anchor == 0.0 || avg.None?)
  {
    if remaining <= 0 || current.Unlisted? then Some(0.0)
    else if current.close.None? || anchor == 0.0 || avg.None? then None
    else
      var now := current.close.value / anchor * avg.value;
      if isShort then Some((avg.value - now) * remaining as real)
      else Some((now - avg.value) * (-remaining) as real)
  }

  function AddOpt(a: Option<real>, b: Option<real>): Option<real>
  {
    if a.Some? && b.Some? then Some(a.value + b.value) else None
  }

  /** One row of `pnl_summary`. */
  datatype PnlRow = PnlRow(
    ticker: string, open: bool, sharesOpen: int,
    realized: Option<real>, unrealized: Option<real>, total: Option<real>)

  function InitialRows(group: seq<StdRow>, pt: PositionType): seq<StdRow>
  {
    Filter(group, (r: StdRow) => Chosen(pt, r.fill.action))
  }

  function ClosingRows(group: seq<StdRow>): seq<StdRow>
  {
    Filter(group, (r: StdRow) => !IsInitial(r.fill.action))
  }

  /** The price the unrealised P&L is measured from: the entry of the latest chosen
      Initial row, the one whose position can still be open. */
  function Anchor(initials: seq<StdRow>): real
    requires initials != []
  {
    initials[|initials| - 1].fill.price
  }

  /** The summary row of one ticker's rows in date order, or None when the ticker
      has no chosen Initial row and is skipped. */
  function TickerPnl(group: seq<StdRow>, t: string, pt: PositionType, prices: map<string, Option<real>>): (r: Option<PnlRow>)
    ensures r.Some? <==> InitialRows(group, pt) != []
    ensures r.Some? ==> r.value.ticker == t && (r.value.open <==> r.value.sharesOpen > 0)
    ensures r.Some? ==> r.value.total == AddOpt(r.value.realized, r.value.unrealized)
  {
    var initials := InitialRows(group, pt);
    if initials == [] then None
    else
      var avg := AverageEntry(initials);
      var isShort := initials[0].fill.action == InitialShort;
      var realized := Realized(ClosingRows(group), avg, isShort);
      var remaining := group[|group| - 1].fill.remaining;
      var unrealized := UnrealizedFrom(remaining, QuoteOf(prices, t), Anchor(initials), avg, isShort);
      Some(PnlRow(t, remaining > 0, remaining, realized, unrealized, AddOpt(realized, unrealized)))
  }

  /** Chronological order inside a ticker's group. */
  predicate DateLe(a: StdRow, b: StdRow)
  {
    NotAfter(a.fill.date, b.fill.date)
  }

  /** `df.groupby('Ticker')` then `sort_values(by='Date')`. */
  function TickerGroup(rows: seq<StdRow>, t: string): seq<StdRow>
  {
    Sort(Filter(rows, (r: StdRow) => r.fill.ticker == t), DateLe)
  }

  /** The distinct tickers, in order of first appearance. */
  function UniqueTickers(rows: seq<StdRow>): (r: seq<string>)
    ensures forall i :: 0 <= i < |rows| ==> rows[i].fill.ticker in r
    ensures forall t :: t in r ==> exists i :: 0 <= i < |rows| && rows[i].fill.ticker == t
    decreases |rows|
  {
    if rows == [] then []
    else
      var u := UniqueTickers(rows[..|rows| - 1]);
      var t := rows[|rows| - 1].fill.ticker;
      if t in u then u else u + [t]
  }

  /** The groups' keys, sorted as `groupby` sorts them. */
  function Tickers(rows: seq<StdRow>): seq<string>
  {
    Sort(UniqueTickers(rows), StrLe)
  }

  /** The summary rows of the groups of `tickers`, in that order. */
  function Summary(rows: seq<StdRow>, tickers: seq<string>, pt: PositionType, prices: map<string, Option<real>>): (r: seq<PnlRow>)
    ensures |r| <= |tickers|
    decreases |tickers|
  {
    if tickers == [] then []
    else
      var t := tickers[|tickers| - 1];
      var x := TickerPnl(TickerGroup(rows, t), t, pt, prices);
      Summary(rows, tickers[..|tickers| - 1], pt, prices) + (if x.Some? then [x.value] else [])
  }

  /** The realised-P&L loop over one ticker's closing rows. */
  method RealizedPnl(closings: seq<StdRow>, avg: Option<real>, isShort: bool) returns (realized: Option<real>)
    ensures realized == Realized(closings, avg, isShort)
  {
    realized := Some(0.0);
    for i := 0 to |closings|
      invariant realized == Realized(closings[..i], avg, isShort)
    {
      assert closings[..i + 1][..i] == closings[..i];
      var row := closings[i];
      if realized.None? || avg.None? {
        realized := None;
      } else {
        var x := ClosingPnl(row, avg.value, isShort);
        realized := if x.None? then None else Some(realized.value + x.value);
      }
    }
    assert closings[..|closings|] == closings;
  }

  /** One iteration of the per-ticker loop of `build_graphs`. */
  method TickerSummary(group: seq<StdRow>, t: string, pt: PositionType, prices: map<string, Option<real>>) returns (x: Option<PnlRow>)
    ensures x == TickerPnl(group, t, pt, prices)
  {
    var initials := InitialRows(group, pt);
    if initials == [] {
      return None;
    }
    var avg := AverageEntry(initials);
    var isShort := initials[0].fill.action == InitialShort;
    var realized := RealizedPnl(ClosingRows(group), avg, isShort);
    var remaining := group[|group| - 1].fill.remaining;
    var unrealized: Option<real> := Some(0.0);
    if remaining > 0 && t in prices {
      unrealized := UnrealizedFrom(remaining, Listed(prices[t]), Anchor(initials), avg, isShort);
    }
    x := Some(PnlRow(t, remaining > 0, remaining, realized, unrealized, AddOpt(realized, unrealized)));
  }

  /** The per-ticker loop of `build_graphs` over the given tickers. */
  method SummarizeTickers(rows: seq<StdRow>, tickers: seq<string>, pt: PositionType, prices: map<string, Option<real>>) returns (summary: seq<PnlRow>)
    ensures summary == Summary(rows, tickers, pt, prices)
  {
    summary := [];
    for k := 0 to |tickers|
      invariant summary == Summary(rows, tickers[..k], pt, prices)
    {
      SummaryStep(rows, tickers, k, pt, prices);
      summary := AppendTickerSummary(summary, rows, tickers[k], pt, prices);
    }
    assert tickers[..|tickers|] == tickers;
  }

  /** Appends the summary row of ticker `t`, when it has one. */
  method AppendTickerSummary(summary: seq<PnlRow>, rows: seq<StdRow>, t: string, pt: PositionType, prices: map<string, Option<real>>)
    returns (summary': seq<PnlRow>)
    ensures var x := TickerPnl(TickerGroup(rows, t), t, pt, prices);
      summary' == summary + (if x.Some? then [x.value] else [])
  {
    var x := TickerSummary(TickerGroup(rows, t), t, pt, prices);
    summary' := if x.Some? then summary + [x.value] else summary;
  }

  /** The summary of one more ticker appends that ticker's row, when it has one. */
  lemma SummaryStep(rows: seq<StdRow>, tickers: seq<string>, k: int, pt: PositionType, prices: map<string, Option<real>>)
    requires 0 <= k < |tickers|
    ensures var x := TickerPnl(TickerGroup(rows, tickers[k]), tickers[k], pt, prices);
      Summary(rows, tickers[..k + 1], pt, prices)
        == Summary(rows, tickers[..k], pt, prices) + (if x.Some? then [x.value] else [])
  {
    assert tickers[..k + 1][..k] == tickers[..k];
  }

  /** `pnl_summary`: one row per ticker with a chosen Initial row, in ticker order. */
  method ProfitAndLoss(rows: seq<StdRow>, pt: PositionType, prices: map<string, Option<real>>) returns (summary: seq<PnlRow>)
    ensures summary == Summary(rows, Tickers(rows), pt, prices)
  {
    var tickers := Tickers(rows);
    summary := SummarizeTickers(rows, tickers, pt, prices);
  }

  /** `len(position_chosen_df) * position_size`. */
  function CapitalDeployed(rows: seq<StdRow>, pt: PositionType, positionSize: real): real
  {
    |InitialRows(rows, pt)| as real * positionSize
  }

  /** Each chosen Initial row deploys one position's worth of capital. */
  lemma CapitalDeployedCountsEntries(r: StdRow, rows: seq<StdRow>, pt: PositionType, positionSize: real)
    ensures CapitalDeployed([r] + rows, pt, positionSize)
      == CapitalDeployed(rows, pt, positionSize) + (if Chosen(pt, r.fill.action) then positionSize else 0.0)
  {
    assert ([r] + rows)[1..] == rows;
  }

  /** The capital of all positions is that of the long ones plus that of the short ones. */
  lemma CapitalOfAllIsLongPlusShort(rows: seq<StdRow>, positionSize: real)
    ensures CapitalDeployed(rows, AllPositions, positionSize)
      == CapitalDeployed(rows, LongPositions, positionSize) + CapitalDeployed(rows, ShortPositions, positionSize)
  {
    InitialsOfAllAreLongPlusShort(rows);
    var l, sh := |InitialRows(rows, LongPositions)|, |InitialRows(rows, ShortPositions)|;
    assert (l + sh) as real * positionSize == l as real * positionSize + sh as real * positionSize;
  }

  lemma {:induction false} InitialsOfAllAreLongPlusShort(rows: seq<StdRow>)
    ensures |InitialRows(rows, AllPositions)| == |InitialRows(rows, LongPositions)| + |InitialRows(rows, ShortPositions)|
    decreases |rows|
  {
    if rows != [] {
      InitialsOfAllAreLongPlusShort(rows[1..]);
    }
  }

  /** The column totals of the summary (missing values skipped). */
  function TotalRealized(summary: seq<PnlRow>): real
    decreases |summary|
  {
    if summary == [] then 0.0
    else TotalRealized(summary[..|summary| - 1]) + Known(summary[|summary| - 1].realized)
  }

  function TotalUnrealized(summary: seq<PnlRow>): real
    decreases |summary|
  {
    if summary == [] then 0.0
    else TotalUnrealized(summary[..|summary| - 1]) + Known(summary[|summary| - 1].unrealized)
  }

  function TotalPnl(summary: seq<PnlRow>): real
    decreases |summary|
  {
    if summary == [] then 0.0
    else TotalPnl(summary[..|summary| - 1]) + Known(summary[|summary| - 1].total)
  }

  /** The three portfolio totals printed under the summary table. */
  datatype PortfolioTotals = PortfolioTotals(realized: real, unrealized: real, total: real)

  /** The column sums of `summary_df`. With no summary row the frame has no columns
      and the first column lookup raises. */
  function Totals(summary: seq<PnlRow>): (r: Result<PortfolioTotals>)
    ensures r.Err? <==> summary == []
    ensures r.Ok? ==> r.value.realized == TotalRealized(summary) && r.value.unrealized == TotalUnrealized(summary)
    ensures r.Ok? ==> r.value.total == TotalPnl(summary)
  {
    if summary == [] then Err("KeyError: 'Realized P&L($)'")
    else Ok(PortfolioTotals(TotalRealized(summary), TotalUnrealized(summary), TotalPnl(summary)))
  }

  /** Every summary row's total is its realised plus its unrealised P&L. */
  lemma {:induction false} SummaryRowsAddUp(rows: seq<StdRow>, tickers: seq<string>, pt: PositionType, prices: map<string, Option<real>>)
    ensures forall x :: x in Summary(rows, tickers, pt, prices) ==>
      x.ticker in tickers && (x.open <==> x.sharesOpen > 0) && x.total == AddOpt(x.realized, x.unrealized)
    decreases |tickers|
  {
    if tickers != [] {
      SummaryRowsAddUp(rows, tickers[..|tickers| - 1], pt, prices);
    }
  }

  /** When no row's P&L is missing, the net total is the realised total plus the
      unrealised total. */
  lemma {:induction false} TotalsAddUp(summary: seq<PnlRow>)
    requires forall i :: 0 <= i < |summary| ==>
      summary[i].realized.Some? && summary[i].unrealized.Some? && summary[i].total == AddOpt(summary[i].realized, summary[i].unrealized)
    ensures TotalPnl(summary) == TotalRealized(summary) + TotalUnrealized(summary)
    decreases |summary|
  {
    if summary != [] {
      TotalsAddUp(summary[..|summary| - 1]);
    }
  }

  /** The reported totals exist exactly when the summary has a row, and then the net
      total is the realised total plus the unrealised total when no row's P&L is
      missing. */
  lemma PortfolioTotalsAddUp(summary: seq<PnlRow>)
    requires forall i :: 0 <= i < |summary| ==>
      summary[i].realized.Some? && summary[i].unrealized.Some? && summary[i].total == AddOpt(summary[i].realized, summary[i].unrealized)
    ensures Totals(summary).Err? <==> summary == []
    ensures Totals(summary).Ok? ==>
      Totals(summary).value.total == Totals(summary).value.realized + Totals(summary).value.unrealized
  {
    TotalsAddUp(summary);
  }

  /** With every closing row priced and signed as its cash flow (sales bring cash in
      on a long position, buys pay it out on a short one), the realised P&L is the
      closing cash flow plus the average entry times the shares closed. */
  lemma {:induction false} RealizedIsClosingCashFlow(closings: seq<StdRow>, avg: real, isShort: bool)
    requires forall i :: 0 <= i < |closings| ==>
      closings[i].value.Some? && closings[i].fill.shares > 0
      && (if isShort then closings[i].value.value <= 0.0 else closings[i].value.value >= 0.0)
    ensures var r := Realized(closings, Some(avg), isShort);
      r.Some? && r.value == SumValues(closings) + avg * SumShares(closings) as real
  {
    RealizedIsRowCashFlows(closings, avg, isShort);
    RowCashFlowsSplit(closings, avg);
  }

  /** The closing rows' values plus `avg` for every share they close. */
  function RowCashFlows(rows: seq<StdRow>, avg: real): real
  {
    if rows == [] then 0.0
    else RowCashFlows(rows[..|rows| - 1], avg) + (Known(rows[|rows| - 1].value) + avg * rows[|rows| - 1].fill.shares as real)
  }

  lemma {:induction false} RealizedIsRowCashFlows(closings: seq<StdRow>, avg: real, isShort: bool)
    requires forall i :: 0 <= i < |closings| ==>
      closings[i].value.Some? && closings[i].fill.shares > 0
      && (if isShort then closings[i].value.value <= 0.0 else closings[i].value.value >= 0.0)
    ensures var r := Realized(closings, Some(avg), isShort);
      r.Some? && r.value == RowCashFlows(closings, avg)
    decreases |closings|
  {
    if closings != [] {
      var init := closings[..|closings| - 1];
      assert forall i :: 0 <= i < |init| ==> init[i] == closings[i];
      RealizedIsRowCashFlows(init, avg, isShort);
      ClosingPnlIsCashFlow(closings[|closings| - 1], avg, isShort);
    }
  }

  lemma {:induction false} RowCashFlowsSplit(rows: seq<StdRow>, avg: real)
    ensures RowCashFlows(rows, avg) == SumValues(rows) + avg * SumShares(rows) as real
    decreases |rows|
  {
    if rows != [] {
      var init := rows[..|rows| - 1];
      RowCashFlowsSplit(init, avg);
      Distribute(avg, SumShares(init) as real, rows[|rows| - 1].fill.shares as real);
    }
  }

  lemma Distribute(a: real, b: real, c: real)
    ensures a * (b + c) == a * b + a * c
  {
  }

  /** One closing row signed as its cash flow: its realised P&L is that cash flow
      plus the average entry times its shares. */
  lemma ClosingPnlIsCashFlow(row: StdRow, avg: real, isShort: bool)
    requires row.value.Some? && row.fill.shares > 0
    requires if isShort then row.value.value <= 0.0 else row.value.value >= 0.0
    ensures var x := ClosingPnl(row, avg, isShort);
      x.Some? && x.value == row.value.value + avg * row.fill.shares as real
  {
    var v := row.value.value;
    var n := row.fill.shares as real;
    var exit := Abs(v) / n;
    assert exit * n == Abs(v);
  }

  /** A closed episode of one ticker, in date order (its Initial row, then the closing
      rows that sell off all three shares): the realised P&L is the episode's net
      standardised cash flow. */
  lemma ClosedEpisodeRealizedIsNetCashFlow(entry: StdRow, closings: seq<StdRow>, t: string, pt: PositionType, prices: map<string, Option<real>>)
    requires Chosen(pt, entry.fill.action) && entry.fill.shares == 3 && entry.value.Some?
    requires forall i :: 0 <= i < |closings| ==>
      !IsInitial(closings[i].fill.action) && closings[i].value.Some? && closings[i].fill.shares > 0
      && (if entry.fill.action == InitialShort then closings[i].value.value <= 0.0 else closings[i].value.value >= 0.0)
    requires SumShares(closings) == 3
    ensures TickerPnl([entry] + closings, t, pt, prices).Some?
    ensures var r := TickerPnl([entry] + closings, t, pt, prices).value.realized;
      r.Some? && r.value == entry.value.value + SumValues(closings)
  {
    EpisodeRealized(entry, closings, t, pt, prices);
    EpisodeCashFlow(entry, closings);
  }

  /** Closing all three shares against a third of the entry's value nets the entry's
      value plus the closing values. */
  lemma EpisodeCashFlow(entry: StdRow, closings: seq<StdRow>)
    requires entry.value.Some?
    requires forall i :: 0 <= i < |closings| ==>
      closings[i].value.Some? && closings[i].fill.shares > 0
      && (if entry.fill.action == InitialShort then closings[i].value.value <= 0.0 else closings[i].value.value >= 0.0)
    requires SumShares(closings) == 3
    ensures Realized(closings, Some(entry.value.value / 3.0), entry.fill.action == InitialShort)
      == Some(entry.value.value + SumValues(closings))
  {
    var avg := entry.value.value / 3.0;
    RealizedIsClosingCashFlow(closings, avg, entry.fill.action == InitialShort);
    assert SumShares(closings) as real == 3.0;
    assert avg * 3.0 == entry.value.value;
  }

  /** The realised part of one episode's summary row: its closing rows against a
      third of the entry's value. */
  lemma EpisodeRealized(entry: StdRow, closings: seq<StdRow>, t: string, pt: PositionType, prices: map<string, Option<real>>)
    requires Chosen(pt, entry.fill.action) && entry.fill.shares == 3 && entry.value.Some?
    requires forall i :: 0 <= i < |closings| ==> !IsInitial(closings[i].fill.action)
    ensures TickerPnl([entry] + closings, t, pt, prices).Some?
    ensures TickerPnl([entry] + closings, t, pt, prices).value.realized
      == Realized(closings, Some(entry.value.value / 3.0), entry.fill.action == InitialShort)
  {
    EpisodeRows(entry, closings, pt);
    TickerRealized([entry] + closings, t, pt, prices);
    AverageOfOneEntry(entry);
  }

  /** A single three-share entry averages to a third of its value per share. */
  lemma AverageOfOneEntry(entry: StdRow)
    requires entry.fill.shares == 3 && entry.value.Some?
    ensures AverageEntry([entry]) == Some(entry.value.value / 3.0)
  {
    assert [entry][..0] == [];
    assert SumShares([entry]) == 3;
    assert SumValues([entry]) == entry.value.value;
  }

  /** The realised part of a ticker's summary row. */
  lemma TickerRealized(group: seq<StdRow>, t: string, pt: PositionType, prices: map<string, Option<real>>)
    requires InitialRows(group, pt) != []
    ensures var initials := InitialRows(group, pt);
      TickerPnl(group, t, pt, prices).Some? &&
      TickerPnl(group, t, pt, prices).value.realized
        == Realized(ClosingRows(group), AverageEntry(initials), initials[0].fill.action == InitialShort)
  {
  }

  /** An episode's chosen Initial rows and closing rows. */
  lemma EpisodeRows(entry: StdRow, closings: seq<StdRow>, pt: PositionType)
    requires Chosen(pt, entry.fill.action)
    requires forall i :: 0 <= i < |closings| ==> !IsInitial(closings[i].fill.action)
    ensures InitialRows([entry] + closings, pt) == [entry]
    ensures ClosingRows([entry] + closings) == closings
  {
    var group := [entry] + closings;
    assert group[1..] == closings;
    FilterDropsAll(closings, (r: StdRow) => Chosen(pt, r.fill.action));
    FilterKeepsAll(closings, (r: StdRow) => !IsInitial(r.fill.action));
  }

  /** An open ticker missing from the price file counts 0 unrealised P&L, while one
      listed with a NaN close has a missing unrealised and total P&L. */
  lemma UnrealizedOfTodaysQuote(group: seq<StdRow>, t: string, pt: PositionType, prices: map<string, Option<real>>)
    requires InitialRows(group, pt) != []
    ensures group != []
    ensures t !in prices ==> TickerPnl(group, t, pt, prices).value.unrealized == Some(0.0)
    ensures group[|group| - 1].fill.remaining > 0 && t in prices && prices[t].None? ==>
      TickerPnl(group, t, pt, prices).value.unrealized.None? && TickerPnl(group, t, pt, prices).value.total.None?
  {
  }

  /** Valued at the entry price of the latest chosen Initial row, the open shares
      have neither gained nor lost. */
  lemma UnrealizedVanishesAtEntryPrice(group: seq<StdRow>, t: string, pt: PositionType, prices: map<string, Option<real>>)
    requires InitialRows(group, pt) != [] && SumShares(InitialRows(group, pt)) != 0
    requires t in prices && prices[t] == Some(Anchor(InitialRows(group, pt))) && Anchor(InitialRows(group, pt)) != 0.0
    ensures var u := TickerPnl(group, t, pt, prices).value.unrealized;
      u.Some? && u.value == 0.0
  {
    var initials := InitialRows(group, pt);
    var p := prices[t].value;
    assert p / p == 1.0;
    var avg := AverageEntry(initials).value;
    assert p / p * avg == avg;
  }

  /** A long position gains when today's price is above its entry and a short one
      when it is below: the sign of the unrealised P&L follows the price move. */
  lemma UnrealizedFollowsPriceMove(remaining: int, current: real, anchor: real, avg: real, isShort: bool)
    requires remaining > 0 && anchor > 0.0
    requires if isShort then avg > 0.0 else avg < 0.0
    ensures UnrealizedFrom(remaining, Listed(Some(current)), anchor, Some(avg), isShort).Some?
    ensures var u := UnrealizedFrom(remaining, Listed(Some(current)), anchor, Some(avg), isShort).value;
      (u > 0.0 <==> (if isShort then current < anchor else current > anchor))
      && (u == 0.0 <==> current == anchor)
  {
    var n := remaining as real;
    var now := current / anchor * avg;
    var d := current / anchor - 1.0;
    assert now - avg == d * avg;
    assert d > 0.0 <==> current > anchor;
    assert d == 0.0 <==> current == anchor;
    if isShort {
      assert (avg - now) * n == -d * (avg * n);
      assert avg * n > 0.0;
    } else {
      assert (now - avg) * (-remaining) as real == d * (-avg * n);
      assert -avg * n > 0.0;
    }
  }

  // The unrealised P&L as the dashboard computes it: against the price of the
  // FIRST chosen Initial row of the ticker, even when that position was closed and
  // the ticker re-entered later at another price.

  function UnrealizedAsWritten(group: seq<StdRow>, t: string, pt: PositionType, prices: map<string, Option<real>>): (u: Option<real>)
    requires InitialRows(group, pt) != []
    ensures |InitialRows(group, pt)| == 1 ==> u == TickerPnl(group, t, pt, prices).value.unrealized
  {
    var initials := InitialRows(group, pt);
    var avg := AverageEntry(initials);
    var isShort := initials[0].fill.action == InitialShort;
    UnrealizedFrom(group[|group| - 1].fill.remaining, QuoteOf(prices, t), initials[0].fill.price, avg, isShort)
  }

  /** A ticker bought at 10, stopped out at 9, bought again at 20 and still held at
      20: the re-entered position has not moved, yet the first-entry anchor reports a
      gain of one whole position size (50); the latest-entry anchor reports 0. */
  lemma ReentryAnchorCounterexample()
    ensures var d := Date(2025, 4, 1);
      var group := [
        StdRow(Fill(d, "T", InitialBuy, 10.0, 3, 3), Finite(5.0), Some(-50.0), None),
        StdRow(Fill(d.(day := 2), "T", StopLossSell, 9.0, 3, 0), Finite(5.0), Some(45.0), None),
        StdRow(Fill(d.(day := 3), "T", InitialBuy, 20.0, 3, 3), Finite(2.5), Some(-50.0), None)];
      var prices := map["T" := Some(20.0)];
      var asWritten := UnrealizedAsWritten(group, "T", AllPositions, prices);
      var corrected := TickerPnl(group, "T", AllPositions, prices).value.unrealized;
      && asWritten.Some? && asWritten.value == 50.0
      && corrected.Some? && corrected.value == 0.0
  {
    var d := Date(2025, 4, 1);
    var r0 := StdRow(Fill(d, "T", InitialBuy, 10.0, 3, 3), Finite(5.0), Some(-50.0), None);
    var r1 := StdRow(Fill(d.(day := 2), "T", StopLossSell, 9.0, 3, 0), Finite(5.0), Some(45.0), None);
    var r2 := StdRow(Fill(d.(day := 3), "T", InitialBuy, 20.0, 3, 3), Finite(2.5), Some(-50.0), None);
    var group := [r0, r1, r2];
    var p := (r: StdRow) => Chosen(AllPositions, r.fill.action);
    assert group[1..] == [r1, r2] && [r1, r2][1..] == [r2] && [r2][1..] == [];
    assert Filter([r2], p) == [r2];
    assert Filter([r1, r2], p) == [r2];
    assert Filter(group, p) == [r0] + [r2];
    assert InitialRows(group, AllPositions) == [r0, r2];
    assert [r0, r2][..1] == [r0] && [r0][..0] == [];
    assert SumShares([r0]) == 3;
    assert SumValues([r0]) == -50.0;
    assert SumShares([r0, r2]) == 6;
    assert SumValues([r0, r2]) == -100.0;
    assert AverageEntry([r0, r2]).Some? && AverageEntry([r0, r2]).value == -100.0 / 6.0;
  }
}
