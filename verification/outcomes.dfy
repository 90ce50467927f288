/** Outcome attribution of opened positions (a3_analysis.py and outcome_visuals.py
    `analyze_month`): every Initial row of the chosen month is followed to the next
    Initial row of its ticker, and the closing actions in between are classified with
    a fixed payoff table. */
module Outcomes {
  import opened Wrappers
  import opened Calendar
  import opened Sorting
  import opened Trades
  import opened Standardize

  datatype Outcome = Failed | Succeeded | Unknown

  /** One position's closing actions against one direction's labels. The table
      assumes $100 positions of three shares with a 9% stop and 13%, 23% and 38% targets. */
  function ClassifyLeg(actions: seq<Action>, stop: Action, pt1: Action, pt2: Action, pt3: Action): (r: (Outcome, int))
    requires stop != pt1 && pt2 != stop && pt3 != stop
    ensures r.0 == Failed <==> |actions| >= 1 && actions[0] == stop
    ensures r.0 == Succeeded ==> |actions| >= 1 && actions[0] == pt1
    ensures r.0 == Unknown <==> r.1 == 0
    ensures r.0 == Failed <==> r.1 == -27
    ensures r.0 == Succeeded <==> r.1 in {13, 36, 49, 74}
  {
    if |actions| >= 1 then
      if actions[0] == stop then (Failed, -27)
      else if actions[0] == pt1 then
        if |actions| == 2 then
          if actions[1] == stop then (Succeeded, 13)
          else if actions[1] == pt2 then (Succeeded, 36)
          else (Unknown, 0)
        else if |actions| == 3 then
          if actions[2] == stop then (Succeeded, 49)
          else if actions[2] == pt3 then (Succeeded, 74)
          else (Unknown, 0)
        else (Succeeded, 13)
      else (Unknown, 0)
    else (Unknown, 0)
  }

  /** The outcome and dollar result of a position opened with `initial`, from the
      labels of its closing actions alone (no price is read). */
  function Classify(initial: Action, actions: seq<Action>): (r: (Outcome, int))
    ensures r.1 in {-27, 0, 13, 36, 49, 74}
    ensures r.0 == Failed <==> r.1 == -27
    ensures r.0 == Unknown <==> r.1 == 0
    ensures !IsInitial(initial) || actions == [] ==> r == (Unknown, 0)
  {
    match initial
    case InitialBuy => ClassifyLeg(actions, StopLossSell, PT1Sell, PT2Sell, PT3Sell)
    case InitialShort => ClassifyLeg(actions, StopLossBuy, PT1Buy, PT2Buy, PT3Buy)
    case _ => (Unknown, 0)
  }

  /** A closing sequence the simulator can record for one position: the targets in
      order, possibly cut short by a stop-out. */
  predicate ClosingSequence(actions: seq<Action>, stop: Action, pt1: Action, pt2: Action, pt3: Action)
  {
    || actions == [] || actions == [stop]
    || actions == [pt1] || actions == [pt1, stop]
    || actions == [pt1, pt2] || actions == [pt1, pt2, stop]
    || actions == [pt1, pt2, pt3]
  }

  /** The dollars of the closed shares, one share at a time, for $100 shares: a target
      share makes 13, 23 or 38; a stop-out takes every open share at the stop, which
      loses 9 before PT1, breaks even after PT1 and keeps PT1's 13 after PT2. */
  function PerSharePayoff(actions: seq<Action>, stop: Action, pt1: Action, pt2: Action, pt3: Action,
                          open: int, stopGain: int): int
    decreases |actions|
  {
    if actions == [] then 0
    else if actions[0] == stop then open * stopGain
    else if actions[0] == pt1 then 13 + PerSharePayoff(actions[1..], stop, pt1, pt2, pt3, open - 1, 0)
    else if actions[0] == pt2 then 23 + PerSharePayoff(actions[1..], stop, pt1, pt2, pt3, open - 1, 13)
    else if actions[0] == pt3 then 38 + PerSharePayoff(actions[1..], stop, pt1, pt2, pt3, open - 1, stopGain)
    else 0
  }

  /** The shares left after PT2: the last one leaves at PT3 or at the stop on PT1. */
  lemma PayoffAfterSecondTarget(rest: seq<Action>, stop: Action, pt1: Action, pt2: Action, pt3: Action)
    requires stop != pt1 && stop != pt2 && stop != pt3 && pt1 != pt2 && pt1 != pt3 && pt2 != pt3
    requires rest == [] || rest == [stop] || rest == [pt3]
    ensures PerSharePayoff(rest, stop, pt1, pt2, pt3, 1, 13) == if rest == [] then 0 else if rest == [stop] then 13 else 38
  {
    if rest == [pt3] {
      assert rest[1..] == [];
    }
  }

  /** The shares left after PT1: the stop now sits at the entry. */
  lemma PayoffAfterFirstTarget(rest: seq<Action>, stop: Action, pt1: Action, pt2: Action, pt3: Action)
    requires stop != pt1 && stop != pt2 && stop != pt3 && pt1 != pt2 && pt1 != pt3 && pt2 != pt3
    requires rest == [] || rest == [stop] || rest == [pt2] || rest == [pt2, stop] || rest == [pt2, pt3]
    ensures PerSharePayoff(rest, stop, pt1, pt2, pt3, 2, 0) ==
      if rest == [] || rest == [stop] then 0
      else if rest == [pt2] then 23
      else if rest == [pt2, stop] then 36
      else 61
  {
    if rest != [] && rest[0] == pt2 {
      PayoffAfterSecondTarget(rest[1..], stop, pt1, pt2, pt3);
    }
  }

  /** On every closing sequence the simulator can produce, the payoff table is the
      per-share arithmetic of three $100 shares, and only the empty episode is unknown. */
  lemma PayoffTableIsPerShareArithmetic(actions: seq<Action>, stop: Action, pt1: Action, pt2: Action, pt3: Action)
    requires stop != pt1 && stop != pt2 && stop != pt3 && pt1 != pt2 && pt1 != pt3 && pt2 != pt3
    requires ClosingSequence(actions, stop, pt1, pt2, pt3)
    ensures ClassifyLeg(actions, stop, pt1, pt2, pt3).1 == PerSharePayoff(actions, stop, pt1, pt2, pt3, 3, -9)
    ensures ClassifyLeg(actions, stop, pt1, pt2, pt3).0 == Unknown <==> actions == []
  {
    if actions != [] && actions != [stop] {
      PayoffTableFromFirstTarget(actions, stop, pt1, pt2, pt3);
    }
  }

  /** The sequences that begin with PT1 pay out a nonzero table value, the per-share sum. */
  lemma PayoffTableFromFirstTarget(actions: seq<Action>, stop: Action, pt1: Action, pt2: Action, pt3: Action)
    requires stop != pt1 && stop != pt2 && stop != pt3 && pt1 != pt2 && pt1 != pt3 && pt2 != pt3
    requires actions == [pt1] || actions == [pt1, stop] || actions == [pt1, pt2]
      || actions == [pt1, pt2, stop] || actions == [pt1, pt2, pt3]
    ensures ClassifyLeg(actions, stop, pt1, pt2, pt3).1 == PerSharePayoff(actions, stop, pt1, pt2, pt3, 3, -9) != 0
  {
    PayoffAfterFirstTarget(actions[1..], stop, pt1, pt2, pt3);
  }

  /** The labels of a direction are the mirror images of each other. */
  lemma ShortTableMirrorsLong(actions: seq<Action>)
    ensures Classify(InitialShort, actions) == Classify(InitialBuy, seq(|actions|, k requires 0 <= k < |actions| => Mirror(actions[k])))
  {
  }

  /** Long closing labels for short ones and back. */
  function Mirror(a: Action): (b: Action)
    ensures IsBuyAction(a) <==> IsSellAction(b)
    ensures IsInitial(a) <==> IsInitial(b)
  {
    match a
    case InitialBuy => InitialShort
    case PT1Buy => PT1Sell
    case PT2Buy => PT2Sell
    case PT3Buy => PT3Sell
    case StopLossBuy => StopLossSell
    case InitialShort => InitialBuy
    case PT1Sell => PT1Buy
    case PT2Sell => PT2Buy
    case PT3Sell => PT3Buy
    case StopLossSell => StopLossBuy
  }

  /** `df_full`: the standardised table sorted by ticker, then date. */
  predicate RowLe(a: StdRow, b: StdRow)
  {
    TickerDateLe(a.fill, b.fill)
  }

  /** The row opens a position of ticker `t`. */
  predicate Opens(row: StdRow, t: string)
  {
    row.fill.ticker == t && IsInitial(row.fill.action)
  }

  /** The first row at or after `j` that opens a position of row `i`'s ticker, or the
      end of the table. */
  function NextOpening(full: seq<StdRow>, i: int, j: int): (e: int)
    requires 0 <= i < |full| && i < j <= |full|
    ensures j <= e <= |full|
    ensures forall k :: j <= k < e ==> !Opens(full[k], full[i].fill.ticker)
    ensures e < |full| ==> Opens(full[e], full[i].fill.ticker)
    decreases |full| - j
  {
    if j == |full| then j
    else if Opens(full[j], full[i].fill.ticker) then j
    else NextOpening(full, i, j + 1)
  }

  /** The rows of ticker `t`. */
  function OfTicker(t: string): StdRow -> bool
  {
    (x: StdRow) => x.fill.ticker == t
  }

  /** The labels of the rows of row `i`'s ticker after it, before its next opening. */
  function EpisodeActions(full: seq<StdRow>, i: int): (r: seq<Action>)
    requires 0 <= i < |full|
    ensures forall a :: a in r ==> !IsInitial(a)
  {
    var t := full[i].fill.ticker;
    var span := full[i + 1..NextOpening(full, i, i + 1)];
    var onTicker := OfTicker(t);
    var rows := Filter(span, onTicker);
    FilterMembers(span, onTicker);
    assert forall x :: x in span ==> !Opens(x, t) by {
      forall x | x in span ensures !Opens(x, t) {
        var k :| 0 <= k < |span| && span[k] == x;
        assert full[i + 1 + k] == x;
      }
    }
    assert forall k :: 0 <= k < |rows| ==> !IsInitial(rows[k].fill.action) by {
      forall k | 0 <= k < |rows| ensures !IsInitial(rows[k].fill.action) {
        assert rows[k] in rows;
      }
    }
    seq(|rows|, k requires 0 <= k < |rows| => rows[k].fill.action)
  }

  /** The episode holds one label per row of the ticker strictly between row `i` and
      its next opening (the positions `Where` lists in that span), in table order. */
  lemma EpisodeIsTickerRowsInOrder(full: seq<StdRow>, i: int)
    requires 0 <= i < |full|
    ensures var span := full[i + 1..NextOpening(full, i, i + 1)];
      var ix := Where(span, OfTicker(full[i].fill.ticker));
      |EpisodeActions(full, i)| == |ix|
      && forall k :: 0 <= k < |ix| ==> EpisodeActions(full, i)[k] == span[ix[k]].fill.action
  {
    var span := full[i + 1..NextOpening(full, i, i + 1)];
    FilterIsWhere(span, OfTicker(full[i].fill.ticker));
  }

  /** One row of `final_outcomes_df`. */
  datatype OutcomeRecord = OutcomeRecord(
    date: Date, ticker: string, initialAction: Action, initialPrice: real, outcome: Outcome, dollars: int)

  /** The row is an Initial row of the chosen month. */
  predicate Selected(row: StdRow, month: string)
  {
    row.month == Some(month) && IsInitial(row.fill.action)
  }

  function RecordAt(full: seq<StdRow>, i: int): (r: OutcomeRecord)
    requires 0 <= i < |full|
  {
    var c := Classify(full[i].fill.action, EpisodeActions(full, i));
    OutcomeRecord(full[i].fill.date, full[i].fill.ticker, full[i].fill.action, full[i].fill.price, c.0, c.1)
  }

  function InMonth(month: string): StdRow -> bool
  {
    (row: StdRow) => Selected(row, month)
  }

  /** The records of the selected rows among the first `n` rows of the sorted table. */
  function Analysis(full: seq<StdRow>, month: string, n: int): (r: seq<OutcomeRecord>)
    requires 0 <= n <= |full|
    ensures |r| <= n
    ensures forall x :: x in r ==> IsInitial(x.initialAction) && x.dollars in {-27, 0, 13, 36, 49, 74}
  {
    if n == 0 then []
    else Analysis(full, month, n - 1) + (if Selected(full[n - 1], month) then [RecordAt(full, n - 1)] else [])
  }

  /** Exactly the selected rows get a record: every record is that of a selected row,
      and every selected row has its record. */
  lemma {:induction false} AnalysisRecordsSelectedRows(full: seq<StdRow>, month: string, n: int)
    requires 0 <= n <= |full|
    ensures forall x :: x in Analysis(full, month, n) ==>
      exists i :: 0 <= i < n && Selected(full[i], month) && x == RecordAt(full, i)
    ensures forall i :: 0 <= i < n && Selected(full[i], month) ==> RecordAt(full, i) in Analysis(full, month, n)
  {
    if n > 0 {
      AnalysisRecordsSelectedRows(full, month, n - 1);
    }
  }

  /** One record per selected row, in table order: the `k`-th record is that of the
      `k`-th selected row. */
  lemma {:induction false} AnalysisFollowsSelectedRows(full: seq<StdRow>, month: string, n: int)
    requires 0 <= n <= |full|
    ensures var ix := Where(full[..n], InMonth(month));
      |Analysis(full, month, n)| == |ix|
      && forall k :: 0 <= k < |ix| ==> Analysis(full, month, n)[k] == RecordAt(full, ix[k])
  {
    if n > 0 {
      AnalysisFollowsSelectedRows(full, month, n - 1);
      WhereStep(full, n, InMonth(month));
    }
  }

  /** `analyze_month`: one record per Initial row of the month, in ticker-then-date
      order. The source also keeps only tickers with an Initial row in the month,
      which every selected row has. */
  method AnalyzeMonth(rows: seq<StdRow>, month: string) returns (records: seq<OutcomeRecord>)
    ensures records == Analysis(Sort(rows, RowLe), month, |rows|)
  {
    var full := Sort(rows, RowLe);
    records := [];
    for i := 0 to |full|
      invariant records == Analysis(full, month, i)
    {
      var row := full[i];
      if !Selected(row, month) {
        continue;
      }
      var t := row.fill.ticker;
      var next := |full|;
      var j := i + 1;
      while j < |full|
        invariant i + 1 <= j <= |full|
        invariant NextOpening(full, i, i + 1) == NextOpening(full, i, j)
      {
        if Opens(full[j], t) {
          next := j;
          break;
        }
        j := j + 1;
      }
      assert next == NextOpening(full, i, i + 1);
      var episode := Filter(full[i + 1..next], OfTicker(t));
      var actions := seq(|episode|, k requires 0 <= k < |episode| => episode[k].fill.action);
      var c := Classify(row.fill.action, actions);
      records := records + [OutcomeRecord(row.fill.date, t, row.fill.action, row.fill.price, c.0, c.1)];
    }
  }

  // ---------------------------------------------------------------------------
  // The summaries a3_analysis.py prints

  function CountOutcome(records: seq<OutcomeRecord>, o: Outcome): nat
  {
    if records == [] then 0
    else (if records[0].outcome == o then 1 else 0) + CountOutcome(records[1..], o)
  }

  function TotalDollars(records: seq<OutcomeRecord>): int
  {
    if records == [] then 0 else records[0].dollars + TotalDollars(records[1..])
  }

  /** The records of positions opened with `a`. */
  function OfInitialType(records: seq<OutcomeRecord>, a: Action): (r: seq<OutcomeRecord>)
    ensures forall x :: x in r ==> x in records && x.initialAction == a
  {
    var ofType := (x: OutcomeRecord) => x.initialAction == a;
    FilterMembers(records, ofType);
    Filter(records, ofType)
  }

  /** `value_counts().reindex(['failed', 'succeeded', 'unknown'], fill_value=0)`
      covers every record exactly once. */
  lemma {:induction false} OutcomeCountsCoverRecords(records: seq<OutcomeRecord>)
    ensures CountOutcome(records, Failed) + CountOutcome(records, Succeeded) + CountOutcome(records, Unknown) == |records|
  {
    if records != [] {
      OutcomeCountsCoverRecords(records[1..]);
    }
  }

  /** The short total and the long total add up to the overall total. */
  lemma {:induction false} ShortAndLongTotalsAddUp(records: seq<OutcomeRecord>)
    requires forall x :: x in records ==> IsInitial(x.initialAction)
    ensures TotalDollars(OfInitialType(records, InitialShort)) + TotalDollars(OfInitialType(records, InitialBuy))
      == TotalDollars(records)
  {
    if records != [] {
      assert records[0] in records;
      ShortAndLongTotalsAddUp(records[1..]);
    }
  }

  /** The outcome counts, with a zero for an outcome that does not occur. */
  function OutcomeCounts(records: seq<OutcomeRecord>): (counts: map<Outcome, nat>)
    ensures counts.Keys == {Failed, Succeeded, Unknown}
    ensures forall o :: o in counts ==> counts[o] == CountOutcome(records, o)
    ensures counts[Failed] + counts[Succeeded] + counts[Unknown] == |records|
  {
    OutcomeCountsCoverRecords(records);
    map[Failed := CountOutcome(records, Failed), Succeeded := CountOutcome(records, Succeeded),
        Unknown := CountOutcome(records, Unknown)]
  }

  /** What a3_analysis.py reports: the records, the outcome counts, the overall
      dollar total and the short and long totals. */
  datatype AprilReport = AprilReport(
    records: seq<OutcomeRecord>, counts: map<Outcome, nat>, total: int, shortTotal: int, longTotal: int)

  /** a3_analysis.py: the April analysis and its summaries. With no April record the
      outcome table has no columns, and reading its `Outcome` column raises. */
  method AnalyzeApril(rows: seq<StdRow>) returns (report: Result<AprilReport>)
    ensures report.Err? <==> Analysis(Sort(rows, RowLe), "April", |rows|) == []
    ensures report.Ok? ==>
      var r := report.value;
      && r.records == Analysis(Sort(rows, RowLe), "April", |rows|)
      && r.counts.Keys == {Failed, Succeeded, Unknown}
      && (forall o :: o in r.counts ==> r.counts[o] == CountOutcome(r.records, o))
      && r.counts[Failed] + r.counts[Succeeded] + r.counts[Unknown] == |r.records|
      && r.total == TotalDollars(r.records)
      && r.shortTotal == TotalDollars(OfInitialType(r.records, InitialShort))
      && r.longTotal == TotalDollars(OfInitialType(r.records, InitialBuy))
      && r.shortTotal + r.longTotal == r.total
  {
    var records := AnalyzeMonth(rows, "April");
    if records == [] {
      return Err("KeyError: 'Outcome'");
    }
    assert forall x :: x in records ==> IsInitial(x.initialAction);
    var counts := OutcomeCounts(records);
    var total := TotalDollars(records);
    var shortTotal := TotalDollars(OfInitialType(records, InitialShort));
    var longTotal := TotalDollars(OfInitialType(records, InitialBuy));
    ShortAndLongTotalsAddUp(records);
    report := Ok(AprilReport(records, counts, total, shortTotal, longTotal));
  }
}
