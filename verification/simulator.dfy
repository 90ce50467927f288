/** The day-by-day backtest of Dash-App/app.py `trading_simulation`: the setup
    table filtered by month, the price table sorted by date and ticker, and for every
    trading day first an exit pass over the open positions and then an entry pass
    over the setups; the ledger is finally sorted by date and ticker. */
module Simulator {
  import opened Wrappers
  import opened Calendar
  import opened Text
  import opened Sorting
  import opened Trades
  import opened Ledger
  import opened Positions

  /** `open_positions`: a dict keyed by ticker; `order` is its key insertion order. */
  datatype Book = Book(order: seq<string>, open: map<string, Position>)

  const EmptyBook: Book := Book([], map[])

  predicate Distinct(s: seq<string>)
  {
    forall i, j :: 0 <= i < j < |s| ==> s[i] != s[j]
  }

  ghost predicate BookValid(b: Book)
  {
    && Distinct(b.order)
    && (forall t :: t in b.open <==> t in b.order)
    && (forall t :: t in b.open ==> PositionValid(b.open[t]) && b.open[t].setup.ticker == t)
  }

  /** The shares of `t` the book holds. */
  function Holding(b: Book, t: string): int
  {
    if t in b.open then b.open[t].sharesOpen else 0
  }

  function Without(s: seq<string>, x: string): (r: seq<string>)
    ensures forall y :: y in r <==> y in s && y != x
    ensures Distinct(s) ==> Distinct(r)
  {
    if s == [] then []
    else if s[0] == x then Without(s[1..], x)
    else
      assert Distinct(s) ==> s[0] !in s[1..];
      [s[0]] + Without(s[1..], x)
  }

  /** `open_positions[t] = p`: a new key goes last, an existing one keeps its place. */
  function Put(b: Book, t: string, p: Position): (r: Book)
    requires BookValid(b) && PositionValid(p) && p.setup.ticker == t
    ensures BookValid(r) && r.open == b.open[t := p]
  {
    if t in b.open then Book(b.order, b.open[t := p]) else Book(b.order + [t], b.open[t := p])
  }

  /** `del open_positions[t]`. */
  function Remove(b: Book, t: string): (r: Book)
    requires BookValid(b)
    ensures BookValid(r) && r.open == b.open - {t}
  {
    Book(Without(b.order, t), b.open - {t})
  }

  /** The state the loops over one day update: the book, `closed_today_tickers`
      and `executed_trades_log`. */
  datatype Day = Day(book: Book, closed: set<string>, log: seq<Fill>)

  ghost predicate DayValid(st: Day)
  {
    BookValid(st.book) && forall t :: t in st.closed ==> t !in st.book.open
  }

  /** The exit check of one ticker of the snapshot of keys. */
  function ExitTicker(date: Date, today: seq<Bar>, st: Day, t: string): (r: Day)
    requires DayValid(st)
    ensures DayValid(r) && st.closed <= r.closed
    // nothing happens to the other tickers' positions
    ensures forall u :: u != t ==> Holding(r.book, u) == Holding(st.book, u)
    ensures forall u :: u != t && u in r.book.open ==> u in st.book.open && r.book.open[u] == st.book.open[u]
    // a ticker without an open position or without a bar today is skipped
    ensures t !in st.book.open || BarOn(today, date, t).None? ==> r == st
    // otherwise the exit step's fills are logged and its outcome replaces the position
    ensures t in st.book.open && BarOn(today, date, t).Some? ==>
      var step := ExitStep(date, t, st.book.open[t], BarOn(today, date, t).value);
      && r.log == st.log + step.0
      && (step.1.None? ==> t !in r.book.open && r.closed == st.closed + {t})
      && (step.1.Some? ==> t in r.book.open && r.book.open[t] == step.1.value && r.closed == st.closed)
  {
    if t !in st.book.open then st
    else
      match BarOn(today, date, t)
      case None => st
      case Some(bar) =>
        var step := ExitStep(date, t, st.book.open[t], bar);
        match step.1
        case None => Day(Remove(st.book, t), st.closed + {t}, st.log + step.0)
        case Some(q) => Day(Put(st.book, t, q), st.closed, st.log + step.0)
  }

  /** The exit pass over the snapshot `keys` of the book's keys. */
  function ExitPass(date: Date, today: seq<Bar>, st: Day, keys: seq<string>): (r: Day)
    requires DayValid(st)
    ensures DayValid(r)
    decreases |keys|
  {
    if keys == [] then st
    else ExitTicker(date, today, ExitPass(date, today, st, keys[..|keys| - 1]), keys[|keys| - 1])
  }

  function InitialAction(side: Side): Action
  {
    match side
    case Long => InitialBuy
    case Short => InitialShort
  }

  /** A setup is live on `date` from its observation day until `window` business
      days have passed after it. */
  predicate InWindow(setup: Setup, date: Date, window: int)
  {
    !Before(date, setup.observation) && BusinessDaysSince(setup.observation, date) <= window
  }

  /** On its observation day a setup is live whenever the window allows any day. */
  lemma InWindowOnObservationDay(setup: Setup, window: int)
    ensures InWindow(setup, setup.observation, window) <==> window >= 0
  {
    BeforeIsStrictTotalOrder(setup.observation, setup.observation, setup.observation);
  }

  /** Once a setup has been live and its window has run out, it stays out on every
      later day. */
  lemma InWindowNeverReopens(setup: Setup, date: Date, later: Date, window: int)
    requires !Before(date, setup.observation) && !InWindow(setup, date, window)
    requires DayNumber(date) <= DayNumber(later)
    ensures !InWindow(setup, later, window)
  {
    CountIsMonotone(DayNumber(setup.observation), DayNumber(date), DayNumber(later));
  }

  /** The entry check of one setup row. */
  function EntrySetup(date: Date, today: seq<Bar>, window: int, st: Day, setup: Setup): (r: Day)
    requires DayValid(st)
    ensures DayValid(r) && r.closed == st.closed
    // a position is opened exactly when every gate passes
    ensures r != st <==>
      && setup.ticker !in st.closed
      && setup.ticker !in st.book.open
      && InWindow(setup, date, window)
      && BarOn(today, date, setup.ticker).Some?
      && SideOf(setup.trade).Some?
      && InBand(setup, SideOf(setup.trade).value, BarOn(today, date, setup.ticker).value.close)
    // and then it is one initial fill of three shares at the close
    ensures r != st ==>
      var side := SideOf(setup.trade).value;
      var close := BarOn(today, date, setup.ticker).value.close.value;
      && r.log == st.log + [Fill(date, setup.ticker, InitialAction(side), close, 3, 3)]
      && r.book.open == st.book.open[setup.ticker := Open(setup, side, close)]
  {
    var t := setup.ticker;
    if t in st.closed then st
    else if t in st.book.open then st
    else if Before(date, setup.observation) then st
    else if BusinessDaysSince(setup.observation, date) > window then st
    else
      match BarOn(today, date, t)
      case None => st
      case Some(bar) =>
        match SideOf(setup.trade)
        case None => st
        case Some(side) =>
          if InBand(setup, side, bar.close) then
            var p := Open(setup, side, bar.close.value);
            Day(Put(st.book, t, p), st.closed, st.log + [Fill(date, t, InitialAction(side), bar.close.value, 3, 3)])
          else st
  }

  /** The entry pass over the setup rows in table order. */
  function EntryPass(date: Date, today: seq<Bar>, window: int, st: Day, setups: seq<Setup>): (r: Day)
    requires DayValid(st)
    ensures DayValid(r) && r.closed == st.closed
    decreases |setups|
  {
    if setups == [] then st
    else EntrySetup(date, today, window, EntryPass(date, today, window, st, setups[..|setups| - 1]), setups[|setups| - 1])
  }

  function OnDate(d: Date): Bar -> bool
  {
    (b: Bar) => b.date == d
  }

  /** One trading day: the exit pass over a snapshot of the open tickers, then the
      entry pass; `closed_today_tickers` starts empty. */
  function DayStep(date: Date, bars: seq<Bar>, window: int, setups: seq<Setup>, book: Book, log: seq<Fill>): (r: (Book, seq<Fill>))
    requires BookValid(book)
    ensures BookValid(r.0)
  {
    var today := Filter(bars, OnDate(date));
    var st := ExitPass(date, today, Day(book, {}, log), book.order);
    var st' := EntryPass(date, today, window, st, setups);
    (st'.book, st'.log)
  }

  /** The book and the unsorted ledger after the given trading days. */
  function RunDays(dates: seq<Date>, bars: seq<Bar>, window: int, setups: seq<Setup>): (r: (Book, seq<Fill>))
    ensures BookValid(r.0)
    decreases |dates|
  {
    if dates == [] then (EmptyBook, [])
    else
      var prev := RunDays(dates[..|dates| - 1], bars, window, setups);
      DayStep(dates[|dates| - 1], bars, window, setups, prev.0, prev.1)
  }

  /** The setup rows whose observation date falls in the named month. */
  predicate ObservedIn(setup: Setup, month: string)
  {
    1 <= setup.observation.month <= 12 && MonthName(setup.observation) == month
  }

  /** `ObservedIn` as a row selector. */
  function ObservedInMonth(month: string): Setup -> bool
  {
    (s: Setup) => ObservedIn(s, month)
  }

  /** The month selector: "All" keeps every row. */
  function SelectSetups(setups: seq<Setup>, month: string): (r: seq<Setup>)
    ensures month == "All" ==> r == setups
    ensures month != "All" ==> forall s :: s in r ==> s in setups && ObservedIn(s, month)
    ensures month != "All" ==> forall i :: 0 <= i < |setups| && ObservedIn(setups[i], month) ==> setups[i] in r
    ensures |r| <= |setups|
  {
    if month == "All" then setups
    else
      FilterMembers(setups, ObservedInMonth(month));
      Filter(setups, ObservedInMonth(month))
  }

  /** A named month keeps one row per matching setup, in the table's order. */
  lemma SelectSetupsKeepsOrder(setups: seq<Setup>, month: string)
    requires month != "All"
    ensures |SelectSetups(setups, month)| == |Where(setups, ObservedInMonth(month))|
    ensures forall k :: 0 <= k < |Where(setups, ObservedInMonth(month))| ==>
      SelectSetups(setups, month)[k] == setups[Where(setups, ObservedInMonth(month))[k]]
  {
    FilterIsWhere(setups, ObservedInMonth(month));
  }

  /** The price table's order after `sort_values(by=['Date', 'Ticker'])`. */
  predicate BarLe(a: Bar, b: Bar)
  {
    Before(a.date, b.date) || (a.date == b.date && StrLe(a.ticker, b.ticker))
  }

  /** `sorted(ticker_prices_df['Date'].unique())` of a date-sorted table. */
  function UniqueDates(bars: seq<Bar>): (r: seq<Date>)
    ensures forall i :: 0 <= i < |bars| ==> bars[i].date in r
    ensures forall d :: d in r ==> exists i :: 0 <= i < |bars| && bars[i].date == d
    decreases |bars|
  {
    if bars == [] then []
    else
      var u := UniqueDates(bars[..|bars| - 1]);
      var d := bars[|bars| - 1].date;
      if d in u then u else u + [d]
  }

  /** The executed-trades table the callback returns. */
  function Simulate(setups: seq<Setup>, prices: seq<Bar>, window: int, month: string): (r: seq<Fill>)
  {
    var chosen := SelectSetups(setups, month);
    var bars := Sort(prices, BarLe);
    var dates := UniqueDates(bars);
    Sort(RunDays(dates, bars, window, chosen).1, DateTickerLe)
  }

  /** The exit pass as the source runs it: over a copy of the keys, skipping a
      ticker no longer open or without a bar today. */
  method ManageOpenPositions(date: Date, today: seq<Bar>, st: Day) returns (r: Day)
    requires DayValid(st)
    ensures r == ExitPass(date, today, st, st.book.order)
  {
    var keys := st.book.order;
    r := st;
    for i := 0 to |keys|
      invariant r == ExitPass(date, today, st, keys[..i])
    {
      assert keys[..i + 1][..i] == keys[..i];
      var t := keys[i];
      if t !in r.book.open {
        continue;
      }
      var bar := BarOn(today, date, t);
      if bar.None? {
        continue;
      }
      var fills, next := ManagePosition(date, t, r.book.open[t], bar.value);
      if next.None? {
        r := Day(Remove(r.book, t), r.closed + {t}, r.log + fills);
      } else {
        r := Day(Put(r.book, t, next.value), r.closed, r.log + fills);
      }
    }
    assert keys[..|keys|] == keys;
  }

  /** The entry pass as the source runs it: one `continue` per failed gate. */
  method EnterNewPositions(date: Date, today: seq<Bar>, window: int, setups: seq<Setup>, st: Day) returns (r: Day)
    requires DayValid(st)
    ensures r == EntryPass(date, today, window, st, setups)
  {
    r := st;
    for i := 0 to |setups|
      invariant r == EntryPass(date, today, window, st, setups[..i])
    {
      assert setups[..i + 1][..i] == setups[..i];
      var setup := setups[i];
      var t := setup.ticker;
      if t in r.closed || t in r.book.open || Before(date, setup.observation) {
        continue;
      }
      var elapsed := 0;
      if Before(setup.observation, date) {
        elapsed := BusinessDaysSince(setup.observation, date);
      }
      if elapsed > window {
        continue;
      }
      var bar := BarOn(today, date, t);
      if bar.None? {
        continue;
      }
      var side := SideOf(setup.trade);
      if side.Some? && InBand(setup, side.value, bar.value.close) {
        var close := bar.value.close.value;
        r := Day(Put(r.book, t, Open(setup, side.value, close)), r.closed,
                 r.log + [Fill(date, t, InitialAction(side.value), close, 3, 3)]);
      }
    }
    assert setups[..|setups|] == setups;
  }

  /** `trading_simulation` up to the sorted ledger. */
  method TradingSimulation(setups: seq<Setup>, prices: seq<Bar>, businessDays: int, setupMonth: string)
    returns (log: seq<Fill>)
    ensures log == Simulate(setups, prices, businessDays, setupMonth)
  {
    var chosen := SelectSetups(setups, setupMonth);
    var bars := Sort(prices, BarLe);
    var dates := UniqueDates(bars);
    var book := EmptyBook;
    var raw: seq<Fill> := [];
    for k := 0 to |dates|
      invariant (book, raw) == RunDays(dates[..k], bars, businessDays, chosen)
    {
      assert dates[..k + 1][..k] == dates[..k];
      var date := dates[k];
      var today := Filter(bars, OnDate(date));
      var st := Day(book, {}, raw);
      st := ManageOpenPositions(date, today, st);
      st := EnterNewPositions(date, today, businessDays, chosen, st);
      book, raw := st.book, st.log;
    }
    assert dates[..|dates|] == dates;
    log := Sort(raw, DateTickerLe);
  }

  // ---------------------------------------------------------------------------
  // The ledger and the book agree

  /** Every ticker's ledger rows form one unbroken chain, and the shares the chain
      leaves held are exactly the shares of the ticker's open position. */
  ghost predicate LedgerMatches(b: Book, log: seq<Fill>)
  {
    forall t :: ChainsFrom(0, TickerFills(log, t)) && HeldAfter(0, TickerFills(log, t)) == Holding(b, t)
  }

  lemma AppendTickerFills(log: seq<Fill>, fills: seq<Fill>, t0: string, t: string)
    requires forall i :: 0 <= i < |fills| ==> fills[i].ticker == t0
    ensures TickerFills(log + fills, t) == TickerFills(log, t) + (if t == t0 then fills else [])
  {
    FilterAppend(log, fills, OnTicker(t));
    if t == t0 {
      FilterKeepsAll(fills, OnTicker(t));
    } else {
      FilterDropsAll(fills, OnTicker(t));
    }
  }

  /** Rows of one ticker that continue its chain up to the new holding keep the
      ledger and the book in agreement. */
  lemma AppendKeepsLedger(b: Book, log: seq<Fill>, b': Book, t0: string, fills: seq<Fill>)
    requires LedgerMatches(b, log)
    requires forall i :: 0 <= i < |fills| ==> fills[i].ticker == t0
    requires ChainsFrom(Holding(b, t0), fills) && HeldAfter(Holding(b, t0), fills) == Holding(b', t0)
    requires forall u :: u != t0 ==> Holding(b', u) == Holding(b, u)
    ensures LedgerMatches(b', log + fills)
  {
    forall t
      ensures ChainsFrom(0, TickerFills(log + fills, t)) && HeldAfter(0, TickerFills(log + fills, t)) == Holding(b', t)
    {
      AppendKeepsTicker(log, t0, fills, t, Holding(b, t), Holding(b', t));
    }
  }

  /** The same for one ticker `t`, holding `before` and then `after`. */
  lemma AppendKeepsTicker(log: seq<Fill>, t0: string, fills: seq<Fill>, t: string, before: int, after: int)
    requires ChainsFrom(0, TickerFills(log, t)) && HeldAfter(0, TickerFills(log, t)) == before
    requires forall i :: 0 <= i < |fills| ==> fills[i].ticker == t0
    requires t == t0 ==> ChainsFrom(before, fills) && HeldAfter(before, fills) == after
    requires t != t0 ==> after == before
    ensures ChainsFrom(0, TickerFills(log + fills, t)) && HeldAfter(0, TickerFills(log + fills, t)) == after
  {
    AppendTickerFills(log, fills, t0, t);
    if t == t0 {
      ChainsFromAppend(0, TickerFills(log, t0), fills);
    } else {
      assert TickerFills(log + fills, t) == TickerFills(log, t) + [];
    }
  }

  lemma ExitTickerKeepsLedger(date: Date, today: seq<Bar>, st: Day, t0: string)
    requires DayValid(st) && LedgerMatches(st.book, st.log)
    ensures var r := ExitTicker(date, today, st, t0); LedgerMatches(r.book, r.log)
  {
    var r := ExitTicker(date, today, st, t0);
    if t0 in st.book.open && BarOn(today, date, t0).Some? {
      var p := st.book.open[t0];
      var step := ExitStep(date, t0, p, BarOn(today, date, t0).value);
      ExitStepChains(date, t0, p, BarOn(today, date, t0).value);
      assert r.log == st.log + step.0;
      assert Holding(r.book, t0) == if step.1.Some? then step.1.value.sharesOpen else 0;
      AppendKeepsLedger(st.book, st.log, r.book, t0, step.0);
    }
  }

  lemma {:induction false} ExitPassKeepsLedger(date: Date, today: seq<Bar>, st: Day, keys: seq<string>)
    requires DayValid(st) && LedgerMatches(st.book, st.log)
    ensures var r := ExitPass(date, today, st, keys); LedgerMatches(r.book, r.log)
    decreases |keys|
  {
    if keys != [] {
      ExitPassKeepsLedger(date, today, st, keys[..|keys| - 1]);
      ExitTickerKeepsLedger(date, today, ExitPass(date, today, st, keys[..|keys| - 1]), keys[|keys| - 1]);
    }
  }

  lemma EntrySetupKeepsLedger(date: Date, today: seq<Bar>, window: int, st: Day, setup: Setup)
    requires DayValid(st) && LedgerMatches(st.book, st.log)
    ensures var r := EntrySetup(date, today, window, st, setup); LedgerMatches(r.book, r.log)
  {
    var r := EntrySetup(date, today, window, st, setup);
    if r != st {
      var t0 := setup.ticker;
      var side := SideOf(setup.trade).value;
      var close := BarOn(today, date, t0).value.close.value;
      var fills := [Fill(date, t0, InitialAction(side), close, 3, 3)];
      assert r.log == st.log + fills;
      assert HeldBefore(0, fills, 0) == 0;
      AppendKeepsLedger(st.book, st.log, r.book, t0, fills);
    }
  }

  lemma {:induction false} EntryPassKeepsLedger(date: Date, today: seq<Bar>, window: int, st: Day, setups: seq<Setup>)
    requires DayValid(st) && LedgerMatches(st.book, st.log)
    ensures var r := EntryPass(date, today, window, st, setups); LedgerMatches(r.book, r.log)
    decreases |setups|
  {
    if setups != [] {
      EntryPassKeepsLedger(date, today, window, st, setups[..|setups| - 1]);
      EntrySetupKeepsLedger(date, today, window, EntryPass(date, today, window, st, setups[..|setups| - 1]), setups[|setups| - 1]);
    }
  }

  /** After any number of trading days, the unsorted ledger and the open positions agree. */
  lemma {:induction false} RunDaysKeepsLedger(dates: seq<Date>, bars: seq<Bar>, window: int, setups: seq<Setup>)
    ensures var r := RunDays(dates, bars, window, setups); LedgerMatches(r.0, r.1)
    decreases |dates|
  {
    if dates == [] {
      forall t ensures ChainsFrom(0, TickerFills([], t)) && HeldAfter(0, TickerFills([], t)) == Holding(EmptyBook, t) {
      }
    } else {
      var prev := RunDays(dates[..|dates| - 1], bars, window, setups);
      RunDaysKeepsLedger(dates[..|dates| - 1], bars, window, setups);
      var date := dates[|dates| - 1];
      var today := Filter(bars, OnDate(date));
      var st := Day(prev.0, {}, prev.1);
      ExitPassKeepsLedger(date, today, st, prev.0.order);
      EntryPassKeepsLedger(date, today, window, ExitPass(date, today, st, prev.0.order), setups);
    }
  }

  // ---------------------------------------------------------------------------
  // No re-entry on the day of a close

  lemma EntrySetupSkipsClosed(date: Date, today: seq<Bar>, window: int, st: Day, setup: Setup, t: string)
    requires DayValid(st) && t in st.closed
    ensures var r := EntrySetup(date, today, window, st, setup);
      TickerFills(r.log, t) == TickerFills(st.log, t) && t !in r.book.open
  {
    var r := EntrySetup(date, today, window, st, setup);
    if r != st {
      var side := SideOf(setup.trade).value;
      var close := BarOn(today, date, setup.ticker).value.close.value;
      AppendTickerFills(st.log, [Fill(date, setup.ticker, InitialAction(side), close, 3, 3)], setup.ticker, t);
    }
  }

  /** A ticker whose position closed in today's exit pass gets no entry today: the
      entry pass adds no row for it and it stays out of the book. */
  lemma {:induction false} EntryPassSkipsClosed(date: Date, today: seq<Bar>, window: int, st: Day, setups: seq<Setup>, t: string)
    requires DayValid(st) && t in st.closed
    ensures var r := EntryPass(date, today, window, st, setups);
      TickerFills(r.log, t) == TickerFills(st.log, t) && t !in r.book.open
    decreases |setups|
  {
    if setups != [] {
      var init := setups[..|setups| - 1];
      EntryPassSkipsClosed(date, today, window, st, init, t);
      EntrySetupSkipsClosed(date, today, window, EntryPass(date, today, window, st, init), setups[|setups| - 1], t);
    }
  }

  /** Every ticker the exit pass closes is in `closed_today_tickers`. */
  lemma ExitTickerRecordsClose(date: Date, today: seq<Bar>, st: Day, t: string)
    requires DayValid(st) && t in st.book.open
    ensures var r := ExitTicker(date, today, st, t); t !in r.book.open ==> t in r.closed
  {
  }

  // ---------------------------------------------------------------------------
  // Date order of the ledger

  /** The rows are in date order and none is later than `d`. */
  predicate DatedUpTo(log: seq<Fill>, d: Date)
  {
    && (forall i, j :: 0 <= i < j < |log| ==> NotAfter(log[i].date, log[j].date))
    && (forall i :: 0 <= i < |log| ==> NotAfter(log[i].date, d))
  }

  lemma AppendDated(log: seq<Fill>, fills: seq<Fill>, d: Date)
    requires DatedUpTo(log, d) && forall i :: 0 <= i < |fills| ==> fills[i].date == d
    ensures DatedUpTo(log + fills, d)
  {
    var all := log + fills;
    forall i, j | 0 <= i < j < |all| ensures NotAfter(all[i].date, all[j].date) {
      if j >= |log| {
        assert all[j] == fills[j - |log|];
        if i >= |log| {
          assert all[i] == fills[i - |log|];
        }
      }
    }
  }

  lemma ExitTickerKeepsDates(date: Date, today: seq<Bar>, st: Day, t: string)
    requires DayValid(st) && DatedUpTo(st.log, date)
    ensures DatedUpTo(ExitTicker(date, today, st, t).log, date)
  {
    if t in st.book.open && BarOn(today, date, t).Some? {
      var p := st.book.open[t];
      var step := ExitStep(date, t, p, BarOn(today, date, t).value);
      ExitStepChains(date, t, p, BarOn(today, date, t).value);
      assert ExitTicker(date, today, st, t).log == st.log + step.0;
      AppendDated(st.log, step.0, date);
    }
  }

  lemma {:induction false} ExitPassKeepsDates(date: Date, today: seq<Bar>, st: Day, keys: seq<string>)
    requires DayValid(st) && DatedUpTo(st.log, date)
    ensures DatedUpTo(ExitPass(date, today, st, keys).log, date)
    decreases |keys|
  {
    if keys != [] {
      ExitPassKeepsDates(date, today, st, keys[..|keys| - 1]);
      ExitTickerKeepsDates(date, today, ExitPass(date, today, st, keys[..|keys| - 1]), keys[|keys| - 1]);
    }
  }

  lemma EntrySetupKeepsDates(date: Date, today: seq<Bar>, window: int, st: Day, setup: Setup)
    requires DayValid(st) && DatedUpTo(st.log, date)
    ensures DatedUpTo(EntrySetup(date, today, window, st, setup).log, date)
  {
    var r := EntrySetup(date, today, window, st, setup);
    if r != st {
      var side := SideOf(setup.trade).value;
      var close := BarOn(today, date, setup.ticker).value.close.value;
      AppendDated(st.log, [Fill(date, setup.ticker, InitialAction(side), close, 3, 3)], date);
    }
  }

  lemma {:induction false} EntryPassKeepsDates(date: Date, today: seq<Bar>, window: int, st: Day, setups: seq<Setup>)
    requires DayValid(st) && DatedUpTo(st.log, date)
    ensures DatedUpTo(EntryPass(date, today, window, st, setups).log, date)
    decreases |setups|
  {
    if setups != [] {
      EntryPassKeepsDates(date, today, window, st, setups[..|setups| - 1]);
      EntrySetupKeepsDates(date, today, window, EntryPass(date, today, window, st, setups[..|setups| - 1]), setups[|setups| - 1]);
    }
  }

  predicate Increasing(dates: seq<Date>)
  {
    forall i, j :: 0 <= i < j < |dates| ==> Before(dates[i], dates[j])
  }

  /** Run over increasing trading days, the unsorted ledger is already in date order. */
  lemma {:induction false} RunDaysIsDated(dates: seq<Date>, bars: seq<Bar>, window: int, setups: seq<Setup>)
    requires Increasing(dates) && dates != []
    ensures DatedUpTo(RunDays(dates, bars, window, setups).1, dates[|dates| - 1])
    decreases |dates|
  {
    var init := dates[..|dates| - 1];
    var date := dates[|dates| - 1];
    var prev := RunDays(init, bars, window, setups);
    if init != [] {
      RunDaysIsDated(init, bars, window, setups);
      assert Before(init[|init| - 1], date);
    }
    assert DatedUpTo(prev.1, date);
    var today := Filter(bars, OnDate(date));
    var st := Day(prev.0, {}, prev.1);
    ExitPassKeepsDates(date, today, st, prev.0.order);
    EntryPassKeepsDates(date, today, window, ExitPass(date, today, st, prev.0.order), setups);
  }

  lemma BarLeIsTotalPreorder()
    ensures TotalPreorder(BarLe)
  {
    forall a: Bar, b: Bar ensures BarLe(a, b) || BarLe(b, a) {
      StrLeIsTotal(a.ticker, b.ticker);
    }
    forall a: Bar, b: Bar, c: Bar | BarLe(a, b) && BarLe(b, c) ensures BarLe(a, c) {
      if a.date == b.date && b.date == c.date {
        StrLeIsTransitive(a.ticker, b.ticker, c.ticker);
      }
    }
  }

  lemma DateTickerLeIsTotalPreorder()
    ensures TotalPreorder(DateTickerLe)
  {
    forall a: Fill, b: Fill ensures DateTickerLe(a, b) || DateTickerLe(b, a) {
      StrLeIsTotal(a.ticker, b.ticker);
    }
    forall a: Fill, b: Fill, c: Fill | DateTickerLe(a, b) && DateTickerLe(b, c) ensures DateTickerLe(a, c) {
      if a.date == b.date && b.date == c.date {
        StrLeIsTransitive(a.ticker, b.ticker, c.ticker);
      }
    }
  }

  /** The trading days of a date-sorted price table come out strictly increasing. */
  lemma {:induction false} UniqueDatesIncreasing(bars: seq<Bar>)
    requires forall i, j :: 0 <= i < j < |bars| ==> NotAfter(bars[i].date, bars[j].date)
    ensures Increasing(UniqueDates(bars))
    ensures bars != [] ==> UniqueDates(bars) != [] && UniqueDates(bars)[|UniqueDates(bars)| - 1] == bars[|bars| - 1].date
    decreases |bars|
  {
    if bars != [] {
      var init := bars[..|bars| - 1];
      var d := bars[|bars| - 1].date;
      UniqueDatesIncreasing(init);
      var u := UniqueDates(init);
      if init != [] {
        assert u[|u| - 1] == init[|init| - 1].date;
        assert NotAfter(u[|u| - 1], d);
        IncreasingStep(u, d);
      }
    }
  }

  /** A date no earlier than the last of increasing dates is either that last date
      or extends them increasingly. */
  lemma IncreasingStep(u: seq<Date>, d: Date)
    requires Increasing(u) && u != [] && NotAfter(u[|u| - 1], d)
    ensures d in u ==> d == u[|u| - 1]
    ensures d !in u ==> Increasing(u + [d])
  {
    var last := u[|u| - 1];
    if d in u {
      var k :| 0 <= k < |u| && u[k] == d;
      if k < |u| - 1 {
        assert Before(d, last);
        BeforeIsStrictTotalOrder(d, last, d);
      }
    } else {
      forall k | 0 <= k < |u| ensures Before(u[k], d) {
        if k < |u| - 1 {
          BeforeIsStrictTotalOrder(u[k], last, d);
        }
      }
    }
  }

  /** The ledger `trading_simulation` returns is sorted by date and ticker, and
      every ticker's rows in it still form one unbroken chain of share counts:
      an initial entry of three shares while nothing is held, then closing trades
      of held shares down to zero, before any new entry. */
  lemma SimulatedLedgerIsChained(setups: seq<Setup>, prices: seq<Bar>, window: int, month: string)
    ensures var log := Simulate(setups, prices, window, month);
      Sorted(log, DateTickerLe) && LedgerChained(log)
  {
    var chosen := SelectSetups(setups, month);
    var bars := Sort(prices, BarLe);
    BarLeIsTotalPreorder();
    SortIsSorted(prices, BarLe);
    var dates := UniqueDates(bars);
    UniqueDatesIncreasing(bars);
    var raw := RunDays(dates, bars, window, chosen).1;
    RunDaysKeepsLedger(dates, bars, window, chosen);
    var log := Sort(raw, DateTickerLe);
    DateTickerLeIsTotalPreorder();
    SortIsSorted(raw, DateTickerLe);
    if dates != [] {
      RunDaysIsDated(dates, bars, window, chosen);
    } else {
      assert raw == [];
    }
    forall t ensures ChainsFrom(0, TickerFills(log, t)) {
      forall i, j | 0 <= i < j < |raw| && OnTicker(t)(raw[i]) && OnTicker(t)(raw[j])
        ensures DateTickerLe(raw[i], raw[j])
      {
        StrLeIsTotal(t, t);
      }
      SortKeepsOrderedFamily(raw, DateTickerLe, OnTicker(t));
      assert TickerFills(log, t) == TickerFills(raw, t);
      assert ChainsFrom(0, TickerFills(raw, t));
    }
  }
}
