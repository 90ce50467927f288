/** The records the backtest works on: trade setups, daily price bars and the
    executed-trade ledger (Dash-App/app.py, `trading_simulation`). */
module Trades {
  import opened Wrappers
  import opened Calendar
  import opened Text

  /** One row of the setup table. Numeric columns are coerced with
      `errors='coerce'`, so each of them may be missing. */
  datatype Setup = Setup(
    ticker: string,
    trade: string,          // "buy" or "short"; any other value never enters
    observation: Date,
    enterFrom: Option<real>,
    enterTo: Option<real>,
    stoploss: Option<real>,
    pt1: Option<real>,
    pt2: Option<real>,
    pt3: Option<real>)

  /** One row of the price table (the open and volume columns are never read). */
  datatype Bar = Bar(date: Date, ticker: string, high: Option<real>, low: Option<real>, close: Option<real>)

  datatype Side = Long | Short

  /** The two setup directions the simulator acts on. */
  function SideOf(trade: string): (s: Option<Side>)
    ensures s == Some(Long) <==> trade == "buy"
    ensures s == Some(Short) <==> trade == "short"
  {
    if trade == "buy" then Some(Long)
    else if trade == "short" then Some(Short)
    else None
  }

  /** The ten labels the simulator writes in the `Action` column. */
  datatype Action =
    | InitialBuy | PT1Buy | PT2Buy | PT3Buy | StopLossBuy
    | InitialShort | PT1Sell | PT2Sell | PT3Sell | StopLossSell

  predicate IsInitial(a: Action)
  {
    a == InitialBuy || a == InitialShort
  }

  /** `buy_actions`: cash goes out. */
  predicate IsBuyAction(a: Action)
  {
    a in {InitialBuy, PT1Buy, PT2Buy, PT3Buy, StopLossBuy}
  }

  /** `sell_actions`: cash comes in. */
  predicate IsSellAction(a: Action)
  {
    a in {InitialShort, PT1Sell, PT2Sell, PT3Sell, StopLossSell}
  }

  lemma EveryActionIsBuyXorSell(a: Action)
    ensures IsBuyAction(a) != IsSellAction(a)
  {
  }

  /** One executed trade: a row of the ledger. */
  datatype Fill = Fill(date: Date, ticker: string, action: Action, price: real, shares: int, remaining: int)

  /** The ledger's final order: by date, then by ticker. */
  predicate DateTickerLe(a: Fill, b: Fill)
  {
    Before(a.date, b.date) || (a.date == b.date && StrLe(a.ticker, b.ticker))
  }

  /** The analysis scripts' order: by ticker, then by date. */
  predicate TickerDateLe(a: Fill, b: Fill)
  {
    (StrLe(a.ticker, b.ticker) && a.ticker != b.ticker) || (a.ticker == b.ticker && NotAfter(a.date, b.date))
  }

  /** The first bar of `ticker` on `date` in table order, as
      `daily_prices[daily_prices['Ticker'] == ticker].iloc[0]`. */
  function BarOn(prices: seq<Bar>, date: Date, ticker: string): (r: Option<Bar>)
    ensures r.Some? ==> r.value in prices && r.value.date == date && r.value.ticker == ticker
    ensures r.None? ==> forall b :: b in prices ==> !(b.date == date && b.ticker == ticker)
  {
    if prices == [] then None
    else if prices[0].date == date && prices[0].ticker == ticker then Some(prices[0])
    else BarOn(prices[1..], date, ticker)
  }
}
