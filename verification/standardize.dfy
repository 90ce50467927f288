/** Trade standardisation (Dash-App/app.py after the simulation loop, and
    a2_standardize_executed_trades.py): every ledger row is rescaled to a fixed dollar
    position size, signed by the direction of the cash flow, and labelled with its month. */
module Standardize {
  import opened Wrappers
  import opened Calendar
  import opened Trades

  /** The `Standardized_Multiplier` column of a row. `position_size / price` is a
      number, or infinite when the price is 0, or NaN when both are 0. */
  datatype Multiplier = NoMultiplier | Finite(m: real) | Unbounded

  /** The multiplier an Initial row gets from its own price. */
  function MultiplierOf(positionSize: real, price: real): (k: Multiplier)
    ensures price != 0.0 ==> k == Finite(positionSize / price)
    ensures price == 0.0 ==> !k.Finite?
  {
    if price != 0.0 then Finite(positionSize / price)
    else if positionSize == 0.0 then NoMultiplier
    else Unbounded
  }

  /** The multiplier a row sets before the forward fill: only Initial rows have one. */
  function OwnMultiplier(row: Fill, positionSize: real): Multiplier
  {
    if IsInitial(row.action) then MultiplierOf(positionSize, row.price) else NoMultiplier
  }

  /** `groupby('Ticker')[...].ffill()` read at the end of `rows`: the multiplier of
      the last row of ticker `t` that set one. */
  function LatestMultiplier(rows: seq<Fill>, t: string, positionSize: real): (k: Multiplier)
    ensures k != NoMultiplier ==>
      exists i :: 0 <= i < |rows| && rows[i].ticker == t && IsInitial(rows[i].action)
    decreases |rows|
  {
    if rows == [] then NoMultiplier
    else
      var last := rows[|rows| - 1];
      if last.ticker == t && OwnMultiplier(last, positionSize) != NoMultiplier then OwnMultiplier(last, positionSize)
      else LatestMultiplier(rows[..|rows| - 1], t, positionSize)
  }

  /** A row of the standardised table: the ledger row and the added columns.
      `value` is None where pandas holds NaN or an infinity. */
  datatype StdRow = StdRow(fill: Fill, multiplier: Multiplier, value: Option<real>, month: Option<string>)

  /** `Shares_Traded / 3` for the share counts the code knows. */
  function ShareFactor(shares: int): Option<real>
  {
    if shares == 1 then Some(1.0 / 3.0)
    else if shares == 2 then Some(2.0 / 3.0)
    else if shares == 3 then Some(1.0)
    else None
  }

  /** Cash leaves on a buy and comes in on a sell. */
  function Signed(a: Action, v: real): real
  {
    if IsBuyAction(a) then -v else v
  }

  /** `month_names` applied to the month number. */
  function MonthColumn(d: Date): (r: Option<string>)
    ensures 1 <= d.month <= 12 <==> r.Some?
    ensures r.Some? ==> r.value == MonthName(d)
  {
    if 1 <= d.month <= 12 then Some(MonthName(d)) else None
  }

  /** The standardised columns of one row under multiplier `k`. */
  function RowValue(row: Fill, k: Multiplier): (v: Option<real>)
    ensures v.Some? <==> k.Finite? && (IsInitial(row.action) || 1 <= row.shares <= 3)
  {
    if !k.Finite? then None
    else if IsInitial(row.action) then Some(Signed(row.action, k.m * row.price))
    else
      match ShareFactor(row.shares)
      case Some(f) => Some(Signed(row.action, k.m * row.price * f))
      case None => None
  }

  /** Row `i` of the standardised table. */
  function StandardizedRow(rows: seq<Fill>, i: int, positionSize: real): (r: StdRow)
    requires 0 <= i < |rows|
    ensures r.fill == rows[i] && (r.month.Some? <==> 1 <= rows[i].date.month <= 12)
    ensures r.value.Some? ==> r.multiplier.Finite?
  {
    var k := LatestMultiplier(rows[..i + 1], rows[i].ticker, positionSize);
    StdRow(rows[i], k, RowValue(rows[i], k), MonthColumn(rows[i].date))
  }

  /** The standardisation pass: one loop over the rows in table order, carrying the
      latest multiplier of each ticker (the forward fill) and writing each row's value. */
  method StandardizeRows(rows: seq<Fill>, positionSize: real) returns (out: seq<StdRow>)
    ensures |out| == |rows|
    ensures forall i :: 0 <= i < |rows| ==> out[i] == StandardizedRow(rows, i, positionSize)
  {
    var latest: map<string, Multiplier> := map[];
    out := [];
    for i := 0 to |rows|
      invariant |out| == i
      invariant forall j :: 0 <= j < i ==> out[j] == StandardizedRow(rows, j, positionSize)
      invariant forall t :: (if t in latest then latest[t] else NoMultiplier) == LatestMultiplier(rows[..i], t, positionSize)
    {
      var row := rows[i];
      var own := OwnMultiplier(row, positionSize);
      ghost var before := latest;
      if own != NoMultiplier {
        latest := latest[row.ticker := own];
      }
      forall t
        ensures (if t in latest then latest[t] else NoMultiplier) == LatestMultiplier(rows[..i + 1], t, positionSize)
      {
        LatestStep(rows, i, t, positionSize);
        if !(t == row.ticker && own != NoMultiplier) {
          assert (if t in latest then latest[t] else NoMultiplier) == (if t in before then before[t] else NoMultiplier);
        }
      }
      var k := if row.ticker in latest then latest[row.ticker] else NoMultiplier;
      out := out + [StdRow(row, k, RowValue(row, k), MonthColumn(row.date))];
    }
  }

  /** The forward fill of ticker `t` once row `i` is read, from the fill before it. */
  function LatestAfter(rows: seq<Fill>, i: int, t: string, positionSize: real): Multiplier
    requires 0 <= i < |rows|
  {
    if rows[i].ticker == t && OwnMultiplier(rows[i], positionSize) != NoMultiplier
    then OwnMultiplier(rows[i], positionSize)
    else LatestMultiplier(rows[..i], t, positionSize)
  }

  /** Reading one more row updates the forward fill of its own ticker only, and only
      when the row sets a multiplier. */
  lemma LatestStep(rows: seq<Fill>, i: int, t: string, positionSize: real)
    requires 0 <= i < |rows|
    ensures LatestMultiplier(rows[..i + 1], t, positionSize) == LatestAfter(rows, i, t, positionSize)
  {
    assert rows[..i + 1][..i] == rows[..i];
  }

  /** The simulator's standardisation step. A simulation that executed no trade
      leaves a ledger with no columns at all, and selecting its `Action` column
      raises instead of standardising nothing. */
  method StandardizeTrades(rows: seq<Fill>, positionSize: real) returns (out: Result<seq<StdRow>>)
    ensures out.Err? <==> rows == []
    ensures out.Ok? ==> |out.value| == |rows|
    ensures out.Ok? ==> forall i :: 0 <= i < |rows| ==> out.value[i] == StandardizedRow(rows, i, positionSize)
  {
    if rows == [] {
      return Err("KeyError: 'Action'");
    }
    var standardized := StandardizeRows(rows, positionSize);
    out := Ok(standardized);
  }

  /** a2_standardize_executed_trades.py: the same pass with $50 positions, over a
      ledger read back from its file, which keeps its columns even when empty. */
  method StandardizeExecutedTrades(rows: seq<Fill>) returns (out: seq<StdRow>)
    ensures |out| == |rows|
    ensures forall i :: 0 <= i < |rows| ==> out[i] == StandardizedRow(rows, i, 50.0)
  {
    out := StandardizeRows(rows, 50.0);
  }

  /** Between row `j` and the end of `rows`, ticker `t` has no Initial row. */
  predicate NoInitialAfter(rows: seq<Fill>, j: int, t: string)
    requires 0 <= j < |rows|
  {
    forall k :: j < k < |rows| ==> !(rows[k].ticker == t && IsInitial(rows[k].action))
  }

  lemma {:induction false} LatestIsLastInitial(rows: seq<Fill>, j: int, positionSize: real)
    requires 0 <= j < |rows| && IsInitial(rows[j].action) && rows[j].price != 0.0
    requires NoInitialAfter(rows, j, rows[j].ticker)
    ensures LatestMultiplier(rows, rows[j].ticker, positionSize) == Finite(positionSize / rows[j].price)
    decreases |rows|
  {
    var init := rows[..|rows| - 1];
    if j < |rows| - 1 {
      assert init[j] == rows[j];
      LatestIsLastInitial(init, j, positionSize);
    }
  }

  /** An Initial row is worth the whole position size: paid out for an Initial Buy,
      taken in for an Initial Short. */
  lemma InitialRowIsPositionSize(rows: seq<Fill>, i: int, positionSize: real)
    requires 0 <= i < |rows| && IsInitial(rows[i].action) && rows[i].price != 0.0
    ensures var v := StandardizedRow(rows, i, positionSize).value;
      v.Some? && v.value == (if rows[i].action == InitialBuy then -positionSize else positionSize)
  {
    var r := rows[..i + 1];
    assert r[i] == rows[i];
    LatestIsLastInitial(r, i, positionSize);
    var p := rows[i].price;
    var k := LatestMultiplier(r, rows[i].ticker, positionSize);
    assert k == Finite(positionSize / p);
    assert k.m * p == positionSize;
    assert RowValue(rows[i], k).value == Signed(rows[i].action, k.m * p);
  }

  /** A closing row is valued with the multiplier of the latest earlier Initial row of
      its ticker: its share of that position, at its own price, signed by direction. */
  lemma ClosingRowUsesLatestInitial(rows: seq<Fill>, i: int, j: int, positionSize: real)
    requires 0 <= j < i < |rows| && rows[j].ticker == rows[i].ticker
    requires IsInitial(rows[j].action) && rows[j].price != 0.0 && !IsInitial(rows[i].action)
    requires NoInitialAfter(rows[..i + 1], j, rows[i].ticker)
    ensures var r := StandardizedRow(rows, i, positionSize);
      var m := positionSize / rows[j].price;
      && r.multiplier == Finite(m)
      && (r.value.Some? <==> 1 <= rows[i].shares <= 3)
      && (r.value.Some? ==> r.value.value == Signed(rows[i].action, m * rows[i].price * (rows[i].shares as real / 3.0)))
  {
    var r := rows[..i + 1];
    assert r[j] == rows[j];
    LatestIsLastInitial(r, j, positionSize);
    var n := rows[i].shares;
    var m := positionSize / rows[j].price;
    var k := LatestMultiplier(r, rows[i].ticker, positionSize);
    assert k == Finite(m);
    if 1 <= n <= 3 {
      ShareFactorIsThirds(n);
      assert RowValue(rows[i], k).value == Signed(rows[i].action, m * rows[i].price * (n as real / 3.0));
    }
  }

  /** The share factor of 1, 2 or 3 shares is that many thirds of the position. */
  lemma ShareFactorIsThirds(n: int)
    requires 1 <= n <= 3
    ensures ShareFactor(n) == Some(n as real / 3.0)
  {
    if n == 1 {
      assert 1 as real / 3.0 == 1.0 / 3.0;
    } else if n == 2 {
      assert 2 as real / 3.0 == 2.0 / 3.0;
    } else {
      assert 3 as real / 3.0 == 1.0;
    }
  }

  /** A row with no Initial row of its ticker at or before it has no multiplier and no value. */
  lemma RowWithoutInitialHasNoValue(rows: seq<Fill>, i: int, positionSize: real)
    requires 0 <= i < |rows|
    requires forall k :: 0 <= k <= i ==> !(rows[k].ticker == rows[i].ticker && IsInitial(rows[k].action))
    ensures StandardizedRow(rows, i, positionSize).multiplier == NoMultiplier
    ensures StandardizedRow(rows, i, positionSize).value == None
  {
    var r := rows[..i + 1];
    forall k | 0 <= k < |r| ensures !(r[k].ticker == rows[i].ticker && IsInitial(r[k].action)) {
      assert r[k] == rows[k];
    }
  }

  lemma {:induction false} LatestIsPositive(rows: seq<Fill>, t: string, positionSize: real)
    requires positionSize > 0.0 && forall k :: 0 <= k < |rows| ==> rows[k].price > 0.0
    ensures LatestMultiplier(rows, t, positionSize).Finite? ==> LatestMultiplier(rows, t, positionSize).m > 0.0
    decreases |rows|
  {
    if rows != [] {
      LatestIsPositive(rows[..|rows| - 1], t, positionSize);
    }
  }

  /** With positive prices and position size, the sign of a value tells the direction
      of the cash flow: negative exactly for the buy-type actions. */
  lemma ValueSignFollowsCashFlow(rows: seq<Fill>, i: int, positionSize: real)
    requires 0 <= i < |rows| && positionSize > 0.0
    requires forall k :: 0 <= k < |rows| ==> rows[k].price > 0.0
    ensures var v := StandardizedRow(rows, i, positionSize).value;
      v.Some? ==> (v.value < 0.0 <==> IsBuyAction(rows[i].action)) && v.value != 0.0
  {
    var r := rows[..i + 1];
    LatestIsPositive(r, rows[i].ticker, positionSize);
    var k := LatestMultiplier(r, rows[i].ticker, positionSize);
    if k.Finite? {
      var base := k.m * rows[i].price;
      assert base > 0.0;
      EveryActionIsBuyXorSell(rows[i].action);
    }
  }
}
