/** An open position and what one day's bar does to it: the stop-loss check first,
    then the profit targets PT1, PT2, PT3 as guarded steps that can cascade within
    one bar (Dash-App/app.py, exit pass of `trading_simulation`). */
module Positions {
  import opened Wrappers
  import opened Calendar
  import opened Trades
  import opened Ledger

  /** The entry in `open_positions`. The setup row is kept with it (the source keeps its index). */
  datatype Position = Position(
    setup: Setup,
    side: Side,
    sharesOpen: int,
    pt1Reached: bool,
    pt2Reached: bool,
    pt3Reached: bool,
    entryPrice: real,
    stop: Option<real>)

  /** The entry band test on a close price; the band is swapped for shorts. */
  predicate InBand(setup: Setup, side: Side, close: Option<real>)
  {
    match side
    case Long => Le(setup.enterFrom, close) && Le(close, setup.enterTo)
    case Short => Le(setup.enterTo, close) && Le(close, setup.enterFrom)
  }

  function Target(setup: Setup, k: int): Option<real>
    requires 1 <= k <= 3
  {
    if k == 1 then setup.pt1 else if k == 2 then setup.pt2 else setup.pt3
  }

  function TargetAction(side: Side, k: int): Action
    requires 1 <= k <= 3
  {
    match side
    case Long => if k == 1 then PT1Sell else if k == 2 then PT2Sell else PT3Sell
    case Short => if k == 1 then PT1Buy else if k == 2 then PT2Buy else PT3Buy
  }

  function StopAction(side: Side): Action
  {
    match side
    case Long => StopLossSell
    case Short => StopLossBuy
  }

  /** The stop in force while `shares` of the three remain open: the setup's stop,
      then the entry price after PT1, then PT1's price after PT2. */
  function StopFor(setup: Setup, entryPrice: real, shares: int): Option<real>
  {
    if shares == 3 then setup.stoploss
    else if shares == 2 then Some(entryPrice)
    else setup.pt1
  }

  /** What holds of every entry of `open_positions` between two steps. */
  predicate PositionValid(p: Position)
  {
    && 1 <= p.sharesOpen <= 3
    && (p.pt1Reached <==> p.sharesOpen <= 2)
    && (p.pt2Reached <==> p.sharesOpen <= 1)
    && !p.pt3Reached
    && SideOf(p.setup.trade) == Some(p.side)
    && InBand(p.setup, p.side, Some(p.entryPrice))
    && p.stop == StopFor(p.setup, p.entryPrice, p.sharesOpen)
  }

  /** A fresh three-share position opened at `close`. */
  function Open(setup: Setup, side: Side, close: real): (p: Position)
    requires SideOf(setup.trade) == Some(side) && InBand(setup, side, Some(close))
    ensures PositionValid(p) && p.sharesOpen == 3 && p.stop == setup.stoploss
  {
    Position(setup, side, 3, false, false, false, close, setup.stoploss)
  }

  /** Long: the low reaches down to the stop. Short: the high reaches up to it. */
  predicate StopHit(p: Position, bar: Bar)
  {
    match p.side
    case Long => Le(bar.low, p.stop)
    case Short => Le(p.stop, bar.high)
  }

  /** Long: the high reaches up to the target. Short: the low reaches down to it. */
  predicate Touched(side: Side, bar: Bar, target: Option<real>)
  {
    match side
    case Long => Le(target, bar.high)
    case Short => Le(bar.low, target)
  }

  function TargetFill(date: Date, ticker: string, p: Position, k: int): Fill
    requires 1 <= k <= 3 && Target(p.setup, k).Some?
  {
    Fill(date, ticker, TargetAction(p.side, k), Target(p.setup, k).value, 1, 3 - k)
  }

  /** The number of the next profit target of a position (1, 2 or 3). */
  function NextTarget(p: Position): int
  {
    4 - p.sharesOpen
  }

  /** The profit-target fills `fills` walk the targets in order from `NextTarget(p)`,
      each closing one share at a target the bar touched. */
  predicate TargetCascade(date: Date, ticker: string, p: Position, bar: Bar, fills: seq<Fill>)
    requires PositionValid(p)
  {
    && |fills| <= p.sharesOpen
    && forall i :: 0 <= i < |fills| ==>
         var k := NextTarget(p) + i;
         Touched(p.side, bar, Target(p.setup, k)) && fills[i] == TargetFill(date, ticker, p, k)
  }

  /** One ticker's exit check for one bar: the fills it records and the position
      left open (None once it is deleted). */
  function ExitStep(date: Date, ticker: string, p: Position, bar: Bar): (r: (seq<Fill>, Option<Position>))
    requires PositionValid(p)
    // stop-loss takes precedence: one fill for every open share, at the stop, and no profit taking
    ensures StopHit(p, bar) ==>
      r.0 == [Fill(date, ticker, StopAction(p.side), p.stop.value, p.sharesOpen, 0)] && r.1.None?
    // otherwise the targets cascade in order while the bar touches them
    ensures !StopHit(p, bar) ==> TargetCascade(date, ticker, p, bar, r.0)
    ensures !StopHit(p, bar) && r.1.Some? ==>
      |r.0| < p.sharesOpen && !Touched(p.side, bar, Target(p.setup, NextTarget(p) + |r.0|))
    ensures !StopHit(p, bar) && r.1.None? ==> |r.0| == p.sharesOpen
    // what stays open is a valid position of the same setup with the closed shares removed
    ensures r.1.Some? ==>
      var q := r.1.value;
      PositionValid(q) && q.setup == p.setup && q.side == p.side && q.entryPrice == p.entryPrice
      && q.sharesOpen == p.sharesOpen - |r.0|
    ensures r.1.None? ==> |r.0| > 0 && r.0[|r.0| - 1].remaining == 0
  {
    if StopHit(p, bar) then
      ([Fill(date, ticker, StopAction(p.side), p.stop.value, p.sharesOpen, 0)], None)
    else
      var s := p.setup;
      var hit1 := !p.pt1Reached && p.sharesOpen == 3 && Touched(p.side, bar, s.pt1);
      var f1 := if hit1 then [TargetFill(date, ticker, p, 1)] else [];
      var q1 := if hit1 then p.(sharesOpen := 2, pt1Reached := true, stop := Some(p.entryPrice)) else p;
      var hit2 := !q1.pt2Reached && q1.sharesOpen == 2 && Touched(p.side, bar, s.pt2);
      var f2 := if hit2 then f1 + [TargetFill(date, ticker, p, 2)] else f1;
      var q2 := if hit2 then q1.(sharesOpen := 1, pt2Reached := true, stop := s.pt1) else q1;
      var hit3 := !q2.pt3Reached && q2.sharesOpen == 1 && Touched(p.side, bar, s.pt3);
      assert hit1 ==> NextTarget(p) == 1;
      assert hit2 ==> NextTarget(p) + |f1| == 2;
      assert hit3 ==> NextTarget(p) + |f2| == 3;
      assert f1 == [] || f1 == [TargetFill(date, ticker, p, 1)];
      assert forall i :: 0 <= i < |f2| ==> f2[i] == TargetFill(date, ticker, p, NextTarget(p) + i);
      if hit3 then (f2 + [TargetFill(date, ticker, p, 3)], None) else (f2, Some(q2))
  }

  /** The exit check as the source runs it: a local share counter and in-place
      updates of the position's fields, one guarded step after another. */
  method ManagePosition(date: Date, ticker: string, p: Position, bar: Bar)
    returns (fills: seq<Fill>, next: Option<Position>)
    requires PositionValid(p)
    ensures (fills, next) == ExitStep(date, ticker, p, bar)
  {
    var pos := p;
    var shares := p.sharesOpen;
    fills := [];
    if p.side == Short {
      if Le(pos.stop, bar.high) {
        return [Fill(date, ticker, StopLossBuy, pos.stop.value, shares, 0)], None;
      }
    } else {
      if Le(bar.low, pos.stop) {
        return [Fill(date, ticker, StopLossSell, pos.stop.value, shares, 0)], None;
      }
    }
    assert !StopHit(p, bar);
    var s := pos.setup;
    ghost var hit1 := !p.pt1Reached && p.sharesOpen == 3 && Touched(p.side, bar, s.pt1);
    if !pos.pt1Reached && shares == 3 && Touched(p.side, bar, s.pt1) {
      fills := fills + [Fill(date, ticker, TargetAction(p.side, 1), s.pt1.value, 1, 2)];
      pos := pos.(sharesOpen := 2, pt1Reached := true, stop := Some(pos.entryPrice));
      shares := 2;
    }
    assert shares == pos.sharesOpen;
    assert pos == if hit1 then p.(sharesOpen := 2, pt1Reached := true, stop := Some(p.entryPrice)) else p;
    assert fills == if hit1 then [TargetFill(date, ticker, p, 1)] else [];
    ghost var f1, q1 := fills, pos;
    ghost var hit2 := !q1.pt2Reached && q1.sharesOpen == 2 && Touched(p.side, bar, s.pt2);
    if !pos.pt2Reached && shares == 2 && Touched(p.side, bar, s.pt2) {
      fills := fills + [Fill(date, ticker, TargetAction(p.side, 2), s.pt2.value, 1, 1)];
      pos := pos.(sharesOpen := 1, pt2Reached := true, stop := s.pt1);
      shares := 1;
    }
    assert shares == pos.sharesOpen;
    assert pos == if hit2 then q1.(sharesOpen := 1, pt2Reached := true, stop := s.pt1) else q1;
    assert fills == if hit2 then f1 + [TargetFill(date, ticker, p, 2)] else f1;
    if !pos.pt3Reached && shares == 1 && Touched(p.side, bar, s.pt3) {
      fills := fills + [Fill(date, ticker, TargetAction(p.side, 3), s.pt3.value, 1, 0)];
      return fills, None;
    }
    return fills, Some(pos);
  }

  /** A setup whose prices are in the order its direction expects. */
  predicate OrderedSetup(setup: Setup, side: Side)
  {
    && setup.stoploss.Some? && setup.enterFrom.Some? && setup.enterTo.Some? && setup.pt1.Some?
    && match side
       case Long =>
         setup.stoploss.value <= setup.enterFrom.value && setup.enterTo.value <= setup.pt1.value
       case Short =>
         setup.enterFrom.value <= setup.stoploss.value && setup.pt1.value <= setup.enterTo.value
  }

  /** The trailing stop only ever moves in the position's favour: up for a long,
      down for a short, as long as the setup's prices are ordered. */
  lemma StopOnlyTightens(date: Date, ticker: string, p: Position, bar: Bar)
    requires PositionValid(p) && OrderedSetup(p.setup, p.side)
    ensures var q := ExitStep(date, ticker, p, bar).1;
      q.Some? ==> (q.value.stop.Some? && p.stop.Some? &&
        match p.side
        case Long => p.stop.value <= q.value.stop.value
        case Short => q.value.stop.value <= p.stop.value)
  {
  }

  /** Target fills continue the ledger from the shares open: each closes one share. */
  lemma CascadeChains(date: Date, ticker: string, p: Position, bar: Bar, fills: seq<Fill>)
    requires PositionValid(p) && TargetCascade(date, ticker, p, bar, fills)
    ensures ChainsFrom(p.sharesOpen, fills)
    ensures HeldAfter(p.sharesOpen, fills) == p.sharesOpen - |fills|
    ensures forall i :: 0 <= i < |fills| ==> fills[i].ticker == ticker && fills[i].date == date
  {
    var h := p.sharesOpen;
    forall i | 0 <= i < |fills| ensures StepOk(HeldBefore(h, fills, i), fills[i]) {
      var k := NextTarget(p) + i;
      var f := fills[i];
      assert Touched(p.side, bar, Target(p.setup, k)) && f == TargetFill(date, ticker, p, k);
      if 0 < i {
        var g := fills[i - 1];
        assert Touched(p.side, bar, Target(p.setup, k - 1)) && g == TargetFill(date, ticker, p, k - 1);
        assert HeldBefore(h, fills, i) == fills[i - 1].remaining;
      }
      assert HeldBefore(h, fills, i) == h - i;
    }
    forall i | 0 <= i < |fills| ensures fills[i].ticker == ticker && fills[i].date == date {
      var f := fills[i];
      assert f == TargetFill(date, ticker, p, NextTarget(p) + i);
    }
    if fills != [] {
      var n := |fills| - 1;
      var f := fills[n];
      assert Touched(p.side, bar, Target(p.setup, NextTarget(p) + n)) && f == TargetFill(date, ticker, p, NextTarget(p) + n);
    }
  }

  /** The rows one exit check writes continue the ticker's ledger: each closes held
      shares, and what the last row leaves is what stays open. */
  lemma ExitStepChains(date: Date, ticker: string, p: Position, bar: Bar)
    requires PositionValid(p)
    ensures var r := ExitStep(date, ticker, p, bar);
      && ChainsFrom(p.sharesOpen, r.0)
      && HeldAfter(p.sharesOpen, r.0) == (if r.1.Some? then r.1.value.sharesOpen else 0)
      && forall i :: 0 <= i < |r.0| ==> r.0[i].ticker == ticker && r.0[i].date == date
  {
    var r := ExitStep(date, ticker, p, bar);
    if StopHit(p, bar) {
      assert HeldBefore(p.sharesOpen, r.0, 0) == p.sharesOpen;
    } else {
      CascadeChains(date, ticker, p, bar, r.0);
    }
  }
}
