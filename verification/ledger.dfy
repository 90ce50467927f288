/** The share bookkeeping the executed-trade ledger carries: every row records the
    shares traded and the shares still held afterwards, ticker by ticker. */
module Ledger {
  import opened Trades
  import opened Sorting

  function OnTicker(t: string): Fill -> bool
  {
    (f: Fill) => f.ticker == t
  }

  /** The ledger rows of one ticker, in ledger order. */
  function TickerFills(log: seq<Fill>, t: string): (r: seq<Fill>)
    ensures forall f :: f in r ==> f in log && f.ticker == t
  {
    FilterMembers(log, OnTicker(t));
    Filter(log, OnTicker(t))
  }

  /** One row is consistent with `held` shares before it: an initial entry of three
      shares when nothing is held, or a closing trade of at least one held share
      whose `remaining` column is what is left. */
  predicate StepOk(held: int, f: Fill)
  {
    if IsInitial(f.action) then held == 0 && f.shares == 3 && f.remaining == 3
    else 0 < held && 1 <= f.shares <= held && f.remaining == held - f.shares
  }

  /** The shares held after `fills`, starting from `held`. */
  function HeldAfter(held: int, fills: seq<Fill>): int
  {
    if fills == [] then held else fills[|fills| - 1].remaining
  }

  /** The shares held just before row `i` of `fills`. */
  function HeldBefore(held: int, fills: seq<Fill>, i: int): int
    requires 0 <= i <= |fills|
  {
    HeldAfter(held, fills[..i])
  }

  /** Each row of `fills` is consistent with the shares left by the row before it. */
  predicate ChainsFrom(held: int, fills: seq<Fill>)
  {
    forall i :: 0 <= i < |fills| ==> StepOk(HeldBefore(held, fills, i), fills[i])
  }

  lemma {:induction false} ChainsFromAppend(held: int, a: seq<Fill>, b: seq<Fill>)
    requires ChainsFrom(held, a) && ChainsFrom(HeldAfter(held, a), b)
    ensures ChainsFrom(held, a + b)
    ensures HeldAfter(held, a + b) == HeldAfter(HeldAfter(held, a), b)
  {
    var ab := a + b;
    forall i | 0 <= i < |ab|
      ensures StepOk(HeldBefore(held, ab, i), ab[i])
    {
      if i < |a| {
        assert ab[..i] == a[..i];
        assert ab[i] == a[i];
        assert StepOk(HeldBefore(held, a, i), a[i]);
      } else {
        var j := i - |a|;
        assert ab[i] == b[j];
        assert ab[..i] == a + b[..j];
        assert StepOk(HeldBefore(HeldAfter(held, a), b, j), b[j]);
      }
    }
  }

  /** Every ticker's rows form one unbroken chain from an empty holding. */
  ghost predicate LedgerChained(log: seq<Fill>)
  {
    forall t :: ChainsFrom(0, TickerFills(log, t))
  }
}
