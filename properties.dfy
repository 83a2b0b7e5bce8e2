/** What the backtest promises about its output: the compounding rules,
    the buy-and-hold curve, the event rules, and the flat and rising
    scenarios. */
module Properties {
  import opened Series
  import opened Backtest

  /** The report of a non-empty series (the backtest only fails on an empty one). */
  function ReportOf(close: seq<real>, shortWindow: nat, longWindow: nat): Report
    requires Positive(close) && shortWindow >= 1 && longWindow >= 1 && |close| > 0
  {
    BackTest(close, shortWindow, longWindow).value
  }

  predicate StrictlyIncreasing(close: seq<real>)
  {
    forall i, j :: 0 <= i < j < |close| ==> close[i] < close[j]
  }

  /** How the report is assembled from the column functions. */
  lemma ReportShape(close: seq<real>, shortWindow: nat, longWindow: nat)
    requires Positive(close) && shortWindow >= 1 && longWindow >= 1 && |close| > 0
    ensures var rep := ReportOf(close, shortWindow, longWindow);
      && rep.frame.close == close
      && rep.frame.smaShort == Sma(close, shortWindow)
      && rep.frame.smaLong == Sma(close, longWindow)
      && rep.frame.signal == SignalColumn(rep.frame.smaShort, rep.frame.smaLong)
      && rep.frame.position == Shift(rep.frame.signal)
      && rep.frame.marketReturns == PctChange(close)
      && rep.frame.strategyReturns == StrategyReturns(rep.frame.position, rep.frame.marketReturns)
      && rep.cumulativeStrategy == CumProd(Growth(rep.frame.strategyReturns))
      && rep.cumulativeMarket == CumProd(Growth(rep.frame.marketReturns))
      && TotalReturn(rep.cumulativeStrategy) == Ok(rep.totalReturn)
      && rep.buySignals == Events(rep.frame.position, 1)
      && rep.sellSignals == Events(rep.frame.position, -1)
  {
  }

  // ------------------------------------------------------- SMA, Signal

  /** The trailing rolling mean: a cell exists exactly once `w` closes are
      available, and it is then the mean of the last `w` closes (times `w`
      it gives back their sum). */
  lemma SmaCells(close: seq<real>, w: nat, i: nat)
    requires w >= 1 && i < |close|
    ensures Sma(close, w)[i].Some? <==> i + 1 >= w
    ensures Sma(close, w)[i].Some? ==> Sma(close, w)[i].value * w as real == Sum(close[i + 1 - w..i + 1])
  {
    assert Sma(close, w)[i] == WindowMean(close, w, i);
  }

  /** Once both windows are full, the crossover is decided on the window
      sums cross-multiplied by the window sizes, without dividing. */
  lemma CrossoverBySums(close: seq<real>, shortWindow: nat, longWindow: nat, i: nat)
    requires shortWindow >= 1 && longWindow >= 1 && i < |close|
    requires i + 1 >= shortWindow && i + 1 >= longWindow
    ensures var s, l := Sum(close[i + 1 - shortWindow..i + 1]), Sum(close[i + 1 - longWindow..i + 1]);
      var c := Crossover(WindowMean(close, shortWindow, i), WindowMean(close, longWindow, i));
      && (c == 1 <==> s * longWindow as real > l * shortWindow as real)
      && (c == -1 <==> s * longWindow as real < l * shortWindow as real)
  {
    var s, l := Sum(close[i + 1 - shortWindow..i + 1]), Sum(close[i + 1 - longWindow..i + 1]);
    MeanComparison(s, shortWindow as real, l, longWindow as real);
  }

  /** Signal and Position only take the values -1, 0 and 1; the signal is
      1 exactly when both averages exist and the short one is above, -1
      exactly when both exist and it is below; the position is the signal
      of the row before, 0 in row 0. */
  lemma SignalRules(close: seq<real>, shortWindow: nat, longWindow: nat)
    requires Positive(close) && shortWindow >= 1 && longWindow >= 1 && |close| > 0
    ensures var f := ReportOf(close, shortWindow, longWindow).frame;
      && (forall i :: 0 <= i < |close| ==> -1 <= f.signal[i] <= 1 && -1 <= f.position[i] <= 1)
      && (forall i :: 0 <= i < |close| ==> (f.signal[i] == 1 <==> Above(f.smaShort[i], f.smaLong[i])))
      && (forall i :: 0 <= i < |close| ==> (f.signal[i] == -1 <==> Below(f.smaShort[i], f.smaLong[i])))
      && (forall i :: 0 <= i < |close| ==> (f.signal[i] == 0 <==> !Above(f.smaShort[i], f.smaLong[i]) && !Below(f.smaShort[i], f.smaLong[i])))
      && f.position[0] == 0
      && (forall i :: 1 <= i < |close| ==> f.position[i] == f.signal[i - 1])
  {
    ReportShape(close, shortWindow, longWindow);
    var f := ReportOf(close, shortWindow, longWindow).frame;
    forall i | 0 <= i < |close|
      ensures f.signal[i] == Crossover(f.smaShort[i], f.smaLong[i])
    {
    }
  }

  // -------------------------------------------------------- Compounding

  /** One `cumprod` step: a defined cell multiplies the product of every
      defined cell before it. */
  lemma CumProdStep(s: seq<Option<real>>, i: nat)
    requires i < |s| && s[i].Some?
    ensures CumProd(s)[i].Some? && CumProd(s)[i].value == DefinedProduct(s[..i]) * s[i].value
  {
    DefinedProductStep(s, i);
  }

  /** Extending a prefix by one defined cell multiplies its product by that cell. */
  lemma DefinedProductStep(s: seq<Option<real>>, i: nat)
    requires i < |s| && s[i].Some?
    ensures DefinedProduct(s[..i + 1]) == DefinedProduct(s[..i]) * s[i].value
  {
    var t := s[..i + 1];
    assert t[..|t| - 1] == s[..i];
    assert t[|t| - 1] == s[i];
  }

  /** Cells that are all NaN or 1 have defined product 1. */
  lemma {:induction false} DefinedProductOfOnes(s: seq<Option<real>>)
    requires forall i :: 0 <= i < |s| ==> s[i] == None || s[i] == Some(1.0)
    ensures DefinedProduct(s) == 1.0
  {
    if |s| > 0 {
      DefinedProductOfOnes(s[..|s| - 1]);
    }
  }

  /** The factors `1 + rets[k]` of rows 1 through i. */
  function GrowthFactors(rets: seq<Option<real>>, i: nat): seq<real>
    requires i < |rets|
    requires forall k :: 1 <= k <= i ==> rets[k].Some?
  {
    seq(i, j requires 0 <= j < i => 1.0 + rets[j + 1].value)
  }

  /** A column of returns that is NaN in row 0 only compounds, row by row,
      into the product of its growth factors. */
  lemma {:induction false} CompoundedFromRowOne(rets: seq<Option<real>>, i: nat)
    requires 1 <= i < |rets| && rets[0].None?
    requires forall k :: 1 <= k < |rets| ==> rets[k].Some?
    ensures CumProd(Growth(rets))[i].Some?
    ensures CumProd(Growth(rets))[i].value == Product(GrowthFactors(rets, i))
  {
    var g := Growth(rets);
    var f := GrowthFactors(rets, i);
    CumProdStep(g, i);
    assert g[i].value == 1.0 + rets[i].value == f[i - 1];
    assert |f| == i && Product(f) == Product(f[..i - 1]) * f[i - 1];
    if i == 1 {
      assert g[..1][..0] == [] && f[..0] == [];
      assert DefinedProduct(g[..i]) == 1.0;
    } else {
      CompoundedFromRowOne(rets, i - 1);
      assert f[..i - 1] == GrowthFactors(rets, i - 1);
      assert g[i - 1].Some?;
      assert CumProd(g)[i - 1].value == DefinedProduct(g[..i]);
    }
    assert DefinedProduct(g[..i]) == Product(f[..i - 1]);
  }

  /** Only row 0 of the strategy returns is NaN. */
  lemma StrategyDefinedFromRowOne(close: seq<real>, shortWindow: nat, longWindow: nat)
    requires Positive(close) && shortWindow >= 1 && longWindow >= 1 && |close| > 0
    ensures var s := ReportOf(close, shortWindow, longWindow).frame.strategyReturns;
      s[0].None? && forall k :: 1 <= k < |close| ==> s[k].Some?
  {
    ReportShape(close, shortWindow, longWindow);
    var f := ReportOf(close, shortWindow, longWindow).frame;
    assert f.strategyReturns[0] == Scale(f.position[0], f.marketReturns[0]);
    forall k | 1 <= k < |close| ensures f.strategyReturns[k].Some? {
      assert f.strategyReturns[k] == Scale(f.position[k], f.marketReturns[k]);
    }
  }

  /** The strategy return is NaN in row 0 only, the position times the
      market return after it, and so 0 wherever the position is flat. */
  lemma StrategyReturnCells(close: seq<real>, shortWindow: nat, longWindow: nat)
    requires Positive(close) && shortWindow >= 1 && longWindow >= 1 && |close| > 0
    ensures var f := ReportOf(close, shortWindow, longWindow).frame;
      && f.strategyReturns[0] == None
      && (forall k :: 1 <= k < |close| ==>
            f.marketReturns[k].Some? && f.strategyReturns[k] == Some(f.position[k] as real * f.marketReturns[k].value))
      && (forall k :: 1 <= k < |close| && f.position[k] == 0 ==> f.strategyReturns[k] == Some(0.0))
  {
    ReportShape(close, shortWindow, longWindow);
    var f := ReportOf(close, shortWindow, longWindow).frame;
    assert f.strategyReturns[0] == Scale(f.position[0], f.marketReturns[0]);
    forall k | 1 <= k < |close|
      ensures f.marketReturns[k].Some? && f.strategyReturns[k] == Some(f.position[k] as real * f.marketReturns[k].value)
    {
      assert f.strategyReturns[k] == Scale(f.position[k], f.marketReturns[k]);
    }
  }

  /** Re-compounding the strategy returns of rows 1 through i gives the
      reported cumulative strategy value of row i; row 0 is NaN. */
  lemma StrategyCompounding(close: seq<real>, shortWindow: nat, longWindow: nat, i: nat)
    requires Positive(close) && shortWindow >= 1 && longWindow >= 1
    requires 1 <= i < |close|
    ensures var rep := ReportOf(close, shortWindow, longWindow);
      && rep.cumulativeStrategy[0] == None
      && (forall k :: 1 <= k < |close| ==> rep.frame.strategyReturns[k].Some?)
      && rep.cumulativeStrategy[i].Some?
      && rep.cumulativeStrategy[i].value == Product(GrowthFactors(rep.frame.strategyReturns, i))
  {
    ReportShape(close, shortWindow, longWindow);
    StrategyDefinedFromRowOne(close, shortWindow, longWindow);
    var rep := ReportOf(close, shortWindow, longWindow);
    CompoundedFromRowOne(rep.frame.strategyReturns, i);
  }

  /** One step of compounding a column that is NaN in row 0 only: row 1
      starts from 1, every later row multiplies the previous value by
      `1 + return`. */
  lemma CompoundingStep(rets: seq<Option<real>>, cum: seq<Option<real>>, i: nat)
    requires 1 <= i < |rets| && rets[0].None?
    requires forall k :: 1 <= k < |rets| ==> rets[k].Some?
    requires cum == CumProd(Growth(rets))
    ensures cum[i].Some?
    ensures i == 1 ==> cum[i].value == 1.0 + rets[i].value
    ensures i > 1 ==> cum[i - 1].Some? && cum[i].value == cum[i - 1].value * (1.0 + rets[i].value)
  {
    var g := Growth(rets);
    CumProdStep(g, i);
    assert g[i].value == 1.0 + rets[i].value;
    if i == 1 {
      assert g[..1][..0] == [];
      assert DefinedProduct(g[..1]) == 1.0;
    } else {
      assert g[i - 1].Some?;
      assert CumProd(g)[i - 1].value == DefinedProduct(g[..i]);
    }
  }

  /** For at least two rows, the total return is the product of
      `1 + strategy return` over rows 1 onwards, minus 1. */
  lemma TotalReturnIsProduct(close: seq<real>, shortWindow: nat, longWindow: nat)
    requires Positive(close) && shortWindow >= 1 && longWindow >= 1
    requires |close| >= 2
    ensures var rep := ReportOf(close, shortWindow, longWindow);
      && (forall k :: 1 <= k < |close| ==> rep.frame.strategyReturns[k].Some?)
      && rep.totalReturn.Some?
      && rep.totalReturn.value == Product(GrowthFactors(rep.frame.strategyReturns, |close| - 1)) - 1.0
  {
    ReportShape(close, shortWindow, longWindow);
    StrategyCompounding(close, shortWindow, longWindow, |close| - 1);
  }

  /** A relative change `q` from `a` to `c`, applied to the growth a / b
      so far, gives the growth c / b. */
  lemma GrowthTelescopes(a: real, b: real, c: real, q: real)
    requires a > 0.0 && b > 0.0 && q * a == c - a
    ensures (a / b) * (1.0 + q) == c / b
  {
    var r, u, w := c / a, a / b, c / b;
    assert r * a == c;
    assert (1.0 + q) * a == c;
    MulCancel(1.0 + q, r, a);
    assert u * b == a && w * b == c;
    assert (u * r) * b == r * a;
    MulCancel(u * r, w, b);
    assert u * (1.0 + q) == u * r;
  }

  /** A market return is the relative change: times the previous close it
      is the difference of the two closes. */
  lemma PctChangeIsRelative(close: seq<real>, i: nat)
    requires Positive(close) && 1 <= i < |close|
    ensures PctChange(close)[i].value * close[i - 1] == close[i] - close[i - 1]
  {
    var q := (close[i] - close[i - 1]) / close[i - 1];
    assert PctChange(close)[i] == Some(q);
  }

  lemma {:induction false} MarketGrowth(close: seq<real>, i: nat)
    requires Positive(close) && i < |close|
    ensures DefinedProduct(Growth(PctChange(close))[..i + 1]) == close[i] / close[0]
  {
    var m := PctChange(close);
    var g := Growth(m);
    if i == 0 {
      assert DefinedProduct(g[..1]) == DefinedProduct(g[..1][..0]) * 1.0;
    } else {
      MarketGrowth(close, i - 1);
      assert g[i] == Some(1.0 + m[i].value);
      DefinedProductStep(g, i);
      PctChangeIsRelative(close, i);
      GrowthTelescopes(close[i - 1], close[0], close[i], m[i].value);
    }
  }

  /** The buy-and-hold curve is the price relative to the first close. */
  lemma BuyAndHoldTelescopes(close: seq<real>, shortWindow: nat, longWindow: nat, i: nat)
    requires Positive(close) && shortWindow >= 1 && longWindow >= 1
    requires 1 <= i < |close|
    ensures ReportOf(close, shortWindow, longWindow).cumulativeMarket[i].Some?
    ensures ReportOf(close, shortWindow, longWindow).cumulativeMarket[i].value == close[i] / close[0]
  {
    MarketGrowth(close, i);
  }

  // ------------------------------------------------------------- Events

  /** A row the event selection returns is an event row. */
  lemma EventMember(p: seq<int>, target: int, n: nat, i: int)
    requires n <= |p| && i in EventsUpTo(p, target, n)
    ensures 0 <= i < n && IsEvent(p, target, i)
  {
    var e := EventsUpTo(p, target, n);
    var j :| 0 <= j < |e| && e[j] == i;
  }

  /** The rows the event selection (position equal to `target`, lagged
      position not) picks from a position column that starts flat: exactly
      the transitions into `target`, in increasing order, never row 0. */
  lemma EventsAreTransitions(p: seq<int>, target: int)
    requires target != 0 && |p| > 0 && p[0] == 0
    ensures forall i :: 0 <= i < |p| ==> (i in Events(p, target) <==> p[i] == target && (i == 0 || p[i - 1] != target))
    ensures forall i :: i in Events(p, target) ==> 0 < i < |p| && p[i] == target && p[i - 1] != target
    ensures forall j, l :: 0 <= j < l < |Events(p, target)| ==> Events(p, target)[j] < Events(p, target)[l]
  {
    var e := Events(p, target);
    forall i | 0 <= i < |p|
      ensures i in e <==> IsEvent(p, target, i)
    {
      if i in e {
        EventMember(p, target, |p|, i);
      }
    }
    forall i | i in e
      ensures 0 < i < |p| && p[i] == target && p[i - 1] != target
    {
      EventMember(p, target, |p|, i);
    }
  }

  /** Buy and sell rows are exactly the position transitions into 1 and into
      -1; they are increasing, never shared, never row 0, and each one
      changes the position. */
  lemma EventRules(close: seq<real>, shortWindow: nat, longWindow: nat)
    requires Positive(close) && shortWindow >= 1 && longWindow >= 1 && |close| > 0
    ensures var rep := ReportOf(close, shortWindow, longWindow);
      var p := rep.frame.position;
      && (forall i :: 0 <= i < |close| ==> (i in rep.buySignals <==> p[i] == 1 && (i == 0 || p[i - 1] != 1)))
      && (forall i :: 0 <= i < |close| ==> (i in rep.sellSignals <==> p[i] == -1 && (i == 0 || p[i - 1] != -1)))
      && (forall i :: i in rep.buySignals ==> i !in rep.sellSignals)
      && (forall i :: i in rep.buySignals ==> 0 < i < |close| && p[i] != p[i - 1])
      && (forall i :: i in rep.sellSignals ==> 0 < i < |close| && p[i] != p[i - 1])
      && (forall j, l :: 0 <= j < l < |rep.buySignals| ==> rep.buySignals[j] < rep.buySignals[l])
      && (forall j, l :: 0 <= j < l < |rep.sellSignals| ==> rep.sellSignals[j] < rep.sellSignals[l])
  {
    ReportShape(close, shortWindow, longWindow);
    var p := ReportOf(close, shortWindow, longWindow).frame.position;
    EventsAreTransitions(p, 1);
    EventsAreTransitions(p, -1);
  }

  // ----------------------------------------------------- Flat scenarios

  /** A flat position earns nothing: every defined market return becomes a
      strategy return of 0, and NaN stays NaN. */
  lemma FlatStrategyReturns(position: seq<int>, market: seq<Option<real>>)
    requires |position| == |market|
    requires forall i :: 0 <= i < |position| ==> position[i] == 0
    ensures forall i :: 0 <= i < |market| ==>
      StrategyReturns(position, market)[i] == if market[i].None? then None else Some(0.0)
  {
    var s := StrategyReturns(position, market);
    forall i | 0 <= i < |market|
      ensures s[i] == if market[i].None? then None else Some(0.0)
    {
      assert s[i] == Scale(position[i], market[i]);
    }
  }

  /** Returns that are NaN in row 0 and 0 afterwards compound to a total
      return of 0, or NaN when there is only row 0. */
  lemma FlatTotalReturn(s: seq<Option<real>>)
    requires |s| > 0 && s[0] == None
    requires forall i :: 1 <= i < |s| ==> s[i] == Some(0.0)
    ensures TotalReturn(CumProd(Growth(s))) == Ok(if |s| == 1 then None else Some(0.0))
  {
    var g := Growth(s);
    forall i | 0 <= i < |g| ensures g[i] == None || g[i] == Some(1.0) {
      assert g[i] == if s[i].None? then None else Some(1.0 + s[i].value);
    }
    DefinedProductOfOnes(g);
    assert g[..|g|] == g;
  }

  /** Rows below `n` none of which is an event give no event rows. */
  lemma {:induction false} NoEventsUpTo(p: seq<int>, target: int, n: nat)
    requires n <= |p|
    requires forall k :: 0 <= k < n ==> !IsEvent(p, target, k)
    ensures EventsUpTo(p, target, n) == []
  {
    if n > 0 {
      NoEventsUpTo(p, target, n - 1);
    }
  }

  /** A position column that is 0 everywhere has no buy and no sell rows. */
  lemma FlatHasNoEvents(p: seq<int>)
    requires forall i :: 0 <= i < |p| ==> p[i] == 0
    ensures Events(p, 1) == [] && Events(p, -1) == []
  {
    NoEventsUpTo(p, 1, |p|);
    NoEventsUpTo(p, -1, |p|);
  }

  /** The columns after the signal when the signal is 0 everywhere:
      the position is flat, every strategy return after row 0 is 0, the
      total return is 0 (NaN for one row) and no row is an event. */
  lemma FlatColumns(close: seq<real>, signal: seq<int>)
    requires Positive(close) && |signal| == |close| > 0
    requires forall i :: 0 <= i < |signal| ==> signal[i] == 0
    ensures var p := Shift(signal);
      var s := StrategyReturns(p, PctChange(close));
      && (forall i :: 0 <= i < |p| ==> p[i] == 0)
      && s[0] == None
      && (forall i :: 1 <= i < |s| ==> s[i] == Some(0.0))
      && TotalReturn(CumProd(Growth(s))) == Ok(if |close| == 1 then None else Some(0.0))
      && Events(p, 1) == [] && Events(p, -1) == []
  {
    var p := Shift(signal);
    var m := PctChange(close);
    assert forall i :: 0 <= i < |p| ==> p[i] == 0;
    FlatStrategyReturns(p, m);
    var s := StrategyReturns(p, m);
    FlatTotalReturn(s);
    FlatHasNoEvents(p);
  }

  /** A signal that is 0 everywhere means no trade: flat positions, zero
      strategy returns, a total return of 0 (NaN for a single row, where no
      return exists) and no events. */
  lemma FlatSignalMeansNoTrades(close: seq<real>, shortWindow: nat, longWindow: nat)
    requires Positive(close) && shortWindow >= 1 && longWindow >= 1 && |close| > 0
    requires forall i :: 0 <= i < |close| ==> ReportOf(close, shortWindow, longWindow).frame.signal[i] == 0
    ensures var rep := ReportOf(close, shortWindow, longWindow);
      && (forall i :: 0 <= i < |close| ==> rep.frame.position[i] == 0)
      && rep.frame.strategyReturns[0] == None
      && (forall i :: 1 <= i < |close| ==> rep.frame.strategyReturns[i] == Some(0.0))
      && rep.totalReturn == (if |close| == 1 then None else Some(0.0))
      && rep.buySignals == [] && rep.sellSignals == []
  {
    ReportShape(close, shortWindow, longWindow);
    FlatColumns(close, ReportOf(close, shortWindow, longWindow).frame.signal);
  }

  /** With fewer closes than the long window the long SMA never exists,
      so no row has a signal. */
  lemma ShortSignal(close: seq<real>, shortWindow: nat, longWindow: nat)
    requires shortWindow >= 1 && |close| < longWindow
    ensures forall i :: 0 <= i < |close| ==> Sma(close, longWindow)[i] == None
    ensures forall i :: 0 <= i < |close| ==> SignalColumn(Sma(close, shortWindow), Sma(close, longWindow))[i] == 0
  {
    var long := Sma(close, longWindow);
    forall i | 0 <= i < |close| ensures long[i] == None {
      assert long[i] == WindowMean(close, longWindow, i);
    }
  }

  /** Fewer closes than the long window: the long SMA never exists, so the
      strategy never trades. */
  lemma ShortSeriesIsFlat(close: seq<real>, shortWindow: nat, longWindow: nat)
    requires Positive(close) && shortWindow >= 1 && longWindow >= 1
    requires 0 < |close| < longWindow
    ensures var rep := ReportOf(close, shortWindow, longWindow);
      && (forall i :: 0 <= i < |close| ==> rep.frame.smaLong[i] == None)
      && (forall i :: 0 <= i < |close| ==> rep.frame.signal[i] == 0 && rep.frame.position[i] == 0)
      && (forall i :: 1 <= i < |close| ==> rep.frame.strategyReturns[i] == Some(0.0))
      && rep.totalReturn == (if |close| == 1 then None else Some(0.0))
      && rep.buySignals == [] && rep.sellSignals == []
  {
    ReportShape(close, shortWindow, longWindow);
    ShortSignal(close, shortWindow, longWindow);
    FlatSignalMeansNoTrades(close, shortWindow, longWindow);
  }

  /** Equal windows give identical averages, so the signal is always 0. */
  lemma EqualWindowsAreFlat(close: seq<real>, w: nat)
    requires Positive(close) && w >= 1 && |close| > 0
    ensures var rep := ReportOf(close, w, w);
      && (forall i :: 0 <= i < |close| ==> rep.frame.signal[i] == 0 && rep.frame.position[i] == 0)
      && rep.totalReturn == (if |close| == 1 then None else Some(0.0))
      && rep.buySignals == [] && rep.sellSignals == []
  {
    FlatSignalMeansNoTrades(close, w, w);
  }

  /** On a constant series every defined SMA is the price itself. */
  lemma ConstantSma(close: seq<real>, w: nat, i: nat)
    requires w >= 1 && i < |close|
    requires forall k :: 0 <= k < |close| ==> close[k] == close[0]
    ensures WindowMean(close, w, i) == if i + 1 < w then None else Some(close[0])
  {
    if i + 1 >= w {
      var window := close[i + 1 - w..i + 1];
      SumConstant(window, close[0]);
      assert Sum(window) == w as real * close[0];
      MulCancel(Sum(window) / w as real, close[0], w as real);
    }
  }

  /** On a constant series both averages agree wherever both exist, so
      the signal is 0 in every row. */
  lemma ConstantSignal(close: seq<real>, shortWindow: nat, longWindow: nat)
    requires shortWindow >= 1 && longWindow >= 1
    requires forall k :: 0 <= k < |close| ==> close[k] == close[0]
    ensures forall i :: 0 <= i < |close| ==> SignalColumn(Sma(close, shortWindow), Sma(close, longWindow))[i] == 0
  {
    var signal := SignalColumn(Sma(close, shortWindow), Sma(close, longWindow));
    forall i | 0 <= i < |close| ensures signal[i] == 0 {
      ConstantSma(close, shortWindow, i);
      ConstantSma(close, longWindow, i);
      assert signal[i] == Crossover(WindowMean(close, shortWindow, i), WindowMean(close, longWindow, i));
    }
  }

  /** A constant price does not change: every market return after row 0 is 0. */
  lemma ConstantMarketReturns(close: seq<real>)
    requires Positive(close) && |close| > 0
    requires forall k :: 0 <= k < |close| ==> close[k] == close[0]
    ensures forall i :: 1 <= i < |close| ==> PctChange(close)[i] == Some(0.0)
  {
    var m := PctChange(close);
    forall i | 1 <= i < |close| ensures m[i] == Some(0.0) {
      assert m[i] == Some((close[i] - close[i - 1]) / close[i - 1]);
      assert close[i] - close[i - 1] == 0.0;
    }
  }

  /** A constant price gives zero market returns, equal averages, and so
      no trades and a total return of 0. */
  lemma ConstantPriceIsFlat(close: seq<real>, shortWindow: nat, longWindow: nat)
    requires Positive(close) && shortWindow >= 1 && longWindow >= 1 && |close| >= 2
    requires forall k :: 0 <= k < |close| ==> close[k] == close[0]
    ensures var rep := ReportOf(close, shortWindow, longWindow);
      && (forall i :: 1 <= i < |close| ==> rep.frame.marketReturns[i] == Some(0.0))
      && (forall i :: 0 <= i < |close| ==> rep.frame.signal[i] == 0 && rep.frame.position[i] == 0)
      && (forall i :: 1 <= i < |close| ==> rep.frame.strategyReturns[i] == Some(0.0))
      && rep.totalReturn == Some(0.0)
      && rep.buySignals == [] && rep.sellSignals == []
  {
    ReportShape(close, shortWindow, longWindow);
    ConstantSignal(close, shortWindow, longWindow);
    ConstantMarketReturns(close);
    FlatSignalMeansNoTrades(close, shortWindow, longWindow);
  }

  // ---------------------------------------------------- Rising scenario

  /** A tail whose elements are all at least `m`, after a head whose
      elements are all below `m`, has a mean above the mean of the whole. */
  lemma TailMeanAbove(sa: real, na: real, sb: real, nb: real, m: real)
    requires na > 0.0 && nb > 0.0
    requires sa < na * m && sb >= nb * m
    ensures sb / nb > (sa + sb) / (na + nb)
  {
    assert (na * m - sa) * nb > 0.0;
    assert (sb - nb * m) * na >= 0.0;
    assert sb * (na + nb) - (sa + sb) * nb == (sb - nb * m) * na + (na * m - sa) * nb;
    MeanComparison(sb, nb, sa + sb, na + nb);
  }

  /** The same in terms of sequences: a tail of elements at least `m`
      after a head of elements below `m` averages above the whole. */
  lemma TailWindowLeads(a: seq<real>, b: seq<real>, m: real)
    requires |a| > 0 && |b| > 0
    requires forall k :: 0 <= k < |a| ==> a[k] < m
    requires forall k :: 0 <= k < |b| ==> b[k] >= m
    ensures Sum(b) / |b| as real > Sum(a + b) / |a + b| as real
  {
    SumConcat(a, b);
    SumBelow(a, m);
    SumAtLeast(b, m);
    assert |a + b| as real == |a| as real + |b| as real;
    TailMeanAbove(Sum(a), |a| as real, Sum(b), |b| as real, m);
  }

  /** On a strictly rising series the shorter mean lies above the longer
      one once both windows are full. */
  lemma ShortMeanLeads(close: seq<real>, shortWindow: nat, longWindow: nat, i: nat)
    requires StrictlyIncreasing(close)
    requires 1 <= shortWindow < longWindow && longWindow - 1 <= i < |close|
    ensures Above(WindowMean(close, shortWindow, i), WindowMean(close, longWindow, i))
  {
    var lo, mid := i + 1 - longWindow, i + 1 - shortWindow;
    var a, b := close[lo..mid], close[mid..i + 1];
    assert close[lo..i + 1] == a + b;
    var m := close[mid];
    forall k | 0 <= k < |a| ensures a[k] < m {
      assert a[k] == close[lo + k];
    }
    forall k | 0 <= k < |b| ensures b[k] >= m {
      assert b[k] == close[mid + k];
    }
    TailWindowLeads(a, b, m);
    assert |b| == shortWindow && |a + b| == longWindow;
  }

  /** On a strictly rising series with a shorter short window the signal
      is 0 until the long window fills and 1 from then on. */
  lemma RisingSignal(close: seq<real>, shortWindow: nat, longWindow: nat)
    requires StrictlyIncreasing(close)
    requires 1 <= shortWindow < longWindow
    ensures forall i :: 0 <= i < |close| ==>
      SignalColumn(Sma(close, shortWindow), Sma(close, longWindow))[i] == (if i + 1 < longWindow then 0 else 1)
  {
    var signal := SignalColumn(Sma(close, shortWindow), Sma(close, longWindow));
    forall i | 0 <= i < |close| ensures signal[i] == (if i + 1 < longWindow then 0 else 1) {
      assert signal[i] == Crossover(WindowMean(close, shortWindow, i), WindowMean(close, longWindow, i));
      if i + 1 >= longWindow {
        ShortMeanLeads(close, shortWindow, longWindow, i);
      }
    }
  }

  /** On a strictly rising series every market return after row 0 is positive. */
  lemma RisingMarketReturns(close: seq<real>)
    requires Positive(close) && StrictlyIncreasing(close)
    ensures forall i :: 1 <= i < |close| ==> PctChange(close)[i].Some? && PctChange(close)[i].value > 0.0
  {
    var m := PctChange(close);
    forall i | 1 <= i < |close| ensures m[i].Some? && m[i].value > 0.0 {
      assert close[i - 1] < close[i];
      assert m[i] == Some((close[i] - close[i - 1]) / close[i - 1]);
    }
  }

  /** The buy rows below `n` of a position that is 0 before row `start`
      and 1 from there on: just `start`, once `n` is past it. */
  lemma {:induction false} StepBuysUpTo(p: seq<int>, start: nat, n: nat)
    requires start >= 1 && n <= |p|
    requires forall i :: 0 <= i < |p| ==> p[i] == (if i < start then 0 else 1)
    ensures EventsUpTo(p, 1, n) == (if n > start then [start] else [])
  {
    if n > 0 {
      StepBuysUpTo(p, start, n - 1);
      var prev := EventsUpTo(p, 1, n - 1);
      var last := n - 1;
      assert EventsUpTo(p, 1, n) == prev + (if IsEvent(p, 1, last) then [last] else []);
      if last == start {
        assert p[last] == 1 && p[last - 1] == 0;
        assert prev == [];
        assert IsEvent(p, 1, last);
      } else if last > start {
        assert p[last] == 1 && p[last - 1] == 1;
        assert !IsEvent(p, 1, last);
        assert prev == [start];
      } else {
        assert p[last] == 0;
        assert !IsEvent(p, 1, last);
        assert prev == [];
      }
    }
  }

  /** A position that is 0 before row `start` and 1 from there on has one
      buy, at `start` when that row exists, and no sell. */
  lemma StepEvents(p: seq<int>, start: nat)
    requires start >= 1
    requires forall i :: 0 <= i < |p| ==> p[i] == (if i < start then 0 else 1)
    ensures Events(p, 1) == (if |p| > start then [start] else [])
    ensures Events(p, -1) == []
  {
    StepBuysUpTo(p, start, |p|);
    NoEventsUpTo(p, -1, |p|);
  }

  /** Returns defined after row 0, none negative and the last one positive,
      compound to a positive total return. */
  lemma GainingTotalReturn(s: seq<Option<real>>)
    requires |s| >= 2 && s[0].None?
    requires forall k :: 1 <= k < |s| ==> s[k].Some? && s[k].value >= 0.0
    requires s[|s| - 1].value > 0.0
    ensures TotalReturn(CumProd(Growth(s))).Ok?
    ensures TotalReturn(CumProd(Growth(s))).value.Some?
    ensures TotalReturn(CumProd(Growth(s))).value.value > 0.0
  {
    var n := |s|;
    CompoundedFromRowOne(s, n - 1);
    var factors := GrowthFactors(s, n - 1);
    assert factors[n - 2] == 1.0 + s[n - 1].value;
    ProductAboveOne(factors);
  }

  /** The strategy returns of a position that is 0 before row `start` and
      1 from there on, over market returns that are NaN in row 0 only and
      positive afterwards. */
  lemma SteppedStrategyReturns(p: seq<int>, m: seq<Option<real>>, start: nat)
    requires start >= 1 && |p| == |m| > 0 && m[0].None?
    requires forall i :: 0 <= i < |p| ==> p[i] == (if i < start then 0 else 1)
    requires forall i :: 1 <= i < |m| ==> m[i].Some? && m[i].value > 0.0
    ensures var s := StrategyReturns(p, m);
      && s[0].None?
      && (forall i :: 1 <= i < |s| ==> s[i].Some? && s[i].value >= 0.0)
      && (forall i :: start <= i < |s| ==> s[i].Some? && s[i].value > 0.0)
  {
    var s := StrategyReturns(p, m);
    assert s[0] == Scale(p[0], m[0]);
    forall i | 1 <= i < |s|
      ensures s[i].Some? && s[i].value == (if i < start then 0.0 else m[i].value)
    {
      assert s[i] == Scale(p[i], m[i]);
    }
  }

  /** The columns after the signal on a strictly rising series whose
      signal turns to 1 at row `start - 1` and stays there. */
  lemma SteppedColumns(close: seq<real>, signal: seq<int>, start: nat)
    requires Positive(close) && StrictlyIncreasing(close)
    requires start >= 1 && |signal| == |close| > 0
    requires forall i :: 0 <= i < |signal| ==> signal[i] == (if i + 1 < start then 0 else 1)
    ensures var p := Shift(signal);
      var s := StrategyReturns(p, PctChange(close));
      && (forall i :: 0 <= i < |p| ==> p[i] == (if i < start then 0 else 1))
      && (forall i :: start <= i < |s| ==> s[i].Some? && s[i].value > 0.0)
      && Events(p, 1) == (if |p| > start then [start] else [])
      && Events(p, -1) == []
      && (|close| > start ==>
            var total := TotalReturn(CumProd(Growth(s)));
            total.Ok? && total.value.Some? && total.value.value > 0.0)
  {
    var p := Shift(signal);
    var m := PctChange(close);
    assert forall i :: 0 <= i < |p| ==> p[i] == (if i < start then 0 else 1);
    StepEvents(p, start);
    RisingMarketReturns(close);
    SteppedStrategyReturns(p, m, start);
    if |close| > start {
      GainingTotalReturn(StrategyReturns(p, m));
    }
  }

  /** A strictly rising series with a shorter short window: the strategy is
      flat until the long window fills, long from the next row on, earns a
      positive return on every long row, buys exactly once and never sells;
      with more closes than the long window its total return is positive. */
  lemma RisingSeriesGoesLong(close: seq<real>, shortWindow: nat, longWindow: nat)
    requires Positive(close) && StrictlyIncreasing(close)
    requires 1 <= shortWindow < longWindow && |close| > 0
    ensures var rep := ReportOf(close, shortWindow, longWindow);
      && (forall i :: 0 <= i < |close| ==> rep.frame.signal[i] == (if i + 1 < longWindow then 0 else 1))
      && (forall i :: 0 <= i < |close| ==> rep.frame.position[i] == (if i < longWindow then 0 else 1))
      && (forall i :: longWindow <= i < |close| ==>
            rep.frame.strategyReturns[i].Some? && rep.frame.strategyReturns[i].value > 0.0)
      && rep.buySignals == (if |close| > longWindow then [longWindow] else [])
      && rep.sellSignals == []
      && (|close| > longWindow ==> rep.totalReturn.Some? && rep.totalReturn.value > 0.0)
  {
    ReportShape(close, shortWindow, longWindow);
    RisingSignal(close, shortWindow, longWindow);
    SteppedColumns(close, ReportOf(close, shortWindow, longWindow).frame.signal, longWindow);
  }
}
