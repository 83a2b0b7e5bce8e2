# SMA-crossover backtest, modelled in Dafny

This project models the computation inside `back_test_sma_strategy` in
`app.py`. That function backtests a moving-average crossover strategy on a
series of daily closing prices, in these steps:

1. It computes a short and a long trailing simple moving average (SMA).
2. It derives a signal from comparing the two averages: 1 when the short one is above, -1 when it is below, 0 otherwise.
3. It holds the previous row's signal as the position.
4. It earns the position times the market's percentage change.
5. It compounds those returns into a growth-of-1 curve, and compounds the market's own returns into a buy-and-hold curve.
6. It takes the last value of the strategy curve, minus 1, as the total return.
7. It marks the rows where the position turns long (buy) or turns short (sell).

The model has four modules:

- `Series` (`series.dfy`) has the `Option` type and sums and products over real sequences, with the arithmetic facts the proofs use. `Option` stands for pandas' missing value: `None` is NaN.
- `Backtest` (`backtest.dfy`) holds each step as a function on whole columns, and `BackTest` chains them into a `Report`.
- `Imperative` (`imperative.dfy`) holds the parts that work step by step, each proved equal to its whole-column function:
  - the moving average kept as a running window sum;
  - the Signal column, set to 0 and then overwritten by two masked assignments;
  - the pipeline building its columns one after another.
- `Properties` (`properties.dfy`) holds the lemmas: the compounding rules, the buy-and-hold curve, the event rules, and three scenarios (flat, constant price, strictly rising).

How pandas behaviour is represented:

- Prices are positive `real`s and both windows are at least 1; both are preconditions. `back_test_sma_strategy` itself checks neither. The window bound is met at the only call site (app.py:81-89), whose inputs come from number widgets with minimums 1 and 10 (app.py:74-75). Positive closes are an unchecked assumption.
- A NaN cell is `None` in these places:
  - an SMA before its window is full;
  - the percentage change in row 0;
  - the strategy return in row 0, which is 0 times NaN;
  - the cumulative products in row 0.
- `cumprod` skips NaN cells: `DefinedProduct` multiplies only the defined cells.
- Taking the last cumulative strategy value of an empty frame raises an index error. This is `Err(EmptySeries)`.
- With a single close, the last cumulative value is NaN, so the total return is NaN (`None`). So "a strategy that never trades has a total return of 0" holds only from two closes up. The lemmas state it with that case split.
- The buy and sell markers are kept as row indices; dates are not modelled. In row 0, the lagged position is NaN, which differs from any target, so row 0 would be an event if its position were ±1. The position is 0 there, so row 0 never is.

## Model

| member | source | states |
|---|---|---|
| Backtest.Sma | app.py:17-18 | a rolling mean has exactly one cell per close |
| Backtest.Crossover | app.py:20-22 | the signal of a row is in {-1, 0, 1}; it is 1 iff both averages exist and short > long, -1 iff both exist and short < long, 0 otherwise (including when either average is NaN) |
| Backtest.SignalColumn | app.py:20-22 | one signal per row |
| Backtest.Shift | app.py:23 | the position column has one cell per row, is 0 in row 0 and equals the previous row's signal from row 1 on |
| Backtest.PctChange | app.py:25 | one market return per close, NaN in row 0 and defined in every later row |
| Backtest.StrategyReturns | app.py:26 | one strategy return per row |
| Backtest.Growth | app.py:28-29 | one growth factor per row |
| Backtest.CumProd | app.py:28-29 | one cumulative value per row |
| Backtest.TotalReturn | app.py:30 | an error exactly on an empty series; otherwise NaN exactly when the last cumulative value is NaN, and else that value minus 1 |
| Backtest.EventsUpTo | app.py:38-39 | the selected rows are exactly the event rows below the bound, in strictly increasing order |
| Backtest.BackTest | app.py:14-30 | the backtest fails exactly on an empty series; otherwise the frame keeps the input closes, and every column and both cumulative curves have one cell per close |
| Imperative.WindowStep | app.py:17-18 | moving the window past a close adds that close and, once the window is full, removes the close that leaves it |
| Imperative.RunningSma | app.py:17-18 | a one-pass running-sum loop yields exactly the trailing windowed mean |
| Imperative.AssignSignal | app.py:20-22 | starting from all zeros and applying the "above" mask, then the "below" mask, gives exactly the three-way crossover of every row |
| Imperative.BackTestSmaStrategy | app.py:14-39 | the pipeline with both SMA columns computed by the running-sum loop and the Signal column by the two masked overwrites gives exactly the report of the whole-column definition, including the error on an empty series; the later steps (lag, returns, cumulative products, total return, events) call the same column functions as that definition |
| Series.MeanComparison | app.py:21-22 | comparing two means with positive counts is the same as comparing their cross-multiplied sums, both for > and for < |
| Properties.SmaCells | app.py:17-18 | an SMA cell exists iff at least `w` closes are available, and then times `w` it is the sum of the last `w` closes |
| Properties.CrossoverBySums | app.py:17-22 | once both windows are full, the signal is 1 iff short sum × long window > long sum × short window, and -1 iff the opposite holds |
| Properties.SignalRules | app.py:20-23 | Signal and Position stay in {-1, 0, 1}; each signal value holds iff its comparison holds; the position is 0 in row 0 and the previous signal after that |
| Properties.CumProdStep | app.py:28 | a defined cumulative cell is the product of the defined cells before it times its own factor |
| Properties.DefinedProductStep | app.py:28 | extending the rows by one defined cell multiplies the running product by that cell |
| Properties.CompoundedFromRowOne | app.py:28-29 | for returns that are NaN only in row 0, the cumulative value of row i is the product of `1 + return` over rows 1..i |
| Properties.CompoundingStep | app.py:28-29 | the cumulative series is defined from row 1 on; row 1 is `1 + return`, and every later row is the previous value times `1 + return` |
| Properties.StrategyDefinedFromRowOne | app.py:25-26 | the strategy return is NaN in row 0 and defined in every later row |
| Properties.StrategyReturnCells | app.py:25-26 | after row 0 the strategy return is the position times the market return, hence 0 when the position is 0 |
| Properties.StrategyCompounding | app.py:26-28 | the cumulative strategy value is NaN in row 0 and, in row i ≥ 1, the product of `1 + strategy return` over rows 1..i |
| Properties.TotalReturnIsProduct | app.py:28-30 | from two closes up, the total return is defined and equals the product over rows ≥ 1 of `1 + strategy return`, minus 1 |
| Properties.PctChangeIsRelative | app.py:25 | a market return times the previous close is the change between the two closes |
| Properties.MarketGrowth | app.py:25-29 | the product of the market growth factors up to row i is the close of row i relative to the first close |
| Properties.BuyAndHoldTelescopes | app.py:25-29 | the buy-and-hold curve at row i ≥ 1 is defined and equals close[i] / close[0] |
| Properties.EventMember | app.py:38-39 | every selected row is an event row below the bound |
| Properties.EventsAreTransitions | app.py:23-39 | for a position that starts flat, the selected rows are exactly the transitions into the target; they are never row 0, and they are strictly increasing |
| Properties.EventRules | app.py:23-39 | buy rows are exactly the rows entering position 1 and sell rows the rows entering -1; no row is both; neither is row 0; each changes the position; both lists strictly increase |
| Properties.FlatStrategyReturns | app.py:26 | with a zero position, every defined market return gives a strategy return of 0 and NaN stays NaN |
| Properties.FlatTotalReturn | app.py:28-30 | returns that are NaN in row 0 and 0 after compound to a total return of 0, or NaN for a single row |
| Properties.NoEventsUpTo | app.py:38-39 | with no event row below the bound, nothing is selected |
| Properties.FlatHasNoEvents | app.py:38-39 | an all-zero position has neither buy nor sell rows |
| Properties.FlatColumns | app.py:23-39 | an all-zero signal gives a flat position, zero strategy returns after row 0, a total return of 0 (NaN for one row), and no events |
| Properties.FlatSignalMeansNoTrades | app.py:23-39 | the same for the report of any series whose signal is 0 in every row |
| Properties.ShortSignal | app.py:18-22 | with fewer closes than the long window, the long SMA is NaN everywhere and the signal is 0 everywhere |
| Properties.ShortSeriesIsFlat | app.py:17-39 | a series shorter than the long window never trades: long SMA NaN, signal and position 0, strategy returns 0, total return 0 (NaN for one close), no events |
| Properties.EqualWindowsAreFlat | app.py:17-39 | equal windows give identical averages, so no signal, no position, total return 0 (NaN for one close), and no events |
| Properties.ConstantSma | app.py:17-18 | on a constant series every defined SMA is the price itself |
| Properties.ConstantSignal | app.py:17-22 | on a constant series the signal is 0 in every row |
| Properties.ConstantMarketReturns | app.py:25 | on a constant series every market return after row 0 is 0 |
| Properties.ConstantPriceIsFlat | app.py:17-39 | from two closes up, a constant price has market returns 0, signal and position 0, strategy returns 0, a total return of exactly 0, and no events |
| Properties.ShortMeanLeads | app.py:17-21 | on a strictly rising series with a shorter short window, the short SMA is above the long SMA once both windows are full |
| Properties.RisingSignal | app.py:17-22 | on such a series the signal is 0 until the long window fills and 1 from then on |
| Properties.RisingMarketReturns | app.py:25 | on a strictly rising series every market return after row 0 is positive |
| Properties.StepBuysUpTo | app.py:38 | a position that turns from 0 to 1 at row `start` has, below any bound past `start`, exactly that one buy row, and none below the others |
| Properties.StepEvents | app.py:38-39 | such a position has exactly one buy, at `start` when that row exists, and no sell |
| Properties.SteppedStrategyReturns | app.py:26 | with that position and positive market returns, strategy returns are defined and non-negative after row 0 and positive from `start` on |
| Properties.GainingTotalReturn | app.py:28-30 | non-negative returns after row 0 whose last one is positive compound to a positive total return |
| Properties.SteppedColumns | app.py:23-39 | on a strictly rising series, a signal that steps to 1 gives a stepped position, positive returns while long, one buy, no sell, and a positive total return when the long row exists |
| Properties.RisingSeriesGoesLong | app.py:14-39 | on a strictly rising series with short window < long window, the strategy is flat until the long window fills, then long; it gains on every long row, buys exactly once (at row `longWindow`, when it exists), never sells, and has a positive total return when the series is longer than the long window |

## Left out

- The price download and the flattening of multi-level columns (app.py:9-12) are network I/O and a third-party library. The model takes the close series as its input.
- Dates are not modelled (app.py:15, 56-60). Buy and sell markers are row indices.
- The Sharpe ratio (app.py:31) needs a sample standard deviation and a square root, which are floating-point work with no exact counterpart over `real`.
- Streamlit output and widgets, percentage formatting and all plotting (app.py:33-35, 41-89) are display only.
- `back_test_sma_strategy` validates none of its inputs. Windows of at least 1 are guaranteed by the widget minimums at app.py:74-75; positive closes are assumed. A zero or negative close and a zero window are outside the model. No ordering between the two windows is required.
- Floating-point rounding is not modelled: means, ratios and products are exact `real` arithmetic.
- Backtest.Sma: its own contract states only the length; the cells (NaN until the window fills, then the window mean) are stated by Properties.SmaCells and Imperative.RunningSma.
- Backtest.SignalColumn: its own contract states only the length; the per-row crossover values are stated by Properties.SignalRules and Imperative.AssignSignal.
- Backtest.StrategyReturns: its own contract states only the length; the per-row product of position and market return is stated by Properties.StrategyReturnCells.
- Backtest.Growth: its own contract states only the length; the `1 + return` cells enter through Properties.CompoundingStep and Properties.CompoundedFromRowOne.
- Backtest.CumProd: its own contract states only the length; the NaN-skipping running product is stated by Properties.CumProdStep and Properties.CompoundingStep.
