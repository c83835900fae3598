/**
 * The scroll indicator (`on_scroll` in stats.js): ten cells of which the
 * first are filled according to how far the textarea is scrolled, and the
 * same ratio as a percentage.
 */
module Scroll {

  /** The number of cells in the bar. */
  const Cells: nat := 10

  /**
   * `Math.min(1, scrollMax === 0 ? 0 : scrollTop / scrollMax)` with
   * `scrollMax = scrollHeight - offsetHeight`. Only a zero `scrollMax` is
   * guarded: a textarea taller than its content and scrolled gives a
   * negative ratio.
   */
  function Ratio(scrollTop: real, scrollHeight: int, offsetHeight: int): (r: real)
    ensures r <= 1.0
    ensures scrollHeight == offsetHeight ==> r == 0.0
    ensures 0.0 <= scrollTop && scrollHeight > offsetHeight ==> 0.0 <= r
    ensures 0.0 < scrollTop && scrollHeight < offsetHeight ==> r < 0.0
    ensures scrollHeight != offsetHeight && r < 1.0 ==> r * (scrollHeight - offsetHeight) as real == scrollTop
    ensures scrollHeight != offsetHeight && 0.0 <= scrollTop
      && (scrollHeight < offsetHeight || scrollTop < (scrollHeight - offsetHeight) as real)
      ==> r * (scrollHeight - offsetHeight) as real == scrollTop
    ensures scrollHeight > offsetHeight && scrollTop >= (scrollHeight - offsetHeight) as real ==> r == 1.0
  {
    var scrollMax := scrollHeight - offsetHeight;
    var q := if scrollMax == 0 then 0.0 else scrollTop / scrollMax as real;
    if q < 1.0 then q else 1.0
  }

  /** The cells: cell `i` is filled when `i < ratio * 10`. */
  function Bar(ratio: real): (bar: seq<bool>)
    ensures |bar| == Cells
  {
    seq(Cells, i => i as real < ratio * Cells as real)
  }

  /** The least whole number from `n` up to the cell count that is at least `x`, or the cell count. */
  function LeastCover(x: real, n: nat): (k: nat)
    requires n <= Cells
    ensures n <= k <= Cells
    ensures k < Cells ==> x <= k as real
    ensures k > n ==> ((k - 1) as real) < x
    decreases Cells - n
  {
    if n == Cells || x <= n as real then n else LeastCover(x, n + 1)
  }

  /** How many cells a ratio fills: ten times the ratio rounded up, kept within the bar. */
  function FilledCells(ratio: real): (k: nat)
    ensures k <= Cells
    ensures ratio <= 0.0 ==> k == 0
    ensures 0.0 < ratio <= 1.0 ==> (k - 1) as real < ratio * Cells as real <= k as real
    ensures ratio >= 1.0 ==> k == Cells
  {
    LeastCover(ratio * Cells as real, 0)
  }

  /** The filled cells are exactly the first `FilledCells(ratio)` of the bar. */
  lemma {:induction false} BarFillsPrefix(ratio: real)
    ensures forall i :: 0 <= i < Cells ==> (Bar(ratio)[i] <==> i < FilledCells(ratio))
  {
  }

  /**
   * Any part of a cell fills the whole cell: a ratio below a tenth but
   * above zero already fills one, rounding up where a floor would fill none.
   */
  lemma {:induction false} PartialCellFills(ratio: real)
    requires 0.0 < ratio < 0.1
    ensures FilledCells(ratio) == 1
  {
  }

  /** The indicator: the bar and the ratio as a percentage. */
  datatype Indicator = Indicator(bar: seq<bool>, percent: real)

  function IndicatorOf(scrollTop: real, scrollHeight: int, offsetHeight: int): (ind: Indicator)
    ensures |ind.bar| == Cells && ind.percent <= 100.0
    ensures ind.percent == 100.0 * Ratio(scrollTop, scrollHeight, offsetHeight)
    ensures forall i :: 0 <= i < Cells ==>
      (ind.bar[i] <==> i < FilledCells(Ratio(scrollTop, scrollHeight, offsetHeight)))
  {
    var r := Ratio(scrollTop, scrollHeight, offsetHeight);
    BarFillsPrefix(r);
    Indicator(Bar(r), r * 100.0)
  }
}
