/** The deterministic valuation engine (src/finsage/financial/valuation.py), over exact
    reals: discounted cash flow, its sensitivity grid and growth projection. */
module Valuation {
  import opened Reals

  /** InvalidInput stands for the error FIN-3102. */
  datatype Result<+T> = Ok(value: T) | InvalidInput

  datatype Dcf = Dcf(
    enterpriseValue: real,
    presentValueFcf: real,
    terminalValue: real,
    presentValueTerminal: real,
    wacc: real,
    terminalGrowth: real)

  datatype Cell = NoValue | Value(v: real)

  function Pow(b: real, n: nat): real {
    if n == 0 then 1.0 else Times(b, Pow(b, n - 1))
  }

  lemma {:induction false} PowPositive(b: real, n: nat)
    requires b > 0.0
    ensures Pow(b, n) > 0.0
  {
    if n > 0 {
      PowPositive(b, n - 1);
      TimesPositive(b, Pow(b, n - 1));
    }
  }

  // The definitions below take the three numbers a valuation turns on: the discount base
  // b = 1 + wacc, the growth factor q = 1 + growth and the spread d = wacc - growth.

  /** What DCF means, by peeling years off the front: a company worth v next year is worth
      (flow + v) / b today, and after the last flow it is worth the growing perpetuity
      next / d that pays next = flow * q a year later. No power and no running sum. */
  ghost function WorthAt(flows: seq<real>, b: real, q: real, d: real): real
    requires flows != [] && b > 0.0 && d > 0.0
  {
    if |flows| == 1 then Over(flows[0] + Over(Times(flows[0], q), d), b)
    else Over(flows[0] + WorthAt(flows[1..], b, q, d), b)
  }

  /** The sum over t of flows[t-1] / b^t. */
  ghost function DiscountedSum(flows: seq<real>, b: real): real
    requires b > 0.0
  {
    if flows == [] then 0.0
    else
      PowPositive(b, |flows|);
      DiscountedSum(flows[..|flows| - 1], b) + Over(flows[|flows| - 1], Pow(b, |flows|))
  }

  ghost function Terminal(flows: seq<real>, q: real, d: real): real
    requires flows != [] && d > 0.0
  {
    Over(Times(flows[|flows| - 1], q), d)
  }

  ghost predicate Valuable(flows: seq<real>, w: real, g: real) {
    flows != [] && w > 0.0 && w > g
  }

  /** The year-by-year value. */
  ghost function Worth(flows: seq<real>, w: real, g: real): real
    requires Valuable(flows, w, g)
  {
    WorthAt(flows, 1.0 + w, 1.0 + g, w - g)
  }

  /** The closed formula in the engine's documentation. */
  ghost function EnterpriseValue(flows: seq<real>, w: real, g: real): real
    requires Valuable(flows, w, g)
  {
    PowPositive(1.0 + w, |flows|);
    DiscountedSum(flows, 1.0 + w) + Over(Terminal(flows, 1.0 + g, w - g), Pow(1.0 + w, |flows|))
  }

  method CalculateDcf(flows: seq<real>, wacc: real, terminalGrowth: real) returns (r: Result<Dcf>)
    ensures r.Ok? <==> Valuable(flows, wacc, terminalGrowth)
    ensures r.Ok? ==>
              && r.value.enterpriseValue == Worth(flows, wacc, terminalGrowth)
              && r.value.enterpriseValue == EnterpriseValue(flows, wacc, terminalGrowth)
              && r.value.presentValueFcf == DiscountedSum(flows, 1.0 + wacc)
              && r.value.terminalValue == Terminal(flows, 1.0 + terminalGrowth, wacc - terminalGrowth)
              && r.value.presentValueTerminal == r.value.enterpriseValue - r.value.presentValueFcf
              && r.value.wacc == wacc && r.value.terminalGrowth == terminalGrowth
  {
    if flows == [] {
      return InvalidInput;
    }
    if wacc <= 0.0 {
      return InvalidInput;
    }
    if wacc <= terminalGrowth {
      return InvalidInput;
    }
    var n := |flows|;
    var b := 1.0 + wacc;
    var pvFcf := 0.0;
    for t := 1 to n + 1
      invariant pvFcf == DiscountedSum(flows[..t - 1], b)
    {
      PowPositive(b, t);
      assert flows[..t][..t - 1] == flows[..t - 1];
      pvFcf := pvFcf + Over(flows[t - 1], Pow(b, t));
    }
    assert flows[..n] == flows;
    PowPositive(b, n);
    var q, d := 1.0 + terminalGrowth, wacc - terminalGrowth;
    var tv := Over(Times(flows[n - 1], q), d);
    var pvTv := Over(tv, Pow(b, n));
    FormulaIsWorth(flows, b, q, d);
    assert pvFcf + pvTv == WorthAt(flows, b, q, d);
    return Ok(Dcf(pvFcf + pvTv, pvFcf, tv, pvTv, wacc, terminalGrowth));
  }

  /** A flow x now growing by q for ever after is the perpetuity x / d. */
  lemma Perpetuity(x: real, b: real, q: real, d: real)
    requires d != 0.0 && b != 0.0 && b == q + d
    ensures Over(x + Over(Times(x, q), d), b) == Over(x, d)
  {
    var p, next := Over(x, d), Over(Times(x, q), d);
    Cancel(x, d);
    assert next == p * q by {
      assert p * q * d == x * q by {
        MulAssoc(p, q, d);
        MulAssoc(p, d, q);
      }
      Quotient(Times(x, q), d, p * q);
    }
    assert p * b == x + next;
    Quotient(x + next, b, p);
  }

  // The closed formula and the year-by-year value agree

  lemma {:induction false} DiscountedSumFront(flows: seq<real>, b: real)
    requires flows != [] && b > 0.0
    ensures DiscountedSum(flows, b) == Over(flows[0] + DiscountedSum(flows[1..], b), b)
  {
    var n := |flows|;
    if n == 1 {
      assert flows[..0] == [] == flows[1..];
      assert Pow(b, 1) == Times(b, Pow(b, 0)) == b;
    } else {
      var init, tail := flows[..n - 1], flows[1..];
      DiscountedSumFront(init, b);
      assert init[1..] == tail[..n - 2];
      PowPositive(b, n - 1);
      FrontStep(init[0], DiscountedSum(init[1..], b), flows[n - 1], Pow(b, n - 1), b, Pow(b, n));
    }
  }

  lemma FrontStep(first: real, sum: real, last: real, p: real, b: real, bp: real)
    requires b != 0.0 && p != 0.0 && bp == b * p
    ensures bp != 0.0
    ensures Over(first + sum, b) + Over(last, bp) == Over(first + (sum + Over(last, p)), b)
  {
    OverOver(last, p, b, bp);
    OverAdd(first + sum, Over(last, p), b);
  }

  lemma {:induction false} FormulaIsWorth(flows: seq<real>, b: real, q: real, d: real)
    requires flows != [] && b > 0.0 && d > 0.0
    ensures Pow(b, |flows|) > 0.0
    ensures WorthAt(flows, b, q, d) == DiscountedSum(flows, b) + Over(Terminal(flows, q, d), Pow(b, |flows|))
  {
    var n := |flows|;
    var tv := Terminal(flows, q, d);
    PowPositive(b, n - 1);
    PowPositive(b, n);
    DiscountedSumFront(flows, b);
    FrontStep(flows[0], DiscountedSum(flows[1..], b), tv, Pow(b, n - 1), b, Pow(b, n));
    if n == 1 {
      assert flows[1..] == [];
      assert Over(tv, Pow(b, 0)) == tv;
    } else {
      FormulaIsWorth(flows[1..], b, q, d);
      assert flows[1..][n - 2] == flows[n - 1];
    }
  }

  // Horizon independence

  /** The last forecast year x, followed by one more of next = x * q. */
  lemma OneMoreYear(x: real, next: real, b: real, q: real, d: real)
    requires b > 0.0 && d > 0.0 && b == q + d && next == Times(x, q)
    ensures WorthAt([x], b, q, d) == Over(x + WorthAt([next], b, q, d), b)
  {
    Perpetuity(next, b, q, d);
  }

  lemma {:induction false} ExtendHorizon(flows: seq<real>, next: real, b: real, q: real, d: real)
    requires flows != [] && b > 0.0 && d > 0.0
    requires var x := flows[|flows| - 1]; WorthAt([x], b, q, d) == Over(x + WorthAt([next], b, q, d), b)
    ensures WorthAt(flows + [next], b, q, d) == WorthAt(flows, b, q, d)
  {
    var longer := flows + [next];
    if |flows| == 1 {
      assert longer[1..] == [next];
      assert flows == [flows[0]];
    } else {
      assert longer[1..] == flows[1..] + [next];
      assert flows[1..][|flows| - 2] == flows[|flows| - 1];
      ExtendHorizon(flows[1..], next, b, q, d);
    }
  }

  /** Forecasting one more year at the terminal growth rate changes nothing. */
  lemma HorizonIndependence(flows: seq<real>, w: real, g: real)
    requires Valuable(flows, w, g)
    ensures EnterpriseValue(flows + [Times(flows[|flows| - 1], 1.0 + g)], w, g) == EnterpriseValue(flows, w, g)
  {
    var next := Times(flows[|flows| - 1], 1.0 + g);
    OneMoreYear(flows[|flows| - 1], next, 1.0 + w, 1.0 + g, w - g);
    ExtendHorizon(flows, next, 1.0 + w, 1.0 + g, w - g);
    FormulaIsWorth(flows, 1.0 + w, 1.0 + g, w - g);
    FormulaIsWorth(flows + [next], 1.0 + w, 1.0 + g, w - g);
  }

  // Growth projection

  function Projected(base: real, q: real, periods: nat): (flows: seq<real>)
    ensures |flows| == periods && forall t | 0 <= t < periods :: flows[t] == Times(base, Pow(q, t + 1))
  {
    seq(periods, i requires 0 <= i => Times(base, Pow(q, i + 1)))
  }

  function ProjectGrowth(base: real, g: real, periods: int): (r: Result<seq<real>>)
    ensures r.Ok? <==> periods >= 0 && g > -1.0
    ensures r.Ok? ==> |r.value| == periods
    ensures r.Ok? ==> forall t | 0 <= t < periods :: r.value[t] == Times(base, Pow(1.0 + g, t + 1))
  {
    if periods < 0 then InvalidInput
    else if g <= -1.0 then InvalidInput
    else Ok(Projected(base, 1.0 + g, periods))
  }

  lemma OnePowerMore(base: real, q: real, t: nat)
    ensures Times(base, Pow(q, t + 1)) == Times(Times(base, Pow(q, t)), q)
    ensures Times(base, Pow(q, 1)) == Times(base, q)
  {
    TimesAssoc(base, Pow(q, t), q);
    TimesCommutes(q, Pow(q, t));
    assert Pow(q, 1) == Times(q, Pow(q, 0)) == q;
  }

  /** Each projected value is the one before it, the base at first, grown by one period. */
  lemma {:induction false} GrowthCompounds(base: real, g: real, periods: int, t: int)
    requires ProjectGrowth(base, g, periods).Ok? && 0 <= t < periods
    ensures var values := ProjectGrowth(base, g, periods).value;
            values[t] == Times(if t == 0 then base else values[t - 1], 1.0 + g)
  {
    OnePowerMore(base, 1.0 + g, t);
  }

  lemma ProjectedStep(base: real, q: real, n: nat)
    requires n >= 2
    ensures var shorter, last := Projected(base, q, n - 1), Projected(base, q, n)[n - 1];
            Projected(base, q, n) == shorter + [last] && last == Times(shorter[n - 2], q)
  {
    TimesAssoc(base, Pow(q, n - 1), q);
    TimesCommutes(q, Pow(q, n - 1));
  }

  lemma {:induction false} ProjectedWorth(base: real, b: real, q: real, d: real, n: nat)
    requires n >= 1 && b > 0.0 && d > 0.0 && b == q + d
    ensures WorthAt(Projected(base, q, n), b, q, d) == Over(Times(base, q), d)
  {
    var flows := Projected(base, q, n);
    if n == 1 {
      assert Pow(q, 1) == Times(q, Pow(q, 0)) == q;
      assert flows[0] == Times(base, q);
      Perpetuity(Times(base, q), b, q, d);
    } else {
      ProjectedStep(base, q, n);
      var shorter, last := Projected(base, q, n - 1), flows[n - 1];
      ProjectedWorth(base, b, q, d, n - 1);
      OneMoreYear(shorter[n - 2], last, b, q, d);
      ExtendHorizon(shorter, last, b, q, d);
    }
  }

  /** However long the projection, the DCF of a flow that grows by the terminal rate is the
      growing perpetuity. */
  lemma ProjectionHasClosedForm(base: real, g: real, w: real, n: int)
    requires n >= 1 && g > -1.0 && w > 0.0 && w > g
    ensures ProjectGrowth(base, g, n).Ok?
    ensures EnterpriseValue(ProjectGrowth(base, g, n).value, w, g) == base * (1.0 + g) / (w - g)
  {
    ProjectedWorth(base, 1.0 + w, 1.0 + g, w - g, n);
    FormulaIsWorth(Projected(base, 1.0 + g, n), 1.0 + w, 1.0 + g, w - g);
  }

  // Sensitivity grid

  ghost predicate Bad(flows: seq<real>, w: real, g: real) {
    w > g && !Valuable(flows, w, g)
  }

  ghost function CellOf(flows: seq<real>, w: real, g: real): Cell
    requires !Bad(flows, w, g)
  {
    if w <= g then NoValue else Value(EnterpriseValue(flows, w, g))
  }

  /** The grid fails as a whole exactly when some pair with w > g has no DCF; otherwise every
      pair has its cell, empty exactly when w <= g. */
  method DcfSensitivity(flows: seq<real>, waccs: seq<real>, growths: seq<real>)
    returns (r: Result<seq<seq<Cell>>>)
    ensures r.InvalidInput? <==>
            exists i, j :: 0 <= i < |waccs| && 0 <= j < |growths| && Bad(flows, waccs[i], growths[j])
    ensures r.Ok? ==> |r.value| == |waccs|
    ensures r.Ok? ==> forall i | 0 <= i < |waccs| :: |r.value[i]| == |growths|
    ensures r.Ok? ==> forall i, j | 0 <= i < |waccs| && 0 <= j < |growths| ::
                !Bad(flows, waccs[i], growths[j]) && r.value[i][j] == CellOf(flows, waccs[i], growths[j])
  {
    var grid: seq<seq<Cell>> := [];
    for i := 0 to |waccs|
      invariant |grid| == i
      invariant forall k | 0 <= k < i :: |grid[k]| == |growths|
      invariant forall k, j | 0 <= k < i && 0 <= j < |growths| ::
                  !Bad(flows, waccs[k], growths[j]) && grid[k][j] == CellOf(flows, waccs[k], growths[j])
    {
      var row: seq<Cell> := [];
      for j := 0 to |growths|
        invariant |row| == j
        invariant forall k | 0 <= k < j ::
                    !Bad(flows, waccs[i], growths[k]) && row[k] == CellOf(flows, waccs[i], growths[k])
      {
        if waccs[i] <= growths[j] {
          row := row + [NoValue];
        } else {
          var dcf := CalculateDcf(flows, waccs[i], growths[j]);
          if dcf.InvalidInput? {
            assert Bad(flows, waccs[i], growths[j]);
            return InvalidInput;
          }
          row := row + [Value(dcf.value.enterpriseValue)];
        }
      }
      grid := grid + [row];
    }
    return Ok(grid);
  }

  ghost predicate GrowingCompany(flows: seq<real>) {
    && flows != [] && flows[|flows| - 1] > 0.0
    && forall i | 0 <= i < |flows| :: flows[i] >= 0.0
  }

  lemma {:induction false} WorthPositive(flows: seq<real>, b: real, q: real, d: real)
    requires GrowingCompany(flows) && b > 0.0 && q > 0.0 && d > 0.0
    ensures WorthAt(flows, b, q, d) > 0.0
  {
    if |flows| == 1 {
      TimesPositive(flows[0], q);
      OverPositive(Times(flows[0], q), d);
      OverPositive(flows[0] + Over(Times(flows[0], q), d), b);
    } else {
      WorthPositive(flows[1..], b, q, d);
      OverPositive(flows[0] + WorthAt(flows[1..], b, q, d), b);
    }
  }

  /** Dearer discounting and a wider spread both lower the value. */
  lemma {:induction false} DearerIsWorthLess(flows: seq<real>, b: real, b': real, q: real, d: real, d': real)
    requires GrowingCompany(flows) && 0.0 < b < b' && q > 0.0 && 0.0 < d < d'
    ensures WorthAt(flows, b', q, d') < WorthAt(flows, b, q, d)
  {
    if |flows| == 1 {
      var next := Times(flows[0], q);
      TimesPositive(flows[0], q);
      SmallerDenominator(next, d', d);
      OverPositive(next, d');
      SmallerQuotient(flows[0] + Over(next, d'), flows[0] + Over(next, d), b', b);
    } else {
      DearerIsWorthLess(flows[1..], b, b', q, d, d');
      WorthPositive(flows[1..], b', q, d');
      SmallerQuotient(flows[0] + WorthAt(flows[1..], b', q, d'), flows[0] + WorthAt(flows[1..], b, q, d), b', b);
    }
  }

  /** Faster growth and a narrower spread both raise the value. */
  lemma {:induction false} FasterIsWorthMore(flows: seq<real>, b: real, q: real, q': real, d: real, d': real)
    requires GrowingCompany(flows) && b > 0.0 && 0.0 < q < q' && 0.0 < d' < d
    ensures WorthAt(flows, b, q, d) < WorthAt(flows, b, q', d')
  {
    if |flows| == 1 {
      var next, next' := Times(flows[0], q), Times(flows[0], q');
      TimesPositive(flows[0], q);
      TimesStrict(flows[0], q, q');
      SmallerQuotient(next, next', d, d');
      SmallerNumerator(flows[0] + Over(next, d), flows[0] + Over(next', d'), b);
    } else {
      FasterIsWorthMore(flows[1..], b, q, q', d, d');
      SmallerNumerator(flows[0] + WorthAt(flows[1..], b, q, d), flows[0] + WorthAt(flows[1..], b, q', d'), b);
    }
  }

  /** Two filled cells of one column: the one with the dearer capital is strictly lower.
      Two filled cells of one row: the one with the faster growth is strictly higher. */
  lemma GridIsMonotone(flows: seq<real>, w: real, w': real, g: real, g': real)
    requires GrowingCompany(flows) && 0.0 < w < w' && -1.0 < g < g'
    requires !Bad(flows, w, g) && !Bad(flows, w', g) && !Bad(flows, w, g')
    ensures CellOf(flows, w, g).Value? ==>
              CellOf(flows, w', g).Value? && CellOf(flows, w', g).v < CellOf(flows, w, g).v
    ensures CellOf(flows, w, g').Value? ==>
              CellOf(flows, w, g).Value? && CellOf(flows, w, g).v < CellOf(flows, w, g').v
  {
    if w > g {
      DearerIsWorthLess(flows, 1.0 + w, 1.0 + w', 1.0 + g, w - g, w' - g);
      FormulaIsWorth(flows, 1.0 + w, 1.0 + g, w - g);
      FormulaIsWorth(flows, 1.0 + w', 1.0 + g, w' - g);
    }
    if w > g' {
      FasterIsWorthMore(flows, 1.0 + w, 1.0 + g, 1.0 + g', w - g, w - g');
      FormulaIsWorth(flows, 1.0 + w, 1.0 + g', w - g');
    }
  }
}
