/**
 Corporate tax (impôt sur les sociétés). A company whose profit is at most the
 small-business revenue threshold is taxed through a two-bracket table: the reduced
 rate up to 42500 and the standard rate above. Any larger profit is taxed at the
 standard rate as a whole.
 */
module CorporateIncomeTax {
  import opened Brackets

  /** Profit above which the reduced-rate table no longer applies. */
  const PmeRevenueThreshold: real := 10000000.0

  const ReducedRate: real := 0.15

  const StandardRate: real := 0.25

  const CorporateTaxBrackets: seq<Bracket> := [
    Bracket(0.0, Finite(42500.0), ReducedRate),
    Bracket(42500.0, Unbounded, StandardRate)
  ]

  /** `min(x, hi)`, where an unbounded `hi` is `Infinity` and leaves `x` unchanged. */
  function CapAt(x: real, hi: Bound): (r: real)
    ensures r <= x
    ensures hi.Finite? ==> r <= hi.value
    ensures r == x || (hi.Finite? && r == hi.value)
  {
    match hi
    case Finite(v) => Min(x, v)
    case Unbounded => x
  }

  /** The bracket walk in closed form: reduced rate up to 42500, standard rate above. */
  lemma BracketPathClosedForm(x: real)
    ensures var t := Evaluate(CorporateTaxBrackets, x).total;
            && (x <= 0.0 ==> t == 0.0)
            && (0.0 < x <= 42500.0 ==> t == ReducedRate * x)
            && (42500.0 < x ==> t == 6375.0 + StandardRate * (x - 42500.0))
  {
    var t := CorporateTaxBrackets;
    assert t[1..] == [t[1]];
    assert t[1..][1..] == [];
    var e1 := Evaluate([t[1]], x).total;
    assert e1 == if x > 42500.0 then (x - 42500.0) * 0.25 else 0.0;
    var e0 := Evaluate(t, x).total;
    assert e0 == if x > 0.0 then Min(42500.0, x) * 0.15 + e1 else e1;
  }

  /**
   The corporate tax on `profit`: nothing on a loss, the reduced rate up to 42500,
   6375 plus the standard rate on the excess up to the threshold, and the standard
   rate on the whole profit beyond it.
   */
  function CorporateTax(profit: real): (r: real)
    ensures profit <= 0.0 ==> r == 0.0
    ensures 0.0 < profit <= 42500.0 ==> r == ReducedRate * profit
    ensures 42500.0 < profit <= PmeRevenueThreshold ==> r == 6375.0 + StandardRate * (profit - 42500.0)
    ensures PmeRevenueThreshold < profit ==> r == StandardRate * profit
  {
    BracketPathClosedForm(profit);
    if profit <= PmeRevenueThreshold then Evaluate(CorporateTaxBrackets, profit).total
    else profit * StandardRate
  }

  /** The for-of loop over the table, adding `(min(profit, max) - min) * rate` for each bracket reached. */
  method CalculateIS(profit: real) returns (tax: real)
    ensures tax == CorporateTax(profit)
  {
    tax := 0.0;
    if profit <= PmeRevenueThreshold {
      var table := CorporateTaxBrackets;
      var i := 0;
      while i < |table|
        invariant 0 <= i <= |table|
        invariant tax == Evaluate(table[..i], profit).total
      {
        var b := table[i];
        if profit > b.min {
          var taxableIncome := CapAt(profit, b.max) - b.min;
          assert taxableIncome == Taxable(b, profit);
          tax := tax + taxableIncome * b.rate;
        }
        assert table[..i + 1] == table[..i] + [b];
        EvaluateSnoc(table[..i], b, profit);
        i := i + 1;
      }
      assert table[..i] == table;
    } else {
      tax := profit * StandardRate;
    }
  }

  /**
   Above the threshold the flat rate charges exactly 4250 more than the bracket
   walk would: the reduced rate's saving on the first 42500 is lost.
   */
  lemma CorporateTaxCliff(profit: real)
    requires PmeRevenueThreshold < profit
    ensures CorporateTax(profit) == Evaluate(CorporateTaxBrackets, profit).total + 4250.0
  {
    BracketPathClosedForm(profit);
  }

  /** More profit never means less corporate tax, the jump at the threshold included. */
  lemma CorporateTaxMonotone(profit1: real, profit2: real)
    requires profit1 <= profit2
    ensures CorporateTax(profit1) <= CorporateTax(profit2)
  {
    if profit2 <= PmeRevenueThreshold {
      assert AllWellFormed(CorporateTaxBrackets);
      EvaluateMonotone(CorporateTaxBrackets, profit1, profit2);
    }
  }

  /** On a non-negative profit the tax lies between the reduced and the standard rate of the profit. */
  lemma CorporateTaxBounds(profit: real)
    requires 0.0 <= profit
    ensures ReducedRate * profit <= CorporateTax(profit) <= StandardRate * profit
  {
  }
}
