/**
 Progressive personal income tax (impôt sur le revenu). The household's income is
 divided by its family quotient, the per-part income is walked through the
 five-bracket table, the per-part tax is scaled back up by the quotient, and the
 décote is taken off.
 */
module PersonalIncomeTax {
  import opened Brackets
  import opened Rebate

  /**
   The income-tax table exactly as the library states it. The third bracket ends
   at 82341 but the fourth starts at 82342, so per-part income between the two is
   taxed by neither.
   */
  const IncomeTaxBrackets: seq<Bracket> := [
    Bracket(0.0, Finite(11294.0), 0.0),
    Bracket(11294.0, Finite(28797.0), 0.11),
    Bracket(28797.0, Finite(82341.0), 0.3),
    Bracket(82342.0, Finite(177106.0), 0.41),
    Bracket(177106.0, Unbounded, 0.45)
  ]

  /** Highest rate of the table. */
  const TopRate: real := 0.45

  /**
   The household's tax before and after the décote, the décote itself, and the
   breakdown: one entry per bracket reached, with its range and amounts scaled by
   the quotient.
   */
  datatype IncomeTaxResult = IncomeTaxResult(tax: real, taxAfterDecote: real, breakdown: seq<Entry>, decote: real)

  function ScaleBound(hi: Bound, quotient: real): Bound
  {
    match hi
    case Finite(v) => Finite(v * quotient)
    case Unbounded => Unbounded
  }

  /** A per-part breakdown entry restated for the whole household. */
  function ScaleEntry(e: Entry, quotient: real): Entry
  {
    Entry(e.lo * quotient, ScaleBound(e.hi, quotient), e.taxable * quotient, e.amount * quotient)
  }

  function ScaleEntries(es: seq<Entry>, quotient: real): (r: seq<Entry>)
    ensures |r| == |es|
    ensures forall i :: 0 <= i < |es| ==> r[i] == ScaleEntry(es[i], quotient)
  {
    seq(|es|, i requires 0 <= i < |es| => ScaleEntry(es[i], quotient))
  }

  /** Scaling every entry scales the sum of their amounts. */
  lemma {:induction false} ScaledSum(es: seq<Entry>, quotient: real)
    ensures SumAmounts(ScaleEntries(es, quotient)) == SumAmounts(es) * quotient
  {
    if |es| > 0 {
      assert ScaleEntries(es, quotient)[1..] == ScaleEntries(es[1..], quotient);
      ScaledSum(es[1..], quotient);
    }
  }

  lemma TableIsLayered()
    ensures Layered(IncomeTaxBrackets)
    ensures AllWellFormed(IncomeTaxBrackets)
    ensures forall i :: 0 <= i < |IncomeTaxBrackets| ==> IncomeTaxBrackets[i].rate <= TopRate
  {
    var t := IncomeTaxBrackets;
    assert t[1..] == [t[1], t[2], t[3], t[4]];
    assert t[1..][1..] == [t[2], t[3], t[4]];
    assert t[1..][1..][1..] == [t[3], t[4]];
    assert t[1..][1..][1..][1..] == [t[4]];
    assert t[1..][1..][1..][1..][1..] == [];
    LayeredWellFormed(t);
  }

  /** The per-part tax of the table scaled back up to the household. */
  function HouseholdTax(profit: real, quotient: real): real
    requires quotient != 0.0
  {
    Evaluate(IncomeTaxBrackets, profit / quotient).total * quotient
  }

  /**
   The household's income tax. The quotient must be non-zero: the library divides
   by it.
   */
  function IncomeTax(profit: real, quotient: real): (r: IncomeTaxResult)
    requires quotient != 0.0
    ensures r.decote == Decote(r.tax, quotient)
    ensures 0.0 <= r.taxAfterDecote
    ensures 0.0 <= r.tax ==> r.taxAfterDecote <= r.tax
    ensures |r.breakdown| <= |IncomeTaxBrackets|
  {
    var perPart := Evaluate(IncomeTaxBrackets, profit / quotient);
    var tax := HouseholdTax(profit, quotient);
    var decote := Decote(tax, quotient);
    IncomeTaxResult(tax, Max(0.0, tax - decote), ScaleEntries(perPart.entries, quotient), decote)
  }

  lemma ScaleEntriesSnoc(es: seq<Entry>, e: Entry, quotient: real)
    ensures ScaleEntries(es + [e], quotient) == ScaleEntries(es, quotient) + [ScaleEntry(e, quotient)]
  {
  }

  /**
   One step of the loop in `WalkBrackets`: if the running total and breakdown are
   those of the walk over the first `i` brackets, then adding bracket `i`'s tax and
   pushing its scaled entry, when the bracket is reached, gives the walk over the
   first `i + 1` brackets.
   */
  lemma WalkStep(table: seq<Bracket>, i: nat, x: real, quotient: real, tax: real, breakdown: seq<Entry>)
    requires i < |table|
    requires tax == Evaluate(table[..i], x).total
    requires breakdown == ScaleEntries(Evaluate(table[..i], x).entries, quotient)
    ensures Reaches(table[i], x) ==>
              && tax + EntryFor(table[i], x).amount == Evaluate(table[..i + 1], x).total
              && breakdown + [ScaleEntry(EntryFor(table[i], x), quotient)]
                 == ScaleEntries(Evaluate(table[..i + 1], x).entries, quotient)
    ensures !Reaches(table[i], x) ==>
              && tax == Evaluate(table[..i + 1], x).total
              && breakdown == ScaleEntries(Evaluate(table[..i + 1], x).entries, quotient)
  {
    assert table[..i + 1] == table[..i] + [table[i]];
    EvaluateSnoc(table[..i], table[i], x);
    ScaleEntriesSnoc(Evaluate(table[..i], x).entries, EntryFor(table[i], x), quotient);
  }

  /**
   The body of the loop for a reached bracket: the taxable amount, clamped to the
   bracket, times the rate, and the breakdown entry with range and amounts scaled
   by the quotient.
   */
  method BracketStep(b: Bracket, incomePerPart: real, quotient: real) returns (taxForBracket: real, entry: Entry)
    ensures taxForBracket == EntryFor(b, incomePerPart).amount
    ensures entry == ScaleEntry(EntryFor(b, incomePerPart), quotient)
  {
    var taxableAmount := Taxable(b, incomePerPart);
    taxForBracket := taxableAmount * b.rate;
    entry := Entry(b.min * quotient, ScaleBound(b.max, quotient),
                   taxableAmount * quotient, taxForBracket * quotient);
  }

  /**
   The loop of the library's income-tax calculation over an arbitrary table: one
   pass that accumulates the per-part tax and pushes a breakdown entry, scaled by
   the quotient, for every bracket the per-part income exceeds.
   */
  method WalkBrackets(table: seq<Bracket>, incomePerPart: real, quotient: real)
    returns (tax: real, breakdown: seq<Entry>)
    ensures tax == Evaluate(table, incomePerPart).total
    ensures breakdown == ScaleEntries(Evaluate(table, incomePerPart).entries, quotient)
  {
    breakdown := [];
    tax := 0.0;
    var i := 0;
    while i < |table|
      invariant 0 <= i <= |table|
      invariant tax == Evaluate(table[..i], incomePerPart).total
      invariant breakdown == ScaleEntries(Evaluate(table[..i], incomePerPart).entries, quotient)
    {
      var b := table[i];
      WalkStep(table, i, incomePerPart, quotient, tax, breakdown);
      if incomePerPart > b.min {
        var taxForBracket, entry := BracketStep(b, incomePerPart, quotient);
        tax := tax + taxForBracket;
        breakdown := breakdown + [entry];
      }
      i := i + 1;
    }
    assert table[..i] == table;
  }

  /**
   The library's income-tax calculation: the bracket loop at the per-part income,
   then the scaling of the tax by the quotient and the décote.
   */
  method CalculateIR(profit: real, quotient: real) returns (r: IncomeTaxResult)
    requires quotient != 0.0
    ensures r == IncomeTax(profit, quotient)
  {
    var incomePerPart := profit / quotient;
    var tax, breakdown := WalkBrackets(IncomeTaxBrackets, incomePerPart, quotient);
    tax := tax * quotient;
    assert tax == HouseholdTax(profit, quotient);
    var decote := Decote(tax, quotient);
    var taxAfterDecote := Max(0.0, tax - decote);
    r := IncomeTaxResult(tax, taxAfterDecote, breakdown, decote);
  }

  /**
   The per-part tax in closed form, one piece per bracket, including the flat
   piece across the gap between 82341 and 82342.
   */
  lemma PerPartClosedForm(x: real)
    ensures var t := Evaluate(IncomeTaxBrackets, x).total;
            && (x <= 11294.0 ==> t == 0.0)
            && (11294.0 < x <= 28797.0 ==> t == 0.11 * (x - 11294.0))
            && (28797.0 < x <= 82341.0 ==> t == 1925.33 + 0.3 * (x - 28797.0))
            && (82341.0 < x <= 82342.0 ==> t == 17988.53)
            && (82342.0 < x <= 177106.0 ==> t == 17988.53 + 0.41 * (x - 82342.0))
            && (177106.0 < x ==> t == 56841.77 + 0.45 * (x - 177106.0))
  {
    var t := IncomeTaxBrackets;
    assert t[1..] == [t[1], t[2], t[3], t[4]];
    assert t[1..][1..] == [t[2], t[3], t[4]];
    assert t[1..][1..][1..] == [t[3], t[4]];
    assert t[1..][1..][1..][1..] == [t[4]];
    assert t[1..][1..][1..][1..][1..] == [];
    var e4 := Evaluate([t[4]], x).total;
    assert e4 == if x > 177106.0 then (x - 177106.0) * 0.45 else 0.0;
    var e3 := Evaluate([t[3], t[4]], x).total;
    assert e3 == if x > 82342.0 then Min(94764.0, x - 82342.0) * 0.41 + e4 else e4;
    var e2 := Evaluate([t[2], t[3], t[4]], x).total;
    assert e2 == if x > 28797.0 then Min(53544.0, x - 28797.0) * 0.3 + e3 else e3;
    var e1 := Evaluate([t[1], t[2], t[3], t[4]], x).total;
    assert e1 == if x > 11294.0 then Min(17503.0, x - 11294.0) * 0.11 + e2 else e2;
    var e0 := Evaluate(t, x).total;
    assert e0 == if x > 0.0 then Min(11294.0, x) * 0.0 + e1 else e1;
  }

  /** How the result of `IncomeTax` is put together, for the lemmas below. */
  lemma IncomeTaxParts(profit: real, quotient: real)
    requires quotient != 0.0
    ensures var r := IncomeTax(profit, quotient);
            && r.tax == HouseholdTax(profit, quotient)
            && r.taxAfterDecote == TaxAfterDecote(r.tax, quotient)
            && r.breakdown == ScaleEntries(Evaluate(IncomeTaxBrackets, profit / quotient).entries, quotient)
  {
  }

  lemma DivideMonotone(p1: real, p2: real, quotient: real)
    requires p1 <= p2 && 0.0 < quotient
    ensures p1 / quotient <= p2 / quotient
  {
    assert p2 / quotient - p1 / quotient == (p2 - p1) / quotient;
  }

  lemma ScaleMonotone(a: real, b: real, quotient: real)
    requires a <= b && 0.0 < quotient
    ensures a * quotient <= b * quotient
  {
    assert (b - a) * quotient >= 0.0;
  }

  /** For a fixed positive quotient the household tax never decreases as income grows. */
  lemma HouseholdTaxMonotone(profit1: real, profit2: real, quotient: real)
    requires profit1 <= profit2 && 0.0 < quotient
    ensures HouseholdTax(profit1, quotient) <= HouseholdTax(profit2, quotient)
  {
    TableIsLayered();
    var x1, x2 := profit1 / quotient, profit2 / quotient;
    DivideMonotone(profit1, profit2, quotient);
    EvaluateMonotone(IncomeTaxBrackets, x1, x2);
    ScaleMonotone(Evaluate(IncomeTaxBrackets, x1).total, Evaluate(IncomeTaxBrackets, x2).total, quotient);
  }

  /** With a positive quotient the household tax is never negative. */
  lemma HouseholdTaxNonNegative(profit: real, quotient: real)
    requires 0.0 < quotient
    ensures 0.0 <= HouseholdTax(profit, quotient)
  {
    TableIsLayered();
    EvaluateNonNegative(IncomeTaxBrackets, profit / quotient);
    ScaleMonotone(0.0, Evaluate(IncomeTaxBrackets, profit / quotient).total, quotient);
  }

  /** The breakdown shown to the caller adds up to the tax before the décote. */
  lemma BreakdownSumsToTax(profit: real, quotient: real)
    requires quotient != 0.0
    ensures SumAmounts(IncomeTax(profit, quotient).breakdown) == IncomeTax(profit, quotient).tax
  {
    IncomeTaxParts(profit, quotient);
    ScaledSum(Evaluate(IncomeTaxBrackets, profit / quotient).entries, quotient);
  }

  /** No tax at all is due while the per-part income stays within the zero-rate bracket. */
  lemma IncomeTaxZeroInFirstBracket(profit: real, quotient: real)
    requires 0.0 < quotient && profit / quotient <= 11294.0
    ensures IncomeTax(profit, quotient).tax == 0.0
    ensures IncomeTax(profit, quotient).taxAfterDecote == 0.0
  {
    PerPartClosedForm(profit / quotient);
    IncomeTaxParts(profit, quotient);
    AfterDecoteClosedForm(0.0, quotient);
  }

  /**
   The gap in the table: per-part income anywhere between 82341 and 82342 owes the
   same tax, so the last unit below the fourth bracket is taxed at no rate at all.
   */
  lemma GapAddsNothing(profit1: real, profit2: real, quotient: real)
    requires 0.0 < quotient
    requires 82341.0 <= profit1 / quotient <= 82342.0
    requires 82341.0 <= profit2 / quotient <= 82342.0
    ensures IncomeTax(profit1, quotient).tax == IncomeTax(profit2, quotient).tax
  {
    HouseholdFlatInGap(profit1, quotient);
    HouseholdFlatInGap(profit2, quotient);
    IncomeTaxParts(profit1, quotient);
    IncomeTaxParts(profit2, quotient);
  }

  lemma HouseholdFlatInGap(profit: real, quotient: real)
    requires 0.0 < quotient
    requires 82341.0 <= profit / quotient <= 82342.0
    ensures HouseholdTax(profit, quotient) == 17988.53 * quotient
  {
    PerPartFlatInGap(profit / quotient);
  }

  /** Per-part income between the end of the third bracket and the start of the fourth owes the same per-part tax. */
  lemma PerPartFlatInGap(x: real)
    requires 82341.0 <= x <= 82342.0
    ensures Evaluate(IncomeTaxBrackets, x).total == 17988.53
  {
    PerPartClosedForm(x);
  }

  /**
   The breakdown has one entry for each bracket the per-part income exceeds, in
   table order, and none for any other bracket; each entry is that bracket's
   range, taxable amount and tax, scaled by the quotient.
   */
  lemma BreakdownFollowsTable(profit: real, quotient: real)
    requires quotient != 0.0
    ensures var r, x := IncomeTax(profit, quotient), profit / quotient;
            && (forall i :: 0 <= i < |IncomeTaxBrackets| ==>
                  (IncomeTaxBrackets[i].min < x <==> i < |r.breakdown|))
            && (forall i :: 0 <= i < |r.breakdown| ==>
                  r.breakdown[i] == ScaleEntry(EntryFor(IncomeTaxBrackets[i], x), quotient))
  {
    TableIsLayered();
    IncomeTaxParts(profit, quotient);
    EntriesFollowTable(IncomeTaxBrackets, profit / quotient);
  }

  /**
   For a fixed positive quotient, more income never means less tax, before or
   after the décote.
   */
  lemma IncomeTaxMonotone(profit1: real, profit2: real, quotient: real)
    requires profit1 <= profit2 && 0.0 < quotient
    ensures IncomeTax(profit1, quotient).tax <= IncomeTax(profit2, quotient).tax
    ensures IncomeTax(profit1, quotient).taxAfterDecote <= IncomeTax(profit2, quotient).taxAfterDecote
  {
    HouseholdTaxMonotone(profit1, profit2, quotient);
    IncomeTaxParts(profit1, quotient);
    IncomeTaxParts(profit2, quotient);
    AfterDecoteMonotone(HouseholdTax(profit1, quotient), HouseholdTax(profit2, quotient), quotient);
  }

  /**
   The tax before the décote never exceeds the top rate applied to the whole
   income: the brackets do not overlap.
   */
  lemma IncomeTaxWithinTopRate(profit: real, quotient: real)
    requires 0.0 <= profit && 0.0 < quotient
    ensures IncomeTax(profit, quotient).tax <= TopRate * profit
  {
    HouseholdTaxWithinTopRate(profit, quotient);
    IncomeTaxParts(profit, quotient);
  }

  lemma HouseholdTaxWithinTopRate(profit: real, quotient: real)
    requires 0.0 <= profit && 0.0 < quotient
    ensures HouseholdTax(profit, quotient) <= TopRate * profit
  {
    TableIsLayered();
    EvaluateWithinCap(IncomeTaxBrackets, profit / quotient, TopRate);
    assert IncomeTaxBrackets[0].min == 0.0;
    ScaleWithinRate(Evaluate(IncomeTaxBrackets, profit / quotient).total, profit, quotient, TopRate);
  }

  /** A per-part amount within `rate` of the per-part income scales to within `rate` of the whole income. */
  lemma ScaleWithinRate(t: real, profit: real, quotient: real, rate: real)
    requires 0.0 <= profit && 0.0 < quotient && 0.0 <= rate
    requires t <= rate * Max(0.0, profit / quotient)
    ensures t * quotient <= rate * profit
  {
    var x := profit / quotient;
    assert 0.0 <= x;
    ScaleMonotone(t, rate * x, quotient);
    assert rate * x * quotient == rate * (x * quotient);
  }

  /**
   With a positive quotient the tax after the décote lies between zero and the
   tax before it.
   */
  lemma AfterDecoteWithinTax(profit: real, quotient: real)
    requires 0.0 < quotient
    ensures 0.0 <= IncomeTax(profit, quotient).taxAfterDecote <= IncomeTax(profit, quotient).tax
  {
    HouseholdTaxNonNegative(profit, quotient);
    IncomeTaxParts(profit, quotient);
  }
}
