/**
 The décote: a rebate on small amounts of personal income tax. Its threshold and
 its maximum depend on the household's family quotient, one row for a single part
 and one row for every other quotient.
 */
module Rebate {
  import opened Brackets

  /** Tax amounts above which no rebate applies, for one part and for two parts. */
  const DecoteApplicationThreshold: seq<real> := [1929.0, 3191.0]

  /** The largest rebate, for one part and for two parts. */
  const DecoteMaximum: seq<real> := [873.0, 1444.0]

  /** Share of the tax subtracted from the maximum rebate. */
  const DecotePercentage: real := 0.4525

  /** Row of the rebate tables: the one-part row for a quotient of exactly 1, the two-part row otherwise. */
  function PartsRow(quotient: real): (i: nat)
    ensures i < |DecoteApplicationThreshold| && i < |DecoteMaximum|
    ensures i == 0 <==> quotient == 1.0
  {
    if quotient == 1.0 then 0 else 1
  }

  function Threshold(quotient: real): real
  {
    DecoteApplicationThreshold[PartsRow(quotient)]
  }

  function DecoteMax(quotient: real): real
  {
    DecoteMaximum[PartsRow(quotient)]
  }

  /**
   The rebate on `tax`. Up to the threshold it is the maximum less the rebate
   percentage of the tax, but never more than the tax itself; above the threshold
   there is none. Within the threshold it is always positive for positive tax,
   since the maximum exceeds the percentage of the threshold.
   */
  function Decote(tax: real, quotient: real): (r: real)
    ensures Threshold(quotient) < tax ==> r == 0.0
    ensures tax <= Threshold(quotient) ==> r == Min(tax, DecoteMax(quotient) - tax * DecotePercentage)
    ensures 0.0 <= tax ==> 0.0 <= r <= tax && r <= DecoteMax(quotient)
    ensures 0.0 < tax <= Threshold(quotient) ==> 0.0 < r
  {
    var decoteThreshold := Threshold(quotient);
    var decoteMax := DecoteMax(quotient);
    if tax <= decoteThreshold then
      var decote := decoteMax - tax * DecotePercentage;
      if tax - decote > 0.0 then decoteMax - tax * DecotePercentage else tax
    else
      0.0
  }

  /** The tax that remains once the rebate is taken off, floored at zero. */
  function TaxAfterDecote(tax: real, quotient: real): (r: real)
    ensures 0.0 <= r
    ensures 0.0 <= tax ==> r <= tax
    ensures Threshold(quotient) < tax ==> r == tax
  {
    Max(0.0, tax - Decote(tax, quotient))
  }

  /**
   Within the threshold the remaining tax has the closed form
   `max(0, (1 + percentage) * tax - maximum)`.
   */
  lemma AfterDecoteClosedForm(tax: real, quotient: real)
    requires tax <= Threshold(quotient)
    ensures TaxAfterDecote(tax, quotient) == Max(0.0, (1.0 + DecotePercentage) * tax - DecoteMax(quotient))
  {
  }

  /**
   The remaining tax never decreases as the tax grows, even across the threshold:
   at the threshold the remaining tax is still below the threshold, and above it
   the whole tax remains.
   */
  lemma AfterDecoteMonotone(tax1: real, tax2: real, quotient: real)
    requires tax1 <= tax2
    ensures TaxAfterDecote(tax1, quotient) <= TaxAfterDecote(tax2, quotient)
  {
    var threshold := Threshold(quotient);
    if tax2 <= threshold {
      AfterDecoteClosedForm(tax1, quotient);
      AfterDecoteClosedForm(tax2, quotient);
    } else if tax1 <= threshold {
      AfterDecoteClosedForm(tax1, quotient);
      assert (1.0 + DecotePercentage) * threshold - DecoteMax(quotient) < threshold;
    }
  }

  /**
   A reading of the rebate that floors the formula at zero instead of capping it
   at the tax: `max(0, maximum - percentage * tax)` within the threshold, none
   above it.
   */
  function UncappedDecote(tax: real, quotient: real): (r: real)
    ensures 0.0 <= r
    ensures Threshold(quotient) < tax ==> r == 0.0
  {
    if tax <= Threshold(quotient) then Max(0.0, DecoteMax(quotient) - tax * DecotePercentage) else 0.0
  }

  /**
   The two readings leave the same tax after the rebate, for every tax: where
   they differ, both rebates reach or exceed the tax and the floor at zero
   absorbs the difference.
   */
  lemma UncappedDecoteSameRemainder(tax: real, quotient: real)
    ensures TaxAfterDecote(tax, quotient) == Max(0.0, tax - UncappedDecote(tax, quotient))
  {
  }

  /**
   The rebates themselves differ exactly when the tax is below `maximum / 1.4525`:
   the library then gives back the tax, the uncapped reading the larger formula.
   */
  lemma UncappedDecoteDiffers(tax: real, quotient: real)
    ensures Decote(tax, quotient) != UncappedDecote(tax, quotient)
            <==> (1.0 + DecotePercentage) * tax < DecoteMax(quotient)
    ensures (1.0 + DecotePercentage) * tax < DecoteMax(quotient)
            ==> Decote(tax, quotient) == tax < UncappedDecote(tax, quotient)
  {
  }

  /** One part, a tax of 100: the library's rebate is 100, the uncapped reading's is 827.75. */
  lemma UncappedDecoteExample()
    ensures Decote(100.0, 1.0) == 100.0
    ensures UncappedDecote(100.0, 1.0) == 827.75
  {
  }
}
