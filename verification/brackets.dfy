/**
 Progressive rate tables and the bracket walk shared by the personal income-tax
 and corporate-tax calculators.

 A table is an ordered list of brackets. Walking it at an income `x` visits every
 bracket in order; a bracket whose lower end is below `x` is "reached", taxes the
 clamped part of `x` that falls inside it, and contributes one breakdown entry.
 */
module Brackets {

  /** Upper end of a bracket: a finite amount, or `Infinity` for the last bracket of a table. */
  datatype Bound = Finite(value: real) | Unbounded

  /** One row of a rate table: income above `min`, up to `max`, is taxed at `rate`. */
  datatype Bracket = Bracket(min: real, max: Bound, rate: real)

  /** One line of a breakdown: the range it covers, the income taxed in it and the tax it yields. */
  datatype Entry = Entry(lo: real, hi: Bound, taxable: real, amount: real)

  /** The outcome of a walk: the total tax and one entry per bracket reached, in table order. */
  datatype Evaluation = Evaluation(total: real, entries: seq<Entry>)

  function Min(a: real, b: real): real
  {
    if a <= b then a else b
  }

  function Max(a: real, b: real): real
  {
    if a >= b then a else b
  }

  /** A rate is never negative and a finite bracket has positive width. */
  predicate WellFormed(b: Bracket)
  {
    0.0 <= b.rate && (b.max.Finite? ==> b.min < b.max.value)
  }

  predicate AllWellFormed(table: seq<Bracket>)
  {
    forall i :: 0 <= i < |table| ==> WellFormed(table[i])
  }

  /** Every bracket is well formed, and each one but the last ends, finitely, at or below the start of the next. */
  predicate Layered(table: seq<Bracket>)
  {
    |table| == 0 ||
    (&& WellFormed(table[0])
     && (|table| > 1 ==> table[0].max.Finite? && table[0].max.value <= table[1].min)
     && Layered(table[1..]))
  }

  /** Income `x` reaches a bracket when it is strictly above the bracket's lower end. */
  predicate Reaches(b: Bracket, x: real)
  {
    x > b.min
  }

  /**
   The part of `x` taxed in `b`: the smaller of the bracket's width and `x - min`;
   an unbounded bracket has infinite width, so it taxes all of `x - min`.
   */
  function Taxable(b: Bracket, x: real): (r: real)
    ensures b.max.Unbounded? ==> r == x - b.min
    ensures b.max.Finite? ==> r == Min(x, b.max.value) - b.min
    ensures b.max.Finite? ==> r <= b.max.value - b.min
    ensures r <= x - b.min
    ensures Reaches(b, x) && WellFormed(b) ==> 0.0 < r
  {
    match b.max
    case Finite(hi) => Min(hi - b.min, x - b.min)
    case Unbounded => x - b.min
  }

  /** The breakdown entry of a reached bracket. */
  function EntryFor(b: Bracket, x: real): Entry
  {
    var taxable := Taxable(b, x);
    Entry(b.min, b.max, taxable, taxable * b.rate)
  }

  /** Sum of the tax amounts of a breakdown. */
  function SumAmounts(entries: seq<Entry>): real
  {
    if |entries| == 0 then 0.0 else entries[0].amount + SumAmounts(entries[1..])
  }

  /** Walks `table` at income `x`. */
  function Evaluate(table: seq<Bracket>, x: real): (r: Evaluation)
    ensures r.total == SumAmounts(r.entries)
    ensures |r.entries| <= |table|
  {
    if |table| == 0 then Evaluation(0.0, [])
    else
      var rest := Evaluate(table[1..], x);
      if Reaches(table[0], x) then
        var e := EntryFor(table[0], x);
        assert ([e] + rest.entries)[1..] == rest.entries;
        Evaluation(e.amount + rest.total, [e] + rest.entries)
      else
        rest
  }

  /** Walking one more bracket at the end extends the walk of the prefix, as a left-to-right loop does. */
  lemma {:induction false} EvaluateSnoc(table: seq<Bracket>, b: Bracket, x: real)
    ensures Evaluate(table + [b], x)
         == if Reaches(b, x)
            then Evaluation(Evaluate(table, x).total + EntryFor(b, x).amount,
                            Evaluate(table, x).entries + [EntryFor(b, x)])
            else Evaluate(table, x)
  {
    if |table| == 0 {
      assert table + [b] == [b];
      assert [b][1..] == [];
    } else {
      assert (table + [b])[1..] == table[1..] + [b];
      EvaluateSnoc(table[1..], b, x);
    }
  }

  lemma AllWellFormedTail(table: seq<Bracket>)
    requires |table| > 0 && AllWellFormed(table)
    ensures WellFormed(table[0]) && AllWellFormed(table[1..])
  {
    assert forall i :: 0 <= i < |table[1..]| ==> table[1..][i] == table[i + 1];
  }

  lemma {:induction false} LayeredWellFormed(table: seq<Bracket>)
    requires Layered(table)
    ensures AllWellFormed(table)
  {
    if |table| > 0 {
      LayeredWellFormed(table[1..]);
      assert forall i :: 1 <= i < |table| ==> table[i] == table[1..][i - 1];
    }
  }

  /** A reached well-formed bracket yields a non-negative amount that grows with income. */
  lemma EntryAmountMonotone(b: Bracket, x1: real, x2: real)
    requires WellFormed(b) && Reaches(b, x1) && x1 <= x2
    ensures 0.0 <= EntryFor(b, x1).amount <= EntryFor(b, x2).amount
  {
    var t1, t2 := Taxable(b, x1), Taxable(b, x2);
    assert 0.0 < t1 <= t2;
    assert (t2 - t1) * b.rate >= 0.0;
  }

  /** With non-negative rates the total is never negative. */
  lemma {:induction false} EvaluateNonNegative(table: seq<Bracket>, x: real)
    requires AllWellFormed(table)
    ensures 0.0 <= Evaluate(table, x).total
  {
    if |table| > 0 {
      AllWellFormedTail(table);
      EvaluateNonNegative(table[1..], x);
      if Reaches(table[0], x) {
        EntryAmountMonotone(table[0], x, x);
      }
    }
  }

  /** The total is non-decreasing in income: rates are non-negative and every clamped width grows with income. */
  lemma {:induction false} EvaluateMonotone(table: seq<Bracket>, x1: real, x2: real)
    requires AllWellFormed(table) && x1 <= x2
    ensures Evaluate(table, x1).total <= Evaluate(table, x2).total
  {
    if |table| > 0 {
      AllWellFormedTail(table);
      EvaluateMonotone(table[1..], x1, x2);
      if Reaches(table[0], x1) {
        EntryAmountMonotone(table[0], x1, x2);
      } else if Reaches(table[0], x2) {
        EntryAmountMonotone(table[0], x2, x2);
      }
    }
  }

  /**
   In a layered table the reached brackets are exactly a prefix of the table: the
   i-th entry belongs to the i-th bracket, and bracket i is reached iff there is an
   i-th entry.
   */
  lemma {:induction false} EntriesFollowTable(table: seq<Bracket>, x: real)
    requires Layered(table)
    ensures var es := Evaluate(table, x).entries;
            && (forall i :: 0 <= i < |table| ==> (Reaches(table[i], x) <==> i < |es|))
            && (forall i :: 0 <= i < |es| ==> es[i] == EntryFor(table[i], x))
  {
    if |table| > 0 {
      EntriesFollowTable(table[1..], x);
      var rest := Evaluate(table[1..], x).entries;
      assert forall i :: 0 <= i < |table[1..]| ==> table[1..][i] == table[i + 1];
      if !Reaches(table[0], x) && |table| > 1 {
        assert !Reaches(table[1..][0], x);
      }
    }
  }

  lemma MulBound(a: real, b: real, c: real, d: real)
    requires 0.0 <= a <= b && 0.0 <= c <= d
    ensures a * c <= b * d
  {
    assert a * c <= b * c by {
      assert (b - a) * c >= 0.0;
    }
    assert b * c <= b * d by {
      assert b * (d - c) >= 0.0;
    }
  }

  /**
   In a layered table whose rates are all at most `cap`, the total never exceeds
   `cap` applied to the income above the table's first lower end: brackets do not
   overlap, so no part of the income is taxed twice.
   */
  lemma {:induction false} EvaluateWithinCap(table: seq<Bracket>, x: real, cap: real)
    requires |table| > 0 && Layered(table) && 0.0 <= cap
    requires forall i :: 0 <= i < |table| ==> table[i].rate <= cap
    ensures Evaluate(table, x).total <= cap * Max(0.0, x - table[0].min)
  {
    var b, tail := table[0], table[1..];
    var restTotal := Evaluate(tail, x).total;
    assert Evaluate(table, x).total == OwnAmount(b, x) + restTotal;
    assert b.rate <= cap;
    if |tail| == 0 {
      assert restTotal == 0.0;
      OwnWithinCap(b, x, cap);
    } else {
      assert forall i :: 0 <= i < |tail| ==> tail[i] == table[i + 1];
      EvaluateWithinCap(tail, x, cap);
      CapStep(b, tail[0].min, x, cap, restTotal);
    }
  }

  /** The tax a single bracket contributes to a walk at `x`. */
  function OwnAmount(b: Bracket, x: real): real
  {
    if Reaches(b, x) then EntryFor(b, x).amount else 0.0
  }

  /** One bracket alone stays within `cap` times the income above its lower end. */
  lemma OwnWithinCap(b: Bracket, x: real, cap: real)
    requires WellFormed(b) && b.rate <= cap
    ensures OwnAmount(b, x) <= cap * Max(0.0, x - b.min)
  {
    if Reaches(b, x) {
      MulBound(Taxable(b, x), x - b.min, b.rate, cap);
    }
  }

  /** The inductive step of `EvaluateWithinCap`: a first bracket that ends before the rest of the table begins. */
  lemma CapStep(b: Bracket, next: real, x: real, cap: real, restTotal: real)
    requires WellFormed(b) && b.rate <= cap && 0.0 <= cap
    requires b.max.Finite? && b.max.value <= next
    requires restTotal <= cap * Max(0.0, x - next)
    ensures OwnAmount(b, x) + restTotal <= cap * Max(0.0, x - b.min)
  {
    OwnWithinCap(b, x, cap);
    if x <= b.max.value {
      RestVanishes(x, next, cap, restTotal);
    } else {
      assert Taxable(b, x) == b.max.value - b.min;
      CapSplit(b.min, b.max.value, next, x, b.rate, cap, OwnAmount(b, x), restTotal);
    }
  }

  /** An amount bounded by `cap * max(0, x - next)` is at most zero when `x` does not exceed `next`. */
  lemma RestVanishes(x: real, next: real, cap: real, restTotal: real)
    requires x <= next && 0.0 <= cap
    requires restTotal <= cap * Max(0.0, x - next)
    ensures restTotal <= 0.0
  {
  }

  /** The step of `CapStep` for income beyond the first bracket. */
  lemma CapSplit(lo: real, hi: real, next: real, x: real, rate: real, cap: real, own: real, restTotal: real)
    requires lo < hi <= next && hi < x && 0.0 <= rate <= cap
    requires own == (hi - lo) * rate
    requires restTotal <= cap * Max(0.0, x - next)
    ensures own + restTotal <= cap * Max(0.0, x - lo)
  {
    MulBound(hi - lo, hi - lo, rate, cap);
    MulBound(Max(0.0, x - next), x - hi, cap, cap);
    assert cap * (hi - lo) + cap * (x - hi) == cap * (x - lo);
  }
}
