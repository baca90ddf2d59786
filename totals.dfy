/**
 * The totals engine shared by the quote and the invoice (`recalcAll`): line
 * amounts, subtotal, taxable base, discount, the tax on the discounted
 * taxable base, fees and grand total; and the quote's deposit field
 * (`updateDeposit`). Amounts are exact reals here; the browser computes them
 * in binary floating point.
 */
module Totals {
  import opened Base
  import opened Numbers

  /** An item row as typed: quantity and price text, and the taxable checkbox. */
  datatype ItemRow = ItemRow(qty: string, price: string, taxable: bool)

  /** An item row as read: `parseNum` of its quantity and price. */
  datatype Line = Line(qty: real, price: real, taxable: bool)

  function ReadLine(row: ItemRow, parseFloat: string -> Option<real>): (l: Line)
    ensures l.qty == ParseNum(Some(row.qty), parseFloat) && l.price == ParseNum(Some(row.price), parseFloat)
    ensures l.taxable == row.taxable
  {
    Line(ParseNum(Some(row.qty), parseFloat), ParseNum(Some(row.price), parseFloat), row.taxable)
  }

  function ReadLines(rows: seq<ItemRow>, parseFloat: string -> Option<real>): (lines: seq<Line>)
    ensures |lines| == |rows|
    ensures forall i :: 0 <= i < |rows| ==> lines[i] == ReadLine(rows[i], parseFloat)
  {
    if rows == [] then []
    else ReadLines(rows[..|rows| - 1], parseFloat) + [ReadLine(rows[|rows| - 1], parseFloat)]
  }

  function Amount(l: Line): real {
    l.qty * l.price
  }

  /** The sum of the line amounts, added in row order. */
  function Subtotal(lines: seq<Line>): (s: real)
    ensures (forall i :: 0 <= i < |lines| ==> Amount(lines[i]) >= 0.0) ==> s >= 0.0
  {
    if lines == [] then 0.0
    else Subtotal(lines[..|lines| - 1]) + Amount(lines[|lines| - 1])
  }

  /** The sum of the amounts of the taxable lines, added in row order. */
  function TaxableBase(lines: seq<Line>): (t: real)
    ensures (forall i :: 0 <= i < |lines| ==> Amount(lines[i]) >= 0.0) ==> t >= 0.0
    ensures (forall i :: 0 <= i < |lines| ==> !lines[i].taxable) ==> t == 0.0
  {
    if lines == [] then 0.0
    else
      var l := lines[|lines| - 1];
      TaxableBase(lines[..|lines| - 1]) + (if l.taxable then Amount(l) else 0.0)
  }

  /** The discount and tax settings, as read from the form. */
  datatype Pricing = Pricing(percent: bool, discountValue: real, taxRatePct: real, fees: real)

  /** The discount, tax and fee fields of the form; a missing element is `None`. */
  datatype PricingForm = PricingForm(discountType: Option<string>, discountValue: Option<string>,
                                     taxRate: string, fees: string)

  /**
   * With the discount toggle off the type reads as 'amount' and the value as
   * 0, whatever the fields hold.
   */
  function ReadPricing(discountEnabled: bool, form: PricingForm, parseFloat: string -> Option<real>): (p: Pricing)
    ensures !discountEnabled ==> !p.percent && p.discountValue == 0.0
    ensures p.taxRatePct == ParseNum(Some(form.taxRate), parseFloat)
    ensures p.fees == ParseNum(Some(form.fees), parseFloat)
  {
    Pricing(discountEnabled && form.discountType == Some("percent"),
            if discountEnabled then ParseNum(form.discountValue, parseFloat) else 0.0,
            ParseNum(Some(form.taxRate), parseFloat),
            ParseNum(Some(form.fees), parseFloat))
  }

  /** What `recalcAll` displays. */
  datatype Summary = Summary(subtotal: real, taxableBase: real, discount: real,
                             discounted: real, taxBase: real, tax: real, grand: real)

  /** A percentage discount is `subtotal * (value / 100)`; an amount discount is the value itself. */
  function DiscountOf(p: Pricing, subtotal: real): (d: real)
    ensures p.percent ==> d == subtotal * (p.discountValue / 100.0)
    ensures !p.percent ==> d == p.discountValue
    ensures p.percent && subtotal >= 0.0 && 0.0 <= p.discountValue <= 100.0 ==> 0.0 <= d <= subtotal
    ensures p.percent && p.discountValue == 100.0 ==> d == subtotal
    ensures p.percent && p.discountValue == 0.0 ==> d == 0.0
  {
    if p.percent then
      var f := p.discountValue / 100.0;
      assert 0.0 <= p.discountValue <= 100.0 ==> 0.0 <= f <= 1.0;
      assert p.discountValue == 100.0 ==> f == 1.0;
      ShareWithin(subtotal, f);
      subtotal * f
    else p.discountValue
  }

  /** A share between 0 and 1 of a non-negative amount lies between 0 and that amount. */
  lemma ShareWithin(x: real, f: real)
    ensures x >= 0.0 && 0.0 <= f <= 1.0 ==> 0.0 <= x * f <= x
  {
    if x >= 0.0 && 0.0 <= f <= 1.0 {
      assert x * f <= x * 1.0;
    }
  }

  /**
   * The part of a discount shared onto `part` of a `whole` of at least 1 is
   * nothing when there is no discount, and at most the discount when the
   * part lies within the whole.
   */
  lemma ProratedShare(part: real, discount: real, whole: real)
    requires part > 0.0 && whole >= 1.0
    ensures discount == 0.0 ==> discount * (part / whole) == 0.0
    ensures discount >= 0.0 && part <= whole ==> 0.0 <= discount * (part / whole) <= discount
  {
    var share := part / whole;
    assert 0.0 <= share;
    if part <= whole {
      assert share <= 1.0;
      ShareWithin(discount, share);
    }
  }

  /**
   * The discount shared onto the taxable part in the ratio taxable base /
   * subtotal (subtotal floored at 1). With no taxable rows the base is 0;
   * with no discount it is the taxable base; a non-negative discount on a
   * taxable base within the subtotal removes at most the whole discount.
   */
  function TaxBaseOf(taxableBase: real, discount: real, subtotal: real): (b: real)
    ensures taxableBase <= 0.0 ==> b == 0.0
    ensures taxableBase > 0.0 && discount == 0.0 ==> b == taxableBase
    ensures taxableBase > 0.0 && discount >= 0.0 && taxableBase <= subtotal ==> taxableBase - discount <= b <= taxableBase
  {
    if taxableBase > 0.0 then
      var m := MaxReal(1.0, subtotal);
      var cut := discount * (taxableBase / m);
      ProratedShare(taxableBase, discount, m);
      assert discount == 0.0 ==> cut == 0.0;
      assert discount >= 0.0 && taxableBase <= subtotal ==> 0.0 <= cut <= discount;
      taxableBase - cut
    else 0.0
  }

  /** The totals displayed for a subtotal and taxable base under the settings `p`. */
  function Summarize(subtotal: real, taxableBase: real, p: Pricing): (s: Summary)
    ensures s.subtotal == subtotal && s.taxableBase == taxableBase
    ensures s.discount == DiscountOf(p, subtotal) && s.taxBase == TaxBaseOf(taxableBase, s.discount, subtotal)
    ensures s.discounted >= 0.0 && s.discounted >= s.subtotal - s.discount
    ensures s.discounted == 0.0 || s.discounted == s.subtotal - s.discount
    ensures s.tax >= 0.0 && s.tax >= s.taxBase * (p.taxRatePct / 100.0)
    ensures s.tax == 0.0 || s.tax == s.taxBase * (p.taxRatePct / 100.0)
    ensures taxableBase <= 0.0 ==> s.taxBase == 0.0 && s.tax == 0.0
    ensures s.grand >= 0.0 && s.grand >= s.discounted + s.tax + p.fees
    ensures s.grand == 0.0 || s.grand == s.discounted + s.tax + p.fees
  {
    var discount := DiscountOf(p, subtotal);
    var discounted := MaxReal(0.0, subtotal - discount);
    var taxBase := TaxBaseOf(taxableBase, discount, subtotal);
    var tax := MaxReal(0.0, taxBase * (p.taxRatePct / 100.0));
    var grand := MaxReal(0.0, discounted + tax + p.fees);
    Summary(subtotal, taxableBase, discount, discounted, taxBase, tax, grand)
  }

  /** The displayed totals of the rows `lines` under the settings `p`. */
  function Compute(lines: seq<Line>, p: Pricing): (s: Summary)
    ensures s.subtotal == Subtotal(lines) && s.taxableBase == TaxableBase(lines)
    ensures s.discount == DiscountOf(p, s.subtotal)
    ensures s.grand >= 0.0
  {
    Summarize(Subtotal(lines), TaxableBase(lines), p)
  }

  /**
   * `recalcAll`'s arithmetic: one pass over the rows accumulating subtotal
   * and taxable base, then discount, tax and grand total.
   */
  method Recalc(rows: seq<ItemRow>, discountEnabled: bool, form: PricingForm,
                parseFloat: string -> Option<real>) returns (s: Summary)
    ensures s == Compute(ReadLines(rows, parseFloat), ReadPricing(discountEnabled, form, parseFloat))
  {
    ghost var lines := ReadLines(rows, parseFloat);
    var subtotal, taxableBase := 0.0, 0.0;
    for k := 0 to |rows|
      invariant subtotal == Subtotal(lines[..k])
      invariant taxableBase == TaxableBase(lines[..k])
    {
      var line := Amount(ReadLine(rows[k], parseFloat));
      SumsExtend(lines, k);
      if rows[k].taxable {
        taxableBase := taxableBase + line;
      }
      subtotal := subtotal + line;
    }
    assert lines[..|rows|] == lines;
    s := Summarize(subtotal, taxableBase, ReadPricing(discountEnabled, form, parseFloat));
  }

  lemma SumsExtend(lines: seq<Line>, k: nat)
    requires k < |lines|
    ensures Subtotal(lines[..k + 1]) == Subtotal(lines[..k]) + Amount(lines[k])
    ensures TaxableBase(lines[..k + 1]) == TaxableBase(lines[..k]) + (if lines[k].taxable then Amount(lines[k]) else 0.0)
  {
    assert lines[..k + 1][..k] == lines[..k];
  }

  // ---------------------------------------------------------------------
  // Properties of the totals

  /** With no negative line amounts, the taxable base lies between 0 and the subtotal. */
  lemma {:induction false} TaxableBaseWithinSubtotal(lines: seq<Line>)
    requires forall i :: 0 <= i < |lines| ==> Amount(lines[i]) >= 0.0
    ensures 0.0 <= TaxableBase(lines) <= Subtotal(lines)
  {
    if lines != [] {
      TaxableBaseWithinSubtotal(lines[..|lines| - 1]);
    }
  }

  /** When every line is taxable, the taxable base is the subtotal. */
  lemma {:induction false} AllTaxableBaseIsSubtotal(lines: seq<Line>)
    requires forall i :: 0 <= i < |lines| ==> lines[i].taxable
    ensures TaxableBase(lines) == Subtotal(lines)
  {
    if lines != [] {
      AllTaxableBaseIsSubtotal(lines[..|lines| - 1]);
    }
  }

  /** When no line is taxable, there is no tax. */
  lemma {:induction false} NoTaxableLinesNoTax(lines: seq<Line>, p: Pricing)
    requires forall i :: 0 <= i < |lines| ==> !lines[i].taxable
    ensures TaxableBase(lines) == 0.0
    ensures Compute(lines, p).tax == 0.0
  {
    if lines != [] {
      NoTaxableLinesNoTax(lines[..|lines| - 1], p);
    }
  }

  lemma ProrationAlgebra(a: real, d: real, t: real)
    requires t >= 1.0 && a > 0.0
    ensures TaxBaseOf(a, d, t) == a * ((t - d) / t)
  {
    var m := MaxReal(1.0, t);
    assert m == t;
    calc {
      a * ((t - d) / t);
      (a * (t - d)) / t;
      (a * t - a * d) / t;
      (a * t) / t - (a * d) / t;
      a - (a * d) / t;
      a - d * (a / t);
      a - d * (a / m);
    }
  }

  /**
   * Once the subtotal is at least 1, the taxable part loses the same fraction
   * the discount takes off the whole subtotal.
   */
  lemma DiscountProratedOntoTaxableBase(lines: seq<Line>, p: Pricing)
    requires Subtotal(lines) >= 1.0 && TaxableBase(lines) > 0.0
    ensures var s := Compute(lines, p);
            s.taxBase == s.taxableBase * ((s.subtotal - s.discount) / s.subtotal)
  {
    var st, tb := Subtotal(lines), TaxableBase(lines);
    var d := DiscountOf(p, st);
    assert Compute(lines, p) == Summarize(st, tb, p);
    assert Summarize(st, tb, p).taxBase == TaxBaseOf(tb, d, st);
    ProrationAlgebra(tb, d, st);
  }

  /** When everything is taxable, tax is charged on the discounted subtotal. */
  lemma AllTaxableTaxOnDiscounted(lines: seq<Line>, p: Pricing)
    requires forall i :: 0 <= i < |lines| ==> lines[i].taxable
    requires Subtotal(lines) >= 1.0
    ensures var s := Compute(lines, p);
            s.taxBase == s.subtotal - s.discount
  {
    AllTaxableBaseIsSubtotal(lines);
    var st := Subtotal(lines);
    TaxBaseOfWhole(st, DiscountOf(p, st));
  }

  /** When the taxable base is the whole subtotal, the whole discount comes off it. */
  lemma TaxBaseOfWhole(subtotal: real, discount: real)
    requires subtotal >= 1.0
    ensures TaxBaseOf(subtotal, discount, subtotal) == subtotal - discount
  {
    assert MaxReal(1.0, subtotal) == subtotal;
    assert subtotal / subtotal == 1.0;
  }

  /**
   * A percentage between 0 and 100 of a non-negative subtotal leaves the
   * remaining share of it: `subtotal * (1 - value / 100)`.
   */
  lemma PercentDiscountKeepsRest(lines: seq<Line>, p: Pricing)
    requires p.percent && 0.0 <= p.discountValue <= 100.0
    requires Subtotal(lines) >= 0.0
    ensures Compute(lines, p).discounted == Subtotal(lines) * (1.0 - p.discountValue / 100.0)
  {
    var st := Subtotal(lines);
    var f := p.discountValue / 100.0;
    ShareWithin(st, f);
    assert DiscountOf(p, st) == st * f;
    assert st - st * f == st * (1.0 - f);
  }

  /** A toggled-off discount changes nothing, whatever its fields hold. */
  lemma DisabledDiscountIgnored(lines: seq<Line>, form: PricingForm, parseFloat: string -> Option<real>)
    ensures var s := Compute(lines, ReadPricing(false, form, parseFloat));
            s.discount == 0.0 && s.discounted == MaxReal(0.0, s.subtotal) && s.taxBase == MaxReal(0.0, s.taxableBase)
  {
  }

  /** A 100% discount on a subtotal of at least 1 leaves only the fees. */
  lemma FullPercentDiscountLeavesFees(lines: seq<Line>, p: Pricing)
    requires p.percent && p.discountValue == 100.0
    requires Subtotal(lines) >= 1.0 && p.fees >= 0.0
    requires 0.0 <= TaxableBase(lines)
    ensures Compute(lines, p).grand == p.fees
  {
    var s := Compute(lines, p);
    assert s.discount == s.subtotal;
    assert MaxReal(1.0, s.subtotal) == s.subtotal;
    if s.taxableBase > 0.0 {
      assert s.discount * (s.taxableBase / s.subtotal) == s.taxableBase;
    }
  }

  /**
   * Two taxable units at 10.00 and a non-taxable 5.00 at 13% tax: subtotal
   * 25.00, taxable base 20.00, tax 2.60, grand total 27.60; with a 5.00
   * discount the tax base is 16.00, the tax 2.08 and the grand total 22.08.
   */
  lemma WorkedExample()
    ensures var lines := [Line(2.0, 10.0, true), Line(1.0, 5.0, false)];
            var s := Compute(lines, Pricing(false, 0.0, 13.0, 0.0));
            s.subtotal == 25.0 && s.taxableBase == 20.0 && s.tax == 2.6 && s.grand == 27.6
    ensures var lines := [Line(2.0, 10.0, true), Line(1.0, 5.0, false)];
            var s := Compute(lines, Pricing(false, 5.0, 13.0, 0.0));
            s.discounted == 20.0 && s.taxBase == 16.0 && s.tax == 2.08 && s.grand == 22.08
  {
    var lines := [Line(2.0, 10.0, true), Line(1.0, 5.0, false)];
    assert lines[..1][..0] == [];
    assert Subtotal(lines[..1]) == 20.0;
    assert TaxableBase(lines[..1]) == 20.0;
    assert Subtotal(lines) == 25.0 && TaxableBase(lines) == 20.0;
    assert TaxBaseOf(20.0, 0.0, 25.0) == 20.0;
    assert MaxReal(1.0, 25.0) == 25.0;
    assert TaxBaseOf(20.0, 5.0, 25.0) == 16.0;
  }

  // ---------------------------------------------------------------------
  // Deposit (quote)

  /** What the deposit input holds: text the user typed, or the amount the page wrote. */
  datatype FieldText = Typed(text: string) | Money(amount: real)

  /** No checked radio, or one with an empty value, counts as 'auto'. */
  function IsAutoDeposit(mode: Option<string>): (auto: bool)
    ensures mode.None? ==> auto
    ensures mode == Some("") ==> auto
    ensures mode.Some? && mode.value != "" ==> (auto <==> mode.value == "auto")
  {
    var m := mode.GetOr("");
    (if m == "" then "auto" else m) == "auto"
  }

  /** 40% of the grand total. */
  function AutoDeposit(grand: real): (d: real)
    ensures grand >= 0.0 ==> 0.0 <= d <= grand
    ensures d + grand * 0.6 == grand
  {
    grand * 0.40
  }

  /** The deposit-due input of the quote. */
  class DepositField {
    var value: FieldText
    var readonly: bool

    constructor (value: FieldText)
      ensures this.value == value && !readonly
    {
      this.value := value;
      readonly := false;
    }

    /**
     * `updateDeposit(grandTotal)`: in auto mode the field shows 40% of the
     * grand total and is locked; in any other mode it is unlocked and keeps
     * whatever the user typed.
     */
    method Update(mode: Option<string>, grand: real)
      modifies this
      ensures IsAutoDeposit(mode) ==> value == Money(AutoDeposit(grand)) && readonly
      ensures !IsAutoDeposit(mode) ==> value == old(value) && !readonly
    {
      if IsAutoDeposit(mode) {
        value := Money(AutoDeposit(grand));
        readonly := true;
      } else {
        readonly := false;
      }
    }
  }

  /** The quote's `recalcAll`: totals, then the deposit field from the grand total. */
  method QuoteRecalc(rows: seq<ItemRow>, discountEnabled: bool, form: PricingForm, mode: Option<string>,
                     deposit: DepositField, parseFloat: string -> Option<real>) returns (s: Summary)
    modifies deposit
    ensures s == Compute(ReadLines(rows, parseFloat), ReadPricing(discountEnabled, form, parseFloat))
    ensures IsAutoDeposit(mode) ==> deposit.value == Money(AutoDeposit(s.grand)) && deposit.readonly
    ensures !IsAutoDeposit(mode) ==> deposit.value == old(deposit.value) && !deposit.readonly
  {
    s := Recalc(rows, discountEnabled, form, parseFloat);
    deposit.Update(mode, s.grand);
  }
}
