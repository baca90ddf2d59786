/**
 * The value rules `buildPrintClone` applies to the printable copy: whether and
 * how the discount row is shown, the static text that replaces each form
 * control, the tax-rate cell, and the trimming of the items table's columns.
 * The DOM itself (cloning, CSS, the letterhead) is not part of this model.
 */
module PrintCopy {
  import opened Base
  import opened Numbers

  // ---------------------------------------------------------------------
  // Discount row

  /** What the printed copy does with the discount row. */
  datatype DiscountRow =
    | Dropped
      /** Shown as `amount`, preceded by U+2212 MINUS SIGN when `minus` holds. */
    | Shown(minus: bool, amount: real)

  /** `parseFloat(x) || 0`: NaN (and zero) read as zero. */
  function OrZero(parsed: Option<real>): (v: real)
    ensures parsed.None? ==> v == 0.0
    ensures parsed.Some? ==> v == parsed.value
  {
    parsed.GetOr(0.0)
  }

  /** The displayed subtotal with everything but digits and dots deleted (`|| '0'` when absent). */
  function PrintedSubtotal(subtotalText: Option<string>, parseFloat: string -> Option<real>): (v: real)
    ensures subtotalText.GetOr("") == "" ==> v == OrZero(parseFloat("0"))
    ensures subtotalText.GetOr("") != "" ==> v == OrZero(parseFloat(KeepDigitsAndDots(subtotalText.value)))
  {
    var shown := subtotalText.GetOr("");
    KeepDigitsAndDotsKeepsNumeric("0");
    OrZero(parseFloat(KeepDigitsAndDots(if shown == "" then "0" else shown)))
  }

  /** The discount field with separators deleted (`|| ''` when absent), NaN read as 0. */
  function DiscountFieldValue(discountValue: Option<string>, parseFloat: string -> Option<real>): (v: real)
    ensures discountValue.None? ==> v == OrZero(parseFloat(""))
    ensures parseFloat(StripSeparators(discountValue.GetOr(""))).None? ==> v == 0.0
  {
    OrZero(parseFloat(StripSeparators(discountValue.GetOr(""))))
  }

  /**
   * The discount the printed copy recomputes from the page: a percentage of
   * the displayed subtotal for the type 'percent', the field's value for any
   * other type (`|| 'amount'`); a field that does not parse gives 0 whatever
   * the type.
   */
  function PrintedDiscount(subtotalText: Option<string>, discountType: Option<string>,
                           discountValue: Option<string>, parseFloat: string -> Option<real>): (d: real)
    ensures discountType == Some("percent")
            ==> d == PrintedSubtotal(subtotalText, parseFloat) * (DiscountFieldValue(discountValue, parseFloat) / 100.0)
    ensures discountType != Some("percent") ==> d == DiscountFieldValue(discountValue, parseFloat)
    ensures parseFloat(StripSeparators(discountValue.GetOr(""))).None? ==> d == 0.0
  {
    var subtotal := PrintedSubtotal(subtotalText, parseFloat);
    var kind := discountType.GetOr("");
    var amount := DiscountFieldValue(discountValue, parseFloat);
    if kind == "percent" then subtotal * (amount / 100.0) else amount
  }

  function Abs(x: real): (r: real)
    ensures r >= 0.0 && (r == x || r == -x)
  {
    if x < 0.0 then -x else x
  }

  /**
   * The row is dropped when the toggle is off or the computed discount is
   * below 0.0001 in magnitude; otherwise it shows the magnitude, with a minus
   * sign exactly when the discount is positive (an amount taken off).
   */
  function DiscountRowFor(enabled: bool, computed: real): (row: DiscountRow)
    ensures row.Dropped? <==> !enabled || Abs(computed) < 0.0001
    ensures row.Shown? ==> row.amount >= 0.0001
    ensures row.Shown? ==> (row.minus <==> computed > 0.0)
    ensures row.Shown? ==> row.amount == computed || row.amount == -computed
  {
    if !enabled || Abs(computed) < 0.0001 then Dropped
    else Shown(computed > 0.0, Abs(computed))
  }

  /** A missing toggle counts as on. */
  function ToggleEnabled(toggle: Option<bool>): (on: bool)
    ensures toggle.None? ==> on
  {
    toggle.GetOr(true)
  }

  /**
   * The discount row of the printed copy: dropped when the toggle is off or
   * the recomputed discount rounds to nothing, otherwise its magnitude with a
   * minus sign exactly when the discount is positive.
   */
  function PrintedDiscountRow(toggle: Option<bool>, subtotalText: Option<string>,
                              discountType: Option<string>, discountValue: Option<string>,
                              parseFloat: string -> Option<real>): (row: DiscountRow)
    ensures var d := PrintedDiscount(subtotalText, discountType, discountValue, parseFloat);
            && (row.Dropped? <==> !ToggleEnabled(toggle) || Abs(d) < 0.0001)
            && (row.Shown? ==> row.amount == Abs(d) && (row.minus <==> d > 0.0))
  {
    var enabled := ToggleEnabled(toggle);
    if !enabled then Dropped
    else DiscountRowFor(true, PrintedDiscount(subtotalText, discountType, discountValue, parseFloat))
  }

  /** The printed row's sign and magnitude give back the computed discount. */
  lemma ShownRowRecoversDiscount(enabled: bool, computed: real)
    requires DiscountRowFor(enabled, computed).Shown?
    ensures var row := DiscountRowFor(enabled, computed);
            (if row.minus then row.amount else -row.amount) == computed
  {
  }

  /** An unchecked toggle hides the row whatever the discount fields hold. */
  lemma ToggleOffDropsRow(subtotalText: Option<string>, discountType: Option<string>,
                          discountValue: Option<string>, parseFloat: string -> Option<real>)
    ensures PrintedDiscountRow(Some(false), subtotalText, discountType, discountValue, parseFloat) == Dropped
  {
  }

  /** An empty discount field is never printed, however the subtotal reads. */
  lemma EmptyDiscountFieldDropsRow(toggle: Option<bool>, subtotalText: Option<string>,
                                   discountType: Option<string>, parseFloat: string -> Option<real>)
    requires parseFloat("") == None
    ensures PrintedDiscountRow(toggle, subtotalText, discountType, Some(""), parseFloat) == Dropped
  {
    assert StripSeparators("") == "";
  }

  // ---------------------------------------------------------------------
  // Controls replaced by text

  /** The form controls of the document, by what decides their printed text. */
  datatype Control =
    | Checkbox(checked: bool)
      /** `options` are the option labels; `selectedIndex` is -1 when none is selected. */
    | Select(options: seq<string>, selectedIndex: int)
      /** Text inputs, textareas and every other input type. */
    | Field(value: string)

  const CheckMark: string := "\U{2713}"
  const EmDash: string := "\U{2014}"

  /** The static text that replaces a control in the printed copy. */
  function ControlText(c: Control): (text: string)
    ensures c.Checkbox? ==> text == (if c.checked then CheckMark else EmDash)
    ensures c.Select? && !(0 <= c.selectedIndex < |c.options|) ==> text == ""
    ensures c.Select? && 0 <= c.selectedIndex < |c.options| ==> text == c.options[c.selectedIndex]
    ensures c.Field? ==> text == c.value
  {
    match c
    case Checkbox(checked) => if checked then CheckMark else EmDash
    case Select(options, i) => if 0 <= i < |options| then options[i] else ""
    case Field(value) => value
  }

  /** Checked and unchecked boxes print differently, and never as an empty cell. */
  lemma CheckboxTextDistinguishes(a: bool, b: bool)
    ensures ControlText(Checkbox(a)) != ""
    ensures ControlText(Checkbox(a)) == ControlText(Checkbox(b)) <==> a == b
  {
    assert CheckMark[0] != EmDash[0];
  }

  // ---------------------------------------------------------------------
  // Tax-rate cell

  /**
   * `(taxRate?.value ?? '13').replace(/[^\d.]/g, '') || '13'`, followed by '%'.
   */
  function TaxRateText(value: Option<string>): (text: string)
    ensures |text| >= 2 && text[|text| - 1] == '%'
    ensures forall i :: 0 <= i < |text| - 1 ==> IsDigit(text[i]) || text[i] == '.'
    ensures KeepDigitsAndDots(value.GetOr("13")) != "" ==> text == KeepDigitsAndDots(value.GetOr("13")) + "%"
    ensures KeepDigitsAndDots(value.GetOr("13")) == "" ==> text == "13%"
  {
    var kept := KeepDigitsAndDots(value.GetOr("13"));
    (if kept == "" then "13" else kept) + "%"
  }

  /** Feeding the printed rate (without '%') back into the rule prints the same cell. */
  lemma TaxRateTextStable(value: Option<string>)
    ensures var text := TaxRateText(value);
            TaxRateText(Some(text[..|text| - 1])) == text
  {
    var text := TaxRateText(value);
    KeepDigitsAndDotsKeepsNumeric(text[..|text| - 1]);
  }

  // ---------------------------------------------------------------------
  // Items-table column group

  /** One `<col>` of the items table. */
  datatype Col = Col(width: string)

  /** `itemsTable.tHead ? tHead.rows[0].children.length : 0`. */
  function HeaderCellCount(headerRowCells: Option<nat>): nat {
    headerRowCells.GetOr(0)
  }

  /** The `<colgroup>` element of the items table in the printed copy. */
  class ColGroup {
    var cols: seq<Col>

    constructor (cols: seq<Col>)
      ensures this.cols == cols
    {
      this.cols := cols;
    }

    /**
     * Removes trailing `<col>`s until there are no more than header cells;
     * the `<col>`s it keeps are the first ones, untouched.
     */
    method TrimToHeader(headerRowCells: Option<nat>)
      modifies this
      ensures cols == old(cols)[..Min(|old(cols)|, HeaderCellCount(headerRowCells))]
    {
      var thCount := HeaderCellCount(headerRowCells);
      while |cols| > thCount && cols != []
        invariant |cols| >= Min(|old(cols)|, thCount)
        invariant cols == old(cols)[..|cols|]
        decreases |cols|
      {
        cols := cols[..|cols| - 1];
      }
    }

    /** The quote exporter's variant: drops the last `<col>`, if there is one. */
    method DropLast()
      modifies this
      ensures cols == if old(cols) == [] then [] else old(cols)[..|old(cols)| - 1]
    {
      if cols != [] {
        cols := cols[..|cols| - 1];
      }
    }
  }
}
