/**
 * The invoice sheet: balance due, the Paid / Overdue / Open status pill, and
 * the link between the payment-terms select and the due-date field.
 *
 * Dates are local calendar day numbers; an instant is a count of
 * milliseconds whose day is `instant / MsPerDay` and whose local midnight is
 * `day * MsPerDay`. An empty date field is `None`.
 */
module Invoice {
  import opened Base
  import opened Numbers
  import opened Totals

  const MsPerDay: int := 86400000

  /** The local day an instant falls in. */
  function DayOf(instant: int): (d: int)
    ensures d * MsPerDay <= instant < d * MsPerDay + MsPerDay
  {
    instant / MsPerDay
  }

  function Midnight(day: int): (t: int)
    ensures DayOf(t) == day
  {
    day * MsPerDay
  }

  // ---------------------------------------------------------------------
  // Balance and status

  /** `Math.max(0, grand - paid)`. */
  function BalanceDue(grand: real, paid: real): (r: real)
    ensures r >= 0.0
    ensures r == 0.0 <==> paid >= grand
    ensures paid <= grand ==> r + paid == grand
  {
    MaxReal(0.0, grand - paid)
  }

  datatype Status = Paid | Overdue | Open

  /** Paid to within 0.009 of the grand total, to absorb rounding. */
  predicate IsPaid(grand: real, paid: real) {
    paid >= grand - 0.009
  }

  /**
   * `updateStatus` as written: the due instant is local midnight at the start
   * of the due day (or `now` when the field is empty), and the invoice is
   * Overdue as soon as `now` is past it.
   */
  function StatusAsWritten(grand: real, paid: real, dueDate: Option<int>, now: int): (st: Status)
    ensures st == Paid <==> IsPaid(grand, paid)
    ensures dueDate.None? ==> st != Overdue
  {
    var due := if dueDate.Some? then Midnight(dueDate.value) else now;
    if IsPaid(grand, paid) then Paid
    else if now > due then Overdue
    else Open
  }

  /**
   * The status as intended: an unpaid invoice becomes Overdue on the day
   * after its due date; with no due date it stays Open.
   */
  function StatusOf(grand: real, paid: real, dueDate: Option<int>, now: int): (st: Status)
    ensures st == Paid <==> IsPaid(grand, paid)
    ensures st == Overdue <==> !IsPaid(grand, paid) && dueDate.Some? && DayOf(now) > dueDate.value
    ensures st == Open <==> !IsPaid(grand, paid) && (dueDate.None? || DayOf(now) <= dueDate.value)
  {
    if IsPaid(grand, paid) then Paid
    else if dueDate.Some? && DayOf(now) > dueDate.value then Overdue
    else Open
  }

  /**
   * As written, an unpaid invoice shows Overdue at any moment of its own due
   * date after midnight, e.g. at noon of the due day; the intended status
   * there is Open.
   */
  lemma OverdueOnItsDueDate(grand: real, paid: real, due: int, msIntoDay: int)
    requires !IsPaid(grand, paid)
    requires 0 < msIntoDay < MsPerDay
    ensures StatusAsWritten(grand, paid, Some(due), Midnight(due) + msIntoDay) == Overdue
    ensures StatusOf(grand, paid, Some(due), Midnight(due) + msIntoDay) == Open
  {
    var now := Midnight(due) + msIntoDay;
    assert DayOf(now) == due;
  }

  /** Away from the due day the two statuses agree. */
  lemma StatusAgreesOffTheDueDay(grand: real, paid: real, dueDate: Option<int>, now: int)
    requires dueDate.Some? ==> DayOf(now) != dueDate.value
    ensures StatusOf(grand, paid, dueDate, now) == StatusAsWritten(grand, paid, dueDate, now)
  {
    if dueDate.Some? {
      var d := dueDate.value;
      if DayOf(now) > d {
        assert now >= Midnight(d + 1);
      } else {
        assert now < Midnight(d);
      }
    }
  }

  /** A zero balance always shows Paid; Paid leaves at most 0.009 owing. */
  lemma BalanceAgreesWithPaid(grand: real, paid: real, dueDate: Option<int>, now: int)
    ensures BalanceDue(grand, paid) == 0.0 ==> StatusOf(grand, paid, dueDate, now) == Paid
    ensures StatusOf(grand, paid, dueDate, now) == Paid ==> BalanceDue(grand, paid) <= 0.009
  {
  }

  /** Paid 100 of 100 is Paid; unpaid and due yesterday is Overdue; unpaid and due tomorrow is Open. */
  lemma StatusExamples(today: int, now: int)
    requires DayOf(now) == today
    ensures StatusOf(100.0, 100.0, Some(today + 1), now) == Paid
    ensures StatusOf(100.0, 0.0, Some(today - 1), now) == Overdue
    ensures StatusOf(100.0, 0.0, Some(today + 1), now) == Open
  {
  }

  // ---------------------------------------------------------------------
  // Payment terms and the due date

  /** `$('#terms').value || 'due'`. */
  function EffectiveTerms(terms: string): (t: string)
    ensures t != ""
    ensures terms == "" ==> t == "due"
    ensures terms != "" ==> t == terms
  {
    if terms == "" then "due" else terms
  }

  /** 'due' is 0 days; other terms are `parseInt(terms, 10)`, `None` for NaN. */
  function TermsDays(terms: string): (n: Option<int>)
    ensures terms == "due" ==> n == Some(0)
    ensures terms != "due" ==> n == ParseIntDecimal(terms)
  {
    if terms == "due" then Some(0) else ParseIntDecimal(terms)
  }

  /** The day the terms count from: the invoice date, or today when it is empty. */
  function InvoiceDay(invoiceDate: Option<int>, today: int): (d: int)
    ensures invoiceDate.Some? ==> d == invoiceDate.value
    ensures invoiceDate.None? ==> d == today
  {
    invoiceDate.GetOr(today)
  }

  /**
   * `syncDueDateFromTerms`: custom terms keep the due date; any other terms
   * set it that many days after the invoice day (0 when the terms do not
   * parse).
   */
  function SyncedDueDate(terms: string, invoiceDate: Option<int>, today: int, dueDate: Option<int>): (r: Option<int>)
    ensures EffectiveTerms(terms) == "custom" ==> r == dueDate
    ensures EffectiveTerms(terms) != "custom" ==> r == Some(InvoiceDay(invoiceDate, today) + TermsDays(EffectiveTerms(terms)).GetOr(0))
  {
    var t := EffectiveTerms(terms);
    if t == "custom" then dueDate
    else Some(InvoiceDay(invoiceDate, today) + TermsDays(t).GetOr(0))
  }

  /** The date `onUserChangedDueDate` expects the terms to give. */
  datatype ExpectedDue =
    | NoExpectation
      /** The terms do not parse: the expected date is an Invalid Date, unequal to any field value. */
    | InvalidDate
    | OnDay(day: int)

  function ExpectedFor(terms: string, invoiceDate: Option<int>, today: int): (e: ExpectedDue)
    ensures e.NoExpectation? <==> EffectiveTerms(terms) == "custom"
    ensures e.InvalidDate? <==> EffectiveTerms(terms) != "custom" && TermsDays(EffectiveTerms(terms)).None?
  {
    var t := EffectiveTerms(terms);
    if t == "custom" then NoExpectation
    else match TermsDays(t)
      case None => InvalidDate
      case Some(n) => OnDay(InvoiceDay(invoiceDate, today) + n)
  }

  /** Whether a due date the user entered contradicts the terms, so the terms switch to custom. */
  predicate Disagrees(e: ExpectedDue, dueDate: Option<int>)
    ensures e.NoExpectation? ==> !Disagrees(e, dueDate)
    ensures e.InvalidDate? ==> Disagrees(e, dueDate)
    ensures e.OnDay? ==> (Disagrees(e, dueDate) <==> dueDate != Some(e.day))
  {
    match e
    case NoExpectation => false
    case InvalidDate => true
    case OnDay(d) => dueDate != Some(d)
  }

  /** After a sync, leaving the due date as synced never switches parseable terms to custom. */
  lemma SyncedDateAgreesWithTerms(terms: string, invoiceDate: Option<int>, today: int, dueDate: Option<int>)
    requires EffectiveTerms(terms) == "custom" || TermsDays(EffectiveTerms(terms)).Some?
    ensures !Disagrees(ExpectedFor(terms, invoiceDate, today), SyncedDueDate(terms, invoiceDate, today, dueDate))
  {
  }

  /** For parseable terms, an edited due date switches the terms to custom exactly when it differs from the synced date. */
  lemma EditSwitchesToCustomIff(terms: string, invoiceDate: Option<int>, today: int, before: Option<int>, edited: Option<int>)
    requires EffectiveTerms(terms) != "custom" && TermsDays(EffectiveTerms(terms)).Some?
    ensures Disagrees(ExpectedFor(terms, invoiceDate, today), edited)
            <==> edited != SyncedDueDate(terms, invoiceDate, today, before)
  {
  }

  /**
   * Terms that do not parse are read as 0 days by the sync, but as an
   * Invalid Date by the edit check, so any edit switches them to custom.
   */
  lemma UnparseableTermsFlipToCustom(terms: string, invoiceDate: Option<int>, today: int, dueDate: Option<int>)
    requires EffectiveTerms(terms) != "custom" && TermsDays(EffectiveTerms(terms)).None?
    ensures SyncedDueDate(terms, invoiceDate, today, dueDate) == Some(InvoiceDay(invoiceDate, today))
    ensures Disagrees(ExpectedFor(terms, invoiceDate, today), SyncedDueDate(terms, invoiceDate, today, dueDate))
  {
  }

  /** "30", "30 days" and "-5" give 30, 30 and -5 days. */
  lemma NumericTerms(n: int, rest: string)
    requires rest == [] || !IsDigit(rest[0])
    ensures TermsDays(ShowInt(n) + rest) == Some(n)
  {
    ParseIntShowInt(n, rest);
    var s := ShowInt(n) + rest;
    if n < 0 {
      assert s[0] == '-';
    } else {
      assert s[0] == ShowNat(n)[0];
    }
    assert s != "due";
  }

  /** The invoice page state the sync, edit and recalculation handlers read and write. */
  class InvoiceSheet {
    var terms: string
    var invoiceDate: Option<int>
    var dueDate: Option<int>
    var balance: real
    var status: Status

    constructor (terms: string, invoiceDate: Option<int>, dueDate: Option<int>)
      ensures this.terms == terms && this.invoiceDate == invoiceDate && this.dueDate == dueDate
      ensures balance == 0.0 && status == Open
    {
      this.terms := terms;
      this.invoiceDate := invoiceDate;
      this.dueDate := dueDate;
      balance := 0.0;
      status := Open;
    }

    /** `syncDueDateFromTerms`, run when the terms or the invoice date change. */
    method SyncDueDateFromTerms(today: int)
      modifies this`dueDate
      ensures dueDate == SyncedDueDate(terms, invoiceDate, today, old(dueDate))
    {
      dueDate := SyncedDueDate(terms, invoiceDate, today, dueDate);
    }

    /** `onUserChangedDueDate`: a due date the terms do not give switches the terms to custom. */
    method OnUserChangedDueDate(today: int)
      modifies this`terms
      ensures terms == if Disagrees(ExpectedFor(old(terms), invoiceDate, today), dueDate) then "custom" else old(terms)
    {
      if Disagrees(ExpectedFor(terms, invoiceDate, today), dueDate) {
        terms := "custom";
      }
    }

    /** `updateStatus(grand, paid)`, with the due date compared by day. */
    method UpdateStatus(grand: real, paid: real, now: int)
      modifies this`status
      ensures status == StatusOf(grand, paid, dueDate, now)
    {
      status := StatusOf(grand, paid, dueDate, now);
    }

    /** The invoice's `recalcAll`: totals, then balance due and status from the amount paid. */
    method RecalcAll(rows: seq<ItemRow>, discountEnabled: bool, form: PricingForm, paidText: string,
                     now: int, parseFloat: string -> Option<real>) returns (s: Summary)
      modifies this`balance, this`status
      ensures s == Compute(ReadLines(rows, parseFloat), ReadPricing(discountEnabled, form, parseFloat))
      ensures balance == BalanceDue(s.grand, ParseNum(Some(paidText), parseFloat))
      ensures status == StatusOf(s.grand, ParseNum(Some(paidText), parseFloat), dueDate, now)
    {
      s := Recalc(rows, discountEnabled, form, parseFloat);
      var paid := ParseNum(Some(paidText), parseFloat);
      balance := BalanceDue(s.grand, paid);
      UpdateStatus(s.grand, paid, now);
    }
  }
}
