# Quote and invoice exporter: a Dafny model

This project models the decision-making core of a browser quote/invoice
editor for a roofing company. The editor recomputes totals as the form
changes and exports the document as a paginated PDF. Three scripts carry
near-copies of the same code:

- `script.patched.js`: the current quote page.
- `script.js`: the older quote page.
- `invoice.js`: the invoice page.

Each component is modelled once. Where the variants differ, the difference is
a parameter or a separate member.

| file | module | what it models |
|---|---|---|
| `base.dfy` | `Base` | `Option`, JavaScript white space and `trim`, `Math.round` |
| `numbers.dfy` | `Numbers` | `parseNum`, the digit filter of the printed copy, `parseInt(s, 10)` |
| `filename.dfy` | `Filenames` | the PDF file name `<client>_<number>.pdf` |
| `print_copy.dfy` | `PrintCopy` | value rules of the printable copy: discount row, control text, tax-rate cell, `<colgroup>` trim |
| `planner.dfy` | `Planner` | `computeCutPositionsPx`: boundary collection and the greedy cut loop |
| `assembly.dfy` | `Assembly` | the slice loop of `downloadPDF` and the document's pages |
| `totals.dfy` | `Totals` | `recalcAll` arithmetic and the quote's `updateDeposit` |
| `invoice.dfy` | `Invoice` | balance, `updateStatus`, and the payment-terms / due-date handlers |
| `export.dfy` | `Export` | the single-flight `exporting` flag, saving, sandbox and alert on failure |
| `preference.dfy` | `Preference` | the persisted discount toggle |

**Page-break planner.** It is proved against a recursive specification,
`Planner.Plan`. On that specification the following are proved:

- the cuts strictly increase;
- each cut is at most one page below the previous one;
- each cut is the largest boundary that is more than `minStep` and at most one
  page below the previous cut, or exactly one page below when no boundary
  qualifies;
- the loop stops after the first cut that is no more than one pixel above the
  last boundary; that cut may lie below the last boundary, by less than one
  page, and there is no cut at all when the last boundary is at most 1.

**Page assembly.** `Assembly.AssemblePages` is proved to produce one page per
slice. The slices tile the canvas from the top, and every slice that ends at a
planned cut is at most one page tall. The canvas of the printed copy runs on
below the last measured block (minimum height and bottom padding,
script.patched.js:177-179), so content that fits on one page can still get a
second page holding only that strip. When the last measured block lies more
than `minStep` down, the first page ends at that block
(`Assembly.ShortDocumentGetsTailPage`); otherwise it ends one full page down,
and the second page follows when the canvas is taller than a page
(`Assembly.ShortDocumentCutAtFullPage`).

**Totals, status and due dates.** Totals are exact reals. Dates are local day
numbers; instants are milliseconds, and the current instant is a parameter.

**Library calls.** `parseFloat` is a parameter: a partial function from text
to a number, where `None` stands for `NaN`.

## The three scripts

The same code appears in the other two scripts:

| script.patched.js | invoice.js | script.js |
|---|---|---|
| `parseNum` 25-30 | 20-25 | 20-25 |
| `getSavedDiscountEnabled` 39-42 | 34-37 | 34-37 |
| `computeCutPositionsPx` 393-427 | 390-424 | 262-298 |
| slice loop 482-516 | 479-513 | 346-374 |
| `exporting` guard 430-433, 527-529 | 427-430, 524-526 | none |
| file name 518-520 | 515-517 | 384-388 |
| discount row 263-283 | 292-312 | 178-199 |
| control text 351-364 | 348-361 | 211-224 |
| tax-rate cell 367-371 | 364-368 | 227-231 |

The scripts differ in:

- `invoice.js` computes balance and status where the quote pages call
  `updateDeposit`.
- Only `invoice.js` has the payment-terms and due-date handlers
  (invoice.js:65-84, `Invoice.InvoiceSheet`).
- The file name's number part is `invoice_no` with fallback `Invoice` in
  `invoice.js` (invoice.js:516), `quote_no` with fallback `Quote` in the quote
  pages; `Filenames.PdfFilename` takes the fallback as a parameter.
- `script.js` has no `exporting` guard (`Export.Exporter` with `guarded`
  false) and no `ensurePdfLibs`.
- `script.js` clears each page canvas with `clearRect` (script.js:352, 367)
  where the other two paint it white; the model does not draw pixels.
- `script.js` drops only the last `<col>` (`PrintCopy.ColGroup.DropLast`), where
  the other two trim to the header (`PrintCopy.ColGroup.TrimToHeader`).

## Model

| member | source | states |
|---|---|---|
| `Base.TrimStart` | script.js:385-386 | cutting leading white space leaves a suffix of the text that does not start with white space, with only white space cut off |
| `Base.TrimEnd` | script.js:385-386 | cutting trailing white space leaves a prefix of the text that does not end with white space, with only white space cut off |
| `Base.Trim` | script.js:385-386 | `trim` returns a slice of the text with only white space before and after it, and neither starts nor ends with white space; it is empty exactly when the text is all white space |
| `Base.TrimIsSlice` | script.js:385-386 | cutting white space off the start and then off the end leaves a slice with only white space around it |
| `Base.TrimKeepsTrimmed` | script.js:385-386 | text that neither starts nor ends with white space is unchanged by `trim` |
| `Base.SpaceAtEnds` | script.js:385-386 | white space cut from either end includes that end's character |
| `Base.JsRound` | script.patched.js:405-410 | `Math.round` gives the integer within half a unit, halves rounded up |
| `Numbers.StripSeparators` | script.patched.js:27 | deleting `,`, `$` and white space keeps exactly the other characters and leaves no separator |
| `Numbers.StripSeparatorsKeepsClean` | script.patched.js:27 | text without separators is unchanged |
| `Numbers.StripSeparatorsIdempotent` | script.patched.js:27 | cleaning twice is cleaning once |
| `Numbers.StripSeparatorsAppend` | script.patched.js:27 | cleaning distributes over concatenation |
| `Numbers.StripSeparatorsDropsOne` | script.patched.js:27 | removing a single separator anywhere does not change the cleaned text |
| `Numbers.ParseNum` | script.patched.js:25-30 | null reads as 0; text that does not parse after cleaning reads as 0 |
| `Numbers.ParseNumIgnoresSeparators` | script.patched.js:25-30 | a separator typed anywhere in a field does not change the number read |
| `Numbers.ParseNumOfCleaned` | script.patched.js:25-30 | reading the cleaned text gives the same number as reading the raw text |
| `Numbers.KeepDigitsAndDots` | script.patched.js:269 | the digit filter's output holds only digits and dots, and exactly the digits and dots of the input occur in it |
| `Numbers.KeepDigitsAndDotsAppend` | script.patched.js:269 | the filter distributes over concatenation |
| `Numbers.KeepDigitsAndDotsKeeps` | script.patched.js:269 | a digit or dot anywhere in the text is kept in place |
| `Numbers.KeepDigitsAndDotsDrops` | script.patched.js:269 | any other character anywhere in the text is dropped |
| `Numbers.KeepDigitsAndDotsKeepsNumeric` | script.patched.js:369 | text of digits and dots passes the filter unchanged |
| `Numbers.ParseIntDecimal` | invoice.js:71 | `parseInt` of blank text is `NaN` |
| `Numbers.ParseIntNeedsDigit` | invoice.js:71 | `parseInt` of text without a decimal digit is `NaN` |
| `Numbers.LeadingDigits` | invoice.js:71 | `parseInt` reads the longest run of leading digits |
| `Numbers.ShowNat` | invoice.js:71 | the decimal numeral of a natural number is non-empty and made of digits |
| `Numbers.ShowInt` | invoice.js:71 | `String(n)` is non-empty, starts with `-` exactly when `n` is negative, and is followed by the numeral of the magnitude |
| `Numbers.DigitsValueShowNat` | invoice.js:71 | the value of the numeral of `n` is `n` |
| `Numbers.LeadingDigitsOfDigits` | invoice.js:71 | the leading digits of digits followed by a non-digit are those digits |
| `Numbers.ParseIntUnsigned` | invoice.js:71 | text starting with digits parses to their value |
| `Numbers.ParseIntNegative` | invoice.js:71 | text starting with `-` and digits parses to the negated value |
| `Numbers.ParseIntShowInt` | invoice.js:71 | `parseInt(String(n) + rest, 10) == n` when `rest` does not start with a digit |
| `Filenames.SanitizeFrom` | script.js:387 | the left-to-right replacement leaves only `[A-Za-z0-9_-]`, never lengthens the text, and outside a run is empty only for empty input |
| `Filenames.Sanitize` | script.js:387 | the sanitised text holds only `[A-Za-z0-9_-]`, is no longer than the input, and is empty only for empty input |
| `Filenames.SanitizeKeepsClean` | script.js:387 | clean text is unchanged |
| `Filenames.SanitizeIdempotent` | script.js:387 | sanitising twice is sanitising once |
| `Filenames.CleanPrefixCopied` | script.js:387 | a prefix of name characters passes through unchanged |
| `Filenames.RunContinues` | script.js:387 | inside a run, further non-name characters produce nothing |
| `Filenames.RunStarts` | script.js:387 | a run of non-name characters starts with exactly one `_` |
| `Filenames.SanitizeCollapsesRun` | script.js:387 | a maximal run of non-name characters after clean text becomes exactly one `_` |
| `Filenames.NamePart` | script.js:385-386 | a trimmed field, defaulted when blank, is non-empty and clean |
| `Filenames.PdfFilename` | script.js:384-388 | the name ends in `.pdf` and its stem holds only `[A-Za-z0-9_-]` |
| `Filenames.PdfFilenameOfCleanFields` | script.js:384-388 | clean fields without surrounding blanks are used verbatim |
| `Filenames.NamePartBlank` | script.js:385-386 | a blank field gives its sanitised fallback |
| `Filenames.JoinClean` | script.js:387 | two clean parts joined by `_` form a clean stem |
| `Filenames.BlankClientPart` | script.js:385 | a blank client field becomes `Client` |
| `Filenames.PdfFilenameIs` | script.js:384-388 | the name is the client part, `_`, the number part and `.pdf` |
| `Filenames.PdfFilenameBlankClient` | script.patched.js:518-520 | a blank client name becomes `Client` |
| `PrintCopy.ToggleEnabled` | script.patched.js:263-265 | a missing toggle counts as on |
| `PrintCopy.DiscountRowFor` | script.patched.js:266-282 | the row is dropped exactly when the toggle is off or the discount is below 0.0001 in magnitude; otherwise it shows the magnitude, with a minus sign exactly when the discount is positive |
| `PrintCopy.OrZero` | script.patched.js:269-272 | `NaN` from `parseFloat` reads as 0; a number reads as itself |
| `PrintCopy.PrintedSubtotal` | script.patched.js:269 | an absent or empty subtotal text reads as `parseFloat("0")`; other text is read after deleting everything but digits and dots |
| `PrintCopy.DiscountFieldValue` | script.patched.js:271-272 | an absent field reads as `parseFloat("")`; a field that does not parse after deleting separators gives 0 |
| `PrintCopy.PrintedDiscount` | script.patched.js:269-273 | for the type `percent` the discount is the displayed subtotal times the field's value over 100; for any other type it is the field's value; a field that does not parse gives 0 |
| `PrintCopy.PrintedDiscountRow` | script.patched.js:263-283 | the row is dropped exactly when the toggle is off or the recomputed discount is below 0.0001 in magnitude; a shown row holds its magnitude, with a minus sign exactly when it is positive |
| `PrintCopy.ShownRowRecoversDiscount` | script.patched.js:274-282 | sign and magnitude of a shown row give back the computed discount |
| `PrintCopy.ToggleOffDropsRow` | script.patched.js:266-267 | an unchecked toggle drops the row whatever the fields hold |
| `PrintCopy.EmptyDiscountFieldDropsRow` | script.patched.js:268-275 | an empty discount field is never printed |
| `PrintCopy.ControlText` | script.patched.js:351-364 | a checkbox prints a check mark or an em dash; a select prints its selected option or nothing; any other control prints its value |
| `PrintCopy.CheckboxTextDistinguishes` | script.patched.js:352-357 | checked and unchecked boxes print different, non-empty text |
| `PrintCopy.TaxRateText` | script.patched.js:367-371 | the cell is the rate's digits and dots, or `13` when none remain, followed by `%` |
| `PrintCopy.TaxRateTextStable` | script.patched.js:367-371 | feeding the printed rate back in prints the same cell |
| `PrintCopy.ColGroup.constructor` | script.patched.js:317 | the column group holds the given columns |
| `PrintCopy.ColGroup.TrimToHeader` | script.patched.js:317-321 | trailing columns are removed until at most the header-cell count remain; the kept columns are the first ones, unchanged |
| `PrintCopy.ColGroup.DropLast` | script.js:237-238 | the older quote page removes only the last column, if there is one |
| `Planner.CollectCssBottoms` | script.patched.js:399-407 | the boundary set starts with 0, has no duplicates, is non-negative, holds the rounded bottom of every positive measurement, and nothing else |
| `Planner.ToCanvas` | script.patched.js:409-410 | each offset is rounded after scaling to canvas pixels, in order |
| `Planner.Insert` | script.patched.js:411 | inserting into a sorted list keeps it sorted and adds exactly that element |
| `Planner.SortAscending` | script.patched.js:411 | the numeric sort yields a sorted permutation |
| `Planner.ScanBack` | script.patched.js:418-421 | the inner search returns a cut below `y` and at most one page below it |
| `Planner.NextCut` | script.patched.js:417-422 | the next cut lies in `(y, y + ideal]` |
| `Planner.ScanBackChoice` | script.patched.js:418-421 | the search from the end returns the largest eligible boundary, or `y + ideal` when none qualifies |
| `Planner.NextCutChoice` | script.patched.js:417-422 | the cut is the largest boundary in `(y + minStep, y + ideal]`, or exactly `y + ideal` when there is none |
| `Planner.CutsFrom` | script.patched.js:414-425 | the cuts the loop appends from `y`: none exactly when `y + 1 >= last`, and all below `y` |
| `Planner.Plan` | script.patched.js:413-426 | the cut list from the top: empty exactly when the last boundary is at most 1, and every cut positive |
| `Planner.CutsFromShape` | script.patched.js:416-426 | each cut follows from the previous; cuts strictly increase; there is no cut exactly when `y + 1 >= last`; the last cut is at least `last - 1`; every earlier cut is below `last - 1` |
| `Planner.CutsFromGreedy` | script.patched.js:416-424 | each cut is the next cut chosen after the previous one |
| `Planner.CutsFromOrder` | script.patched.js:416-426 | cuts lie after the start and strictly increase; there is no cut exactly when `y + 1 >= last`; the loop stops at the first cut with `cut + 1 >= last` |
| `Planner.PlanSteps` | script.patched.js:416-426 | cuts strictly increase from 0, each at most one page below the one before |
| `Planner.PlanCutAt` | script.patched.js:417-424 | the `i`-th cut is the largest eligible boundary after the previous cut, or the previous cut plus one page |
| `Planner.PlanEnd` | script.patched.js:416 | there is no cut exactly when the last boundary is at most 1; the last cut lies in `[last - 1, last + ideal - 2]` |
| `Planner.PlanCuts` | script.patched.js:413-426 | the cut loop computes the planned cuts: strictly increasing, each at most one page below the previous |
| `Planner.ZeroInCanvasBounds` | script.patched.js:399-411 | the sorted canvas boundaries contain 0 |
| `Planner.CanvasBoundsNonNegative` | script.patched.js:399-411 | the sorted canvas boundaries are non-negative |
| `Planner.ToCanvasNonNegative` | script.patched.js:409-410 | non-negative offsets stay non-negative when scaled and rounded |
| `Planner.ComputeCutPositions` | script.patched.js:393-427 | the collected boundary set has the properties of `CollectCssBottoms`; the planned boundaries are its canvas offsets, sorted (same multiset), non-negative and containing 0; the cuts are the plan over them with `minStep = Math.round(200 * scale)`, strictly increasing, each at most one page below the previous |
| `Assembly.BodySlices` | script.patched.js:482-499 | one slice per cut |
| `Assembly.BodySlicesSpanCuts` | script.patched.js:483-488 | the `i`-th slice starts at the previous cut (or the top) and ends at the `i`-th cut |
| `Assembly.SlicePlan` | script.patched.js:482-516 | the drawn slices are the body slices, then, exactly when the last cut is above the canvas bottom, one tail slice from the last cut to the bottom |
| `Assembly.PagesFor` | script.patched.js:466-516 | a document with nothing drawn has its one blank page; otherwise it has one page per slice, holding only that slice |
| `Assembly.PagesForAppend` | script.patched.js:482-516 | drawing one more slice adds one page holding it, except for the first slice, which fills the initial page |
| `Assembly.PdfDoc.constructor` | script.patched.js:466 | a new document has one blank page |
| `Assembly.PdfDoc.AddPage` | script.patched.js:492 | a blank page is appended |
| `Assembly.PdfDoc.AddImage` | script.patched.js:497 | the slice is placed on the current page |
| `Assembly.AssemblePages` | script.patched.js:482-516 | the finished document has one page per slice of the plan (the body slices, then the tail when the last cut is above the canvas bottom) |
| `Assembly.SlicePlanTiles` | script.patched.js:482-516 | for increasing positive cuts, the slices start at 0, are contiguous, have positive height, and end at the canvas bottom or the last cut; their count is the number of cuts plus one for a tail |
| `Assembly.ShortDocumentGetsTailPage` | script.patched.js:413-426 | when the last boundary is at most one page down and the canvas runs on below it, the plan is that single cut and the document has two pages: the content, then the strip below it |
| `Assembly.ShortDocumentCutAtFullPage` | script.patched.js:413-426 | when no boundary of a short document lies more than `minStep` down, the single cut is one page down, and a taller canvas gives a second page from there to the bottom |
| `Assembly.PlannedPages` | script.patched.js:482-516 | for planned cuts: one slice per page, contiguous from the top, every body slice at most one page tall, and at least one page |
| `Totals.ReadLine` | script.patched.js:89-91 | a row's quantity and price are `parseNum` of their text, and the taxable flag is the checkbox |
| `Totals.ReadLines` | script.patched.js:88-92 | each row is read with `parseNum` of its quantity and price |
| `Totals.Subtotal` | script.patched.js:88-94 | the sum of the line amounts; non-negative when no amount is negative |
| `Totals.TaxableBase` | script.patched.js:88-94 | the sum of the taxable line amounts; non-negative when no amount is negative, and 0 when no row is taxable |
| `Totals.ReadPricing` | script.patched.js:100-116 | with the toggle off the discount reads as an amount of 0; tax rate and fees are read with `parseNum` |
| `Totals.DiscountOf` | script.patched.js:103-104 | a percentage discount is `subtotal * (value / 100)` and an amount discount is the value; a percentage of 0..100 on a non-negative subtotal lies between 0 and the subtotal, 100% is the subtotal and 0% is 0 |
| `Totals.PercentDiscountKeepsRest` | script.patched.js:104-105 | a percentage between 0 and 100 of a non-negative subtotal leaves `subtotal * (1 - value / 100)` as the discounted total |
| `Totals.ShareWithin` | script.patched.js:104 | a share between 0 and 1 of a non-negative amount lies between 0 and the amount |
| `Totals.ProratedShare` | script.patched.js:110-111 | the discount shared onto a part of the subtotal is 0 without a discount and at most the discount when the part lies within the subtotal |
| `Totals.TaxBaseOf` | script.patched.js:110-111 | no taxable rows give a base of 0; no discount leaves the taxable base; a non-negative discount on a taxable base within the subtotal removes at most the whole discount |
| `Totals.TaxBaseOfWhole` | script.patched.js:110-111 | when the taxable base is the whole subtotal (at least 1), the whole discount comes off it |
| `Totals.Summarize` | script.patched.js:100-118 | the discount and tax base are those of `DiscountOf` and `TaxBaseOf`; discounted, tax and grand total are each the unclamped value or 0, never negative and never below the unclamped value |
| `Totals.Recalc` | script.patched.js:84-118 | the accumulation loop and the arithmetic compute the specified totals of the rows |
| `Totals.Compute` | script.patched.js:84-118 | the displayed totals of the rows: their subtotal and taxable base, the discount of `DiscountOf`, and a non-negative grand total |
| `Totals.SumsExtend` | script.patched.js:88-95 | adding a row adds its amount to the subtotal, and to the taxable base when it is taxable |
| `Totals.TaxableBaseWithinSubtotal` | script.patched.js:88-95 | with no negative line amounts, the taxable base lies between 0 and the subtotal |
| `Totals.AllTaxableBaseIsSubtotal` | script.patched.js:88-95 | when every row is taxable, the taxable base is the subtotal |
| `Totals.NoTaxableLinesNoTax` | script.patched.js:110-112 | when no row is taxable there is no tax |
| `Totals.ProrationAlgebra` | script.patched.js:110-111 | for a subtotal of at least 1, the discounted tax base is the taxable base times the kept fraction |
| `Totals.DiscountProratedOntoTaxableBase` | invoice.js:136-137 | the taxable part loses the same fraction the discount takes off the subtotal |
| `Totals.AllTaxableTaxOnDiscounted` | invoice.js:136-137 | when everything is taxable, tax is charged on the discounted subtotal |
| `Totals.DisabledDiscountIgnored` | invoice.js:127-131 | a toggled-off discount is 0 whatever its fields hold |
| `Totals.FullPercentDiscountLeavesFees` | invoice.js:127-143 | a 100% discount on a subtotal of at least 1 leaves only the fees |
| `Totals.WorkedExample` | invoice.js:110-143 | 2 x 10.00 taxable plus 5.00 untaxed at 13% gives 25.00 / 20.00 / 2.60 / 27.60; with a 5.00 discount, 16.00 / 2.08 / 22.08 |
| `Totals.IsAutoDeposit` | script.patched.js:123 | no checked radio, or an empty value, means auto; any other value means auto exactly when it is `auto` |
| `Totals.AutoDeposit` | script.patched.js:126 | the auto deposit is 40% of the grand total |
| `Totals.DepositField.constructor` | script.patched.js:124 | the field holds its initial text and is editable |
| `Totals.DepositField.Update` | script.patched.js:122-131 | auto mode writes 40% of the grand total and locks the field; any other mode keeps the value and unlocks it |
| `Totals.QuoteRecalc` | script.patched.js:84-121 | the quote's recalculation computes the totals and then updates the deposit from the grand total |
| `Invoice.DayOf` | invoice.js:157-162 | the local day an instant falls in: it lies between that day's midnight and the next |
| `Invoice.Midnight` | invoice.js:158 | local midnight of a day lies in that day |
| `Invoice.BalanceDue` | invoice.js:147-149 | the balance is never negative, is 0 exactly when paid covers the grand total, and is grand minus paid otherwise |
| `Invoice.StatusAsWritten` | invoice.js:153-169 | Paid exactly when paid is within 0.009 of the grand total; never Overdue without a due date |
| `Invoice.StatusOf` | invoice.js:153-169 | Paid exactly when paid is within 0.009; otherwise Overdue exactly when the due day has passed, else Open |
| `Invoice.OverdueOnItsDueDate` | invoice.js:158-162 | as written, an unpaid invoice is Overdue during its own due date; the intended status there is Open |
| `Invoice.StatusAgreesOffTheDueDay` | invoice.js:153-169 | off the due day, the written and intended statuses agree |
| `Invoice.BalanceAgreesWithPaid` | invoice.js:147-161 | a zero balance shows Paid; Paid leaves at most 0.009 owing |
| `Invoice.StatusExamples` | invoice.js:153-169 | 100 paid of 100 is Paid; unpaid and due yesterday is Overdue; unpaid and due tomorrow is Open |
| `Invoice.EffectiveTerms` | invoice.js:66 | empty terms read as `due`; any other value is kept |
| `Invoice.TermsDays` | invoice.js:71 | `due` is 0 days; other terms are `parseInt(terms, 10)` |
| `Invoice.InvoiceDay` | invoice.js:67 | the invoice date, or today when the field is empty |
| `Invoice.SyncedDueDate` | invoice.js:65-73 | custom terms keep the due date; other terms set it that many days after the invoice day, 0 when they do not parse |
| `Invoice.ExpectedFor` | invoice.js:79-82 | no expectation for custom terms; an invalid date for unparseable terms |
| `Invoice.Disagrees` | invoice.js:83 | custom terms never disagree; unparseable terms always do; otherwise the due date disagrees exactly when it differs from the expected day |
| `Invoice.SyncedDateAgreesWithTerms` | invoice.js:65-84 | after a sync, parseable or custom terms are not switched to custom |
| `Invoice.EditSwitchesToCustomIff` | invoice.js:74-84 | for parseable terms, an edited due date switches the terms to custom exactly when it differs from the synced date |
| `Invoice.UnparseableTermsFlipToCustom` | invoice.js:65-84 | unparseable terms sync to the invoice day but are always switched to custom by the edit check |
| `Invoice.NumericTerms` | invoice.js:71 | numeric terms, with or without trailing text, give that many days |
| `Invoice.InvoiceSheet.constructor` | invoice.js:65-84 | the sheet holds the given terms and dates |
| `Invoice.InvoiceSheet.SyncDueDateFromTerms` | invoice.js:65-73 | the due date becomes the synced due date; nothing else changes |
| `Invoice.InvoiceSheet.OnUserChangedDueDate` | invoice.js:74-84 | the terms become `custom` exactly when the due date disagrees with them; the due date is never written |
| `Invoice.InvoiceSheet.UpdateStatus` | invoice.js:153-169 | the status pill shows the intended status |
| `Invoice.InvoiceSheet.RecalcAll` | invoice.js:110-152 | the invoice totals are the specified ones, the balance due is `BalanceDue` of the grand total and the amount paid, and the status is the intended status `StatusOf` |
| `Export.Exporter.constructor` | script.patched.js:430 | no export is running and nothing has been saved |
| `Export.Exporter.Begin` | script.patched.js:431-433 | a guarded call while exporting returns without effect; otherwise an export starts and the flag is set |
| `Export.Exporter.Finish` | script.patched.js:521-529 | success saves the file; failure alerts and leaves an attached sandbox behind; the flag is cleared on every path |
| `Export.DoubleClick` | script.patched.js:430-433 | two quick clicks save once with the guard and twice without it |
| `Export.RetryAfterFailure` | script.patched.js:523-529 | after a failure one sandbox is stranded and one alert shown, yet the next click starts an export |
| `Preference.Decode` | script.patched.js:39-42 | a missing key means on; a stored value means on exactly when it is `true` |
| `Preference.Encode` | script.patched.js:580 | the toggle is stored as `true` or `false` |
| `Preference.DecodeEncode` | script.patched.js:39-42 | a stored value is read back as written |
| `Preference.EncodeInjective` | script.patched.js:580 | the two states are stored as different strings |
| `Preference.DiscountToggle.constructor` | script.patched.js:43 | page load takes the stored value; storage and toggle agree |
| `Preference.DiscountToggle.OnChange` | script.patched.js:578-581 | the toggle takes the checkbox value and storage holds its encoding, so a reload reads it back |

## Left out

- DOM work: cloning, CSS injection, the letterhead, measuring with `getBoundingClientRect`, and event wiring. The planner starts from the measured bottoms as numbers.
- The deposit card of the printed copy (script.patched.js:285-304): formatting only.
- `loadScript`, `ensurePdfLibs`, `waitForAssets`: asynchronous library and asset loading.
- html2canvas, the canvas drawing, JPEG encoding, white fills and the point conversion `imgHpt`. Pages hold abstract slices.
- `formatMoney` and `moneyWithSymbol`: locale formatting.
- `parseFloat`: a library routine. It is a parameter of the model.
- Floating point: amounts are exact reals. The page height `Math.floor(canvasW * 792 / 612)` and `scaleFactor` are inputs.
- JavaScript `Date`: dates are day numbers. `new Date('YYYY-MM-DD')` is UTC midnight, but `toISO` reads local fields. West of UTC the synced due date therefore comes out one day early. The model uses one calendar, so it does not show this shift.
- `localStorage` access: only the stored string is modelled. The quote and the invoice share the key `discountEnabled`.
- `setDefaults`, `togglePreview`, `clearForm`, `makeRow`, `ensureAtLeastOneRow`: form set-up and plumbing.
- Missing elements: the model assumes the terms select, the due-date input and the tax-rate input are present. Where the handlers return early, or would throw, when one is missing, that path is not modelled.
- Planner.PlanCuts: requires a page height of at least 1 pixel. With a height of 0 and a last boundary above 1 the source loop never ends.
- Export.Exporter.Finish: an export's result is an input. Where in `try` an exception arises is reduced to whether the sandbox was already attached.
- Invoice.InvoiceSheet.UpdateStatus: uses the corrected day comparison (see Findings). The status as written is `Invoice.StatusAsWritten`.
- Invoice.InvoiceSheet.RecalcAll: sets the status with the corrected day comparison `StatusOf`, not the instant comparison of invoice.js:153-169 as written (see Findings).
- Wiring of the deposit-mode radios: script.patched.js:601 closes the `onAll(...)` call with one `)` too many, which is a syntax error in the script as written. The model describes the functions as they would behave if the script loaded.

## Findings

| source | as written | input that shows it | evidently intended | confidence | as-written member | corrected member |
|---|---|---|---|---|---|---|
| invoice.js:158-162 | the due instant is local midnight at the start of the due date, and the invoice is Overdue once `now` is after it | an unpaid invoice due today, at noon today: shows Overdue. Due-on-receipt terms make this the day the invoice is issued | an invoice is Overdue only once its due date has passed | medium; not executed | `Invoice.StatusAsWritten`, `Invoice.OverdueOnItsDueDate` | `Invoice.StatusOf` |
