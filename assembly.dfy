/**
 * Cutting the rendered canvas into PDF pages. Each planned cut closes one
 * slice that starts at the previous cut; whatever lies below the last cut and
 * above the canvas bottom becomes one more slice. Every slice is drawn as the
 * only image of its own page; the document starts with one blank page, and a
 * page is added before every slice but the first.
 */
module Assembly {
  import opened Base
  import opened Planner

  /** A horizontal band of the canvas: `height` pixels starting at `top`. */
  datatype Slice = Slice(top: int, height: int)

  /** One slice per cut, from the previous cut (or the top) down to the cut. */
  function BodySlices(cuts: seq<int>): (slices: seq<Slice>)
    ensures |slices| == |cuts|
  {
    seq(|cuts|, i requires 0 <= i < |cuts| => Slice(Prev(cuts, 0, i), cuts[i] - Prev(cuts, 0, i)))
  }

  /** The `i`-th body slice runs from the previous cut (or the top) down to the `i`-th cut. */
  lemma BodySlicesSpanCuts(cuts: seq<int>)
    ensures forall i :: 0 <= i < |cuts| ==>
              BodySlices(cuts)[i].top == Prev(cuts, 0, i) && BodySlices(cuts)[i].top + BodySlices(cuts)[i].height == cuts[i]
  {
  }

  /** Where the body slices end: the last cut, or the top when there is none. */
  function BodyEnd(cuts: seq<int>): int {
    Prev(cuts, 0, |cuts|)
  }

  /** The slices drawn, in order: the body slices, then the tail when `prev < canvasH`. */
  function SlicePlan(cuts: seq<int>, canvasH: int): (plan: seq<Slice>)
    ensures |plan| == |cuts| + (if BodyEnd(cuts) < canvasH then 1 else 0)
    ensures forall i :: 0 <= i < |cuts| ==> plan[i] == BodySlices(cuts)[i]
    ensures BodyEnd(cuts) < canvasH ==> plan[|cuts|] == Slice(BodyEnd(cuts), canvasH - BodyEnd(cuts))
  {
    var end := BodyEnd(cuts);
    BodySlices(cuts) + (if end < canvasH then [Slice(end, canvasH - end)] else [])
  }

  /** The pages of the finished document: the initial blank page when nothing is drawn, else one page per slice. */
  function PagesFor(plan: seq<Slice>): (pages: seq<seq<Slice>>)
    ensures |pages| == if plan == [] then 1 else |plan|
    ensures plan == [] ==> pages == [[]]
    ensures forall i :: 0 <= i < |plan| ==> pages[i] == [plan[i]]
  {
    if plan == [] then [[]]
    else seq(|plan|, i requires 0 <= i < |plan| => [plan[i]])
  }

  lemma PagesForAppend(plan: seq<Slice>, s: Slice)
    ensures PagesFor(plan + [s]) == (if plan == [] then [[s]] else PagesFor(plan) + [[s]])
  {
    var p := plan + [s];
    if plan != [] {
      assert |PagesFor(p)| == |PagesFor(plan) + [[s]]|;
      forall i | 0 <= i < |p|
        ensures PagesFor(p)[i] == (PagesFor(plan) + [[s]])[i]
      {
        if i < |plan| {
          assert p[i] == plan[i];
        }
      }
    }
  }

  /** The jsPDF document being written: the images placed on each page so far. */
  class PdfDoc {
    var pages: seq<seq<Slice>>

    /** `new jsPDF(...)`: one blank letter-size page. */
    constructor ()
      ensures pages == [[]]
    {
      pages := [[]];
    }

    /** `pdf.addPage()`: a new blank page becomes the current one. */
    method AddPage()
      modifies this
      ensures pages == old(pages) + [[]]
    {
      pages := pages + [[]];
    }

    /** `pdf.addImage(...)`: the slice is placed on the current (last) page. */
    method AddImage(s: Slice)
      requires |pages| > 0
      modifies this
      ensures pages == old(pages)[..|old(pages)| - 1] + [old(pages)[|old(pages)| - 1] + [s]]
    {
      pages := pages[..|pages| - 1] + [pages[|pages| - 1] + [s]];
    }
  }

  /**
   * The page loop of `downloadPDF`: a slice per cut (a page added before every
   * one but the first), then the remaining tail (a page added first when
   * there was any cut).
   */
  method AssemblePages(pdf: PdfDoc, cuts: seq<int>, canvasH: int)
    requires pdf.pages == [[]]
    modifies pdf
    ensures pdf.pages == PagesFor(SlicePlan(cuts, canvasH))
  {
    var body := BodySlices(cuts);
    var prev := 0;
    for i := 0 to |cuts|
      invariant prev == Prev(cuts, 0, i)
      invariant pdf.pages == PagesFor(body[..i])
    {
      var next := cuts[i];
      var slice := Slice(prev, next - prev);
      assert body[i] == slice;
      assert body[..i + 1] == body[..i] + [slice];
      assert |body[..i]| == i;
      PagesForAppend(body[..i], slice);
      assert PagesFor(body[..i + 1]) == (if i > 0 then PagesFor(body[..i]) else []) + [[slice]];
      ghost var before := pdf.pages;
      if i > 0 {
        pdf.AddPage();
        assert pdf.pages[..|pdf.pages| - 1] == before;
      } else {
        assert before == [[]];
      }
      assert pdf.pages[..|pdf.pages| - 1] == (if i > 0 then before else []);
      assert pdf.pages[|pdf.pages| - 1] == [];
      pdf.AddImage(slice);
      assert pdf.pages == (if i > 0 then before else []) + [[] + [slice]];
      assert [] + [slice] == [slice];
      assert pdf.pages == (if i > 0 then before else []) + [[slice]];
      prev := next;
    }
    assert body[..|cuts|] == body;
    if prev < canvasH {
      var tail := Slice(prev, canvasH - prev);
      assert SlicePlan(cuts, canvasH) == body + [tail];
      PagesForAppend(body, tail);
      assert |body| == |cuts|;
      assert PagesFor(body + [tail]) == (if |cuts| > 0 then PagesFor(body) else []) + [[tail]];
      ghost var before := pdf.pages;
      if |cuts| > 0 {
        pdf.AddPage();
        assert pdf.pages[..|pdf.pages| - 1] == before;
      } else {
        assert before == [[]];
      }
      assert pdf.pages[..|pdf.pages| - 1] == (if |cuts| > 0 then before else []);
      assert pdf.pages[|pdf.pages| - 1] == [];
      pdf.AddImage(tail);
      assert pdf.pages == (if |cuts| > 0 then before else []) + [[] + [tail]];
      assert [] + [tail] == [tail];
      assert pdf.pages == (if |cuts| > 0 then before else []) + [[tail]];
    } else {
      assert SlicePlan(cuts, canvasH) == body;
    }
  }

  /** The slice plan of strictly increasing positive cuts tiles the canvas from the top without gaps or overlaps. */
  lemma SlicePlanTiles(cuts: seq<int>, canvasH: int)
    requires StrictlyIncreasing(cuts)
    requires cuts == [] || cuts[0] > 0
    ensures var plan := SlicePlan(cuts, canvasH);
            && |plan| == |cuts| + (if BodyEnd(cuts) < canvasH then 1 else 0)
            && (forall i :: 0 <= i < |plan| ==> plan[i].height > 0)
            && (plan != [] ==> plan[0].top == 0)
            && (forall i :: 0 <= i < |plan| - 1 ==> plan[i + 1].top == plan[i].top + plan[i].height)
            && (plan != [] ==> plan[|plan| - 1].top + plan[|plan| - 1].height
                               == (if BodyEnd(cuts) < canvasH then canvasH else BodyEnd(cuts)))
  {
    var plan := SlicePlan(cuts, canvasH);
    var body := BodySlices(cuts);
    forall i | 0 <= i < |cuts|
      ensures plan[i] == body[i] && body[i].height > 0
    {
      if i > 0 {
        assert cuts[i - 1] < cuts[i];
      }
    }
  }

  /**
   * The pages of a planned export: each page holds one slice; the slices tile
   * the canvas from its top; every slice made at a cut is at most one page
   * tall; and the document has one page per cut plus one for the tail.
   */
  lemma PlannedPages(bounds: seq<int>, ideal: int, minStep: int, canvasH: int)
    requires |bounds| > 0 && ideal >= 1 && minStep >= 0
    ensures var cuts := Plan(bounds, ideal, minStep);
            var plan := SlicePlan(cuts, canvasH);
            var pages := PagesFor(plan);
            && |pages| == Max1(|cuts| + (if BodyEnd(cuts) < canvasH then 1 else 0))
            && (forall i :: 0 <= i < |plan| ==> 0 < plan[i].height)
            && (forall i :: 0 <= i < |cuts| ==> plan[i].height <= ideal)
            && (forall i :: 0 <= i < |plan| ==> pages[i] == [plan[i]])
            && (plan != [] ==> plan[0].top == 0)
            && (forall i :: 0 <= i < |plan| - 1 ==> plan[i + 1].top == plan[i].top + plan[i].height)
  {
    var cuts := Plan(bounds, ideal, minStep);
    PlanSteps(bounds, ideal, minStep);
    if cuts != [] {
      assert Prev(cuts, 0, 0) < cuts[0];
    }
    SlicePlanTiles(cuts, canvasH);
    var plan := SlicePlan(cuts, canvasH);
    forall i | 0 <= i < |cuts|
      ensures plan[i].height <= ideal
    {
      assert plan[i] == BodySlices(cuts)[i];
    }
  }

  /**
   * Content that fits on one page still gives two pages when the canvas runs
   * on below the last measured block (the copy's minimum height and bottom
   * padding): the first page ends at that block and the second holds only
   * what lies below it.
   */
  lemma ShortDocumentGetsTailPage(bounds: seq<int>, ideal: int, minStep: int, canvasH: int)
    requires Sorted(bounds) && |bounds| > 0 && ideal >= 1 && minStep >= 0
    requires 1 < Last(bounds) && minStep < Last(bounds) <= ideal
    requires Last(bounds) < canvasH
    ensures Plan(bounds, ideal, minStep) == [Last(bounds)]
    ensures PagesFor(SlicePlan(Plan(bounds, ideal, minStep), canvasH))
            == [[Slice(0, Last(bounds))], [Slice(Last(bounds), canvasH - Last(bounds))]]
  {
    var last := Last(bounds);
    assert Eligible(bounds[|bounds| - 1], 0, ideal, minStep);
    NextCutChoice(bounds, 0, ideal, minStep);
    var c := NextCut(bounds, 0, ideal, minStep);
    var k :| 0 <= k < |bounds| && bounds[k] == c;
    assert c <= last;
    assert c == last;
    assert CutsFrom(bounds, last, ideal, minStep) == [];
    assert Plan(bounds, ideal, minStep) == [last];
    assert BodySlices([last]) == [Slice(0, last)];
    assert SlicePlan([last], canvasH) == [Slice(0, last), Slice(last, canvasH - last)];
  }

  /**
   * When no boundary of a short document lies more than `minStep` down, the
   * single cut is one full page down, and a canvas that runs on below it
   * still gives a second page.
   */
  lemma ShortDocumentCutAtFullPage(bounds: seq<int>, ideal: int, minStep: int, canvasH: int)
    requires Sorted(bounds) && |bounds| > 0 && ideal >= 1 && minStep >= 0
    requires 1 < Last(bounds) <= minStep && Last(bounds) <= ideal
    ensures Plan(bounds, ideal, minStep) == [ideal]
    ensures ideal < canvasH
            ==> PagesFor(SlicePlan(Plan(bounds, ideal, minStep), canvasH))
                == [[Slice(0, ideal)], [Slice(ideal, canvasH - ideal)]]
  {
    forall k | 0 <= k < |bounds|
      ensures !Eligible(bounds[k], 0, ideal, minStep)
    {
      assert bounds[k] <= Last(bounds);
    }
    NextCutChoice(bounds, 0, ideal, minStep);
    assert NextCut(bounds, 0, ideal, minStep) == ideal;
    assert CutsFrom(bounds, ideal, ideal, minStep) == [];
    assert Plan(bounds, ideal, minStep) == [ideal];
    assert BodySlices([ideal]) == [Slice(0, ideal)];
    if ideal < canvasH {
      assert SlicePlan([ideal], canvasH) == [Slice(0, ideal), Slice(ideal, canvasH - ideal)];
    }
  }

  /** At least one: jsPDF never saves a document without a page. */
  function Max1(n: int): (m: int)
    ensures m >= 1 && m >= n && (m == n || m == 1)
  {
    if n >= 1 then n else 1
  }
}
