/**
 * The page-break planner (`computeCutPositionsPx`). From the measured bottom
 * edges of the protected blocks it collects a sorted list of boundaries in
 * canvas pixels, then walks down the canvas choosing each page's cut: the
 * largest boundary at most one page below the previous cut and more than
 * `minStep` below it, or, when there is none, exactly one page below.
 */
module Planner {
  import opened Base

  predicate Sorted(s: seq<int>) {
    forall i, j :: 0 <= i < j < |s| ==> s[i] <= s[j]
  }

  predicate StrictlyIncreasing(s: seq<int>) {
    forall i, j :: 0 <= i < j < |s| ==> s[i] < s[j]
  }

  predicate NoDuplicates(s: seq<int>) {
    forall i, j :: 0 <= i < j < |s| ==> s[i] != s[j]
  }

  // ---------------------------------------------------------------------
  // Collecting the boundaries

  /**
   * `css` is the boundary set of `measured`: it starts with 0, holds no value
   * twice, and holds the rounded positive bottoms and nothing else.
   */
  predicate CollectedBottoms(css: seq<int>, measured: seq<real>) {
    && |css| > 0 && css[0] == 0
    && NoDuplicates(css)
    && (forall v :: v in css ==> v >= 0)
    && (forall i :: 0 <= i < |measured| && measured[i] > 0.0 ==> JsRound(measured[i]) in css)
    && (forall v :: v in css ==> v == 0 || exists i :: 0 <= i < |measured| && measured[i] > 0.0 && JsRound(measured[i]) == v)
  }

  /**
   * `new Set([0])` plus `Math.round(bottom)` of every measured bottom edge
   * (relative to the top of the copy, in CSS pixels) that is positive, in the
   * Set's insertion order.
   */
  method CollectCssBottoms(measured: seq<real>) returns (css: seq<int>)
    ensures CollectedBottoms(css, measured)
  {
    css := [0];
    for k := 0 to |measured|
      invariant |css| > 0 && css[0] == 0
      invariant NoDuplicates(css)
      invariant forall v :: v in css ==> v >= 0
      invariant forall i :: 0 <= i < k && measured[i] > 0.0 ==> JsRound(measured[i]) in css
      invariant forall v :: v in css ==> v == 0 || exists i :: 0 <= i < k && measured[i] > 0.0 && JsRound(measured[i]) == v
    {
      if measured[k] > 0.0 {
        var v := JsRound(measured[k]);
        if v !in css {
          css := css + [v];
        }
      }
    }
  }

  /** `Math.round(css * scaleFactor)` of each collected offset, in order. */
  function ToCanvas(css: seq<int>, scale: real): (px: seq<int>)
    ensures |px| == |css|
    ensures forall i :: 0 <= i < |css| ==> px[i] == JsRound(css[i] as real * scale)
  {
    if css == [] then []
    else [JsRound(css[0] as real * scale)] + ToCanvas(css[1..], scale)
  }

  /** `x` placed into the sorted `s` before the first element larger than it. */
  function Insert(s: seq<int>, x: int): (r: seq<int>)
    requires Sorted(s)
    ensures |r| == |s| + 1
    ensures Sorted(r)
    ensures multiset(r) == multiset(s) + multiset{x}
    ensures r[0] == x || (s != [] && r[0] == s[0])
  {
    if s == [] || x <= s[0] then [x] + s
    else
      var tail := Insert(s[1..], x);
      assert s == [s[0]] + s[1..];
      assert forall k :: 0 <= k < |tail| ==> s[0] <= tail[k] by {
        assert s[0] <= tail[0];
        assert Sorted(tail);
      }
      [s[0]] + tail
  }

  /** `.sort((a, b) => a - b)`. */
  method SortAscending(s: seq<int>) returns (r: seq<int>)
    ensures Sorted(r)
    ensures multiset(r) == multiset(s)
  {
    r := [];
    for k := 0 to |s|
      invariant Sorted(r)
      invariant multiset(r) == multiset(s[..k])
    {
      assert s[..k + 1] == s[..k] + [s[k]];
      r := Insert(r, s[k]);
    }
    assert s[..|s|] == s;
  }

  // ---------------------------------------------------------------------
  // Choosing the cuts

  function Last(s: seq<int>): int
    requires |s| > 0
  {
    s[|s| - 1]
  }

  /** A boundary the planner may cut at after `y`: more than `minStep` and at most one page below. */
  predicate Eligible(b: int, y: int, ideal: int, minStep: int) {
    y + minStep < b <= y + ideal
  }

  predicate HasEligible(bounds: seq<int>, y: int, ideal: int, minStep: int) {
    exists k :: 0 <= k < |bounds| && Eligible(bounds[k], y, ideal, minStep)
  }

  /**
   * The inner `for (let i = bounds.length - 1; i >= 0; i--)` search over
   * `bounds[..i]`: the first eligible boundary from the end, else `y + ideal`.
   */
  function ScanBack(bounds: seq<int>, i: nat, y: int, ideal: int, minStep: int): (c: int)
    requires i <= |bounds|
    requires ideal >= 1 && minStep >= 0
    ensures y < c <= y + ideal
    decreases i
  {
    if i == 0 then y + ideal
    else if Eligible(bounds[i - 1], y, ideal, minStep) then bounds[i - 1]
    else ScanBack(bounds, i - 1, y, ideal, minStep)
  }

  /** The cut that follows `y`: always below `y`, never more than one page below. */
  function NextCut(bounds: seq<int>, y: int, ideal: int, minStep: int): (c: int)
    requires ideal >= 1 && minStep >= 0
    ensures y < c <= y + ideal
  {
    ScanBack(bounds, |bounds|, y, ideal, minStep)
  }

  lemma {:induction false} ScanBackChoice(bounds: seq<int>, i: nat, y: int, ideal: int, minStep: int)
    requires i <= |bounds|
    requires ideal >= 1 && minStep >= 0
    requires Sorted(bounds)
    ensures var c := ScanBack(bounds, i, y, ideal, minStep);
            (exists k :: 0 <= k < i && Eligible(bounds[k], y, ideal, minStep))
            ==> (c in bounds[..i] && Eligible(c, y, ideal, minStep)
                 && forall k :: 0 <= k < i && Eligible(bounds[k], y, ideal, minStep) ==> bounds[k] <= c)
    ensures (forall k :: 0 <= k < i ==> !Eligible(bounds[k], y, ideal, minStep))
            ==> ScanBack(bounds, i, y, ideal, minStep) == y + ideal
    decreases i
  {
    if i > 0 && !Eligible(bounds[i - 1], y, ideal, minStep) {
      ScanBackChoice(bounds, i - 1, y, ideal, minStep);
      assert bounds[..i - 1] <= bounds[..i];
    }
  }

  /**
   * When some boundary is eligible the cut is the largest eligible boundary;
   * otherwise it is exactly one page below `y`.
   */
  lemma NextCutChoice(bounds: seq<int>, y: int, ideal: int, minStep: int)
    requires ideal >= 1 && minStep >= 0
    requires Sorted(bounds)
    ensures var c := NextCut(bounds, y, ideal, minStep);
            HasEligible(bounds, y, ideal, minStep)
            ==> (c in bounds && Eligible(c, y, ideal, minStep)
                 && forall k :: 0 <= k < |bounds| && Eligible(bounds[k], y, ideal, minStep) ==> bounds[k] <= c)
    ensures !HasEligible(bounds, y, ideal, minStep) ==> NextCut(bounds, y, ideal, minStep) == y + ideal
  {
    ScanBackChoice(bounds, |bounds|, y, ideal, minStep);
    assert bounds[..|bounds|] == bounds;
  }

  /** The cuts the `while (y + 1 < last)` loop appends when it starts from `y`. */
  function CutsFrom(bounds: seq<int>, y: int, ideal: int, minStep: int): (cs: seq<int>)
    requires |bounds| > 0 && ideal >= 1 && minStep >= 0
    ensures cs == [] <==> y + 1 >= Last(bounds)
    ensures forall i :: 0 <= i < |cs| ==> cs[i] > y
    decreases Last(bounds) - y
  {
    if y + 1 < Last(bounds) then
      var c := NextCut(bounds, y, ideal, minStep);
      [c] + CutsFrom(bounds, c, ideal, minStep)
    else []
  }

  /** The cut list of `computeCutPositionsPx` for the boundaries `bounds`. */
  function Plan(bounds: seq<int>, ideal: int, minStep: int): (cuts: seq<int>)
    requires |bounds| > 0 && ideal >= 1 && minStep >= 0
    ensures cuts == [] <==> Last(bounds) <= 1
    ensures forall i :: 0 <= i < |cuts| ==> cuts[i] > 0
  {
    CutsFrom(bounds, 0, ideal, minStep)
  }

  /** The offset a cut list's `i`-th slice starts at: the previous cut, or `start` for the first. */
  function Prev(cuts: seq<int>, start: int, i: nat): int
    requires i <= |cuts|
  {
    if i == 0 then start else cuts[i - 1]
  }

  lemma {:induction false} CutsFromShape(bounds: seq<int>, y: int, ideal: int, minStep: int)
    requires |bounds| > 0 && ideal >= 1 && minStep >= 0
    ensures var cs := CutsFrom(bounds, y, ideal, minStep);
            && (forall i :: 0 <= i < |cs| ==> cs[i] == NextCut(bounds, Prev(cs, y, i), ideal, minStep))
            && (forall i :: 0 <= i < |cs| ==> cs[i] > y)
            && StrictlyIncreasing(cs)
            && (cs == [] <==> y + 1 >= Last(bounds))
            && (cs != [] ==> cs[|cs| - 1] + 1 >= Last(bounds))
            && (forall i :: 0 <= i < |cs| - 1 ==> cs[i] + 1 < Last(bounds))
  {
    CutsFromGreedy(bounds, y, ideal, minStep);
    CutsFromOrder(bounds, y, ideal, minStep);
  }

  /** Each cut of `cs` is the next cut after the one before it, starting from `y`. */
  predicate GreedyFrom(bounds: seq<int>, y: int, ideal: int, minStep: int, cs: seq<int>)
    requires ideal >= 1 && minStep >= 0
  {
    forall i :: 0 <= i < |cs| ==> cs[i] == NextCut(bounds, Prev(cs, y, i), ideal, minStep)
  }

  /** Each cut is the next cut after the one before it. */
  lemma {:induction false} CutsFromGreedy(bounds: seq<int>, y: int, ideal: int, minStep: int)
    requires |bounds| > 0 && ideal >= 1 && minStep >= 0
    ensures GreedyFrom(bounds, y, ideal, minStep, CutsFrom(bounds, y, ideal, minStep))
    decreases Last(bounds) - y
  {
    if y + 1 < Last(bounds) {
      var c := NextCut(bounds, y, ideal, minStep);
      var rest := CutsFrom(bounds, c, ideal, minStep);
      CutsFromGreedy(bounds, c, ideal, minStep);
      var cs := [c] + rest;
      assert CutsFrom(bounds, y, ideal, minStep) == cs;
      forall i | 1 <= i < |cs|
        ensures cs[i] == NextCut(bounds, Prev(cs, y, i), ideal, minStep)
      {
        assert cs[i] == rest[i - 1];
        assert Prev(cs, y, i) == Prev(rest, c, i - 1);
      }
    }
  }

  /** The cuts lie below `y` and increase, and the loop stops at the first cut within a pixel of the last boundary. */
  lemma {:induction false} CutsFromOrder(bounds: seq<int>, y: int, ideal: int, minStep: int)
    requires |bounds| > 0 && ideal >= 1 && minStep >= 0
    ensures var cs := CutsFrom(bounds, y, ideal, minStep);
            && (forall i :: 0 <= i < |cs| ==> cs[i] > y)
            && StrictlyIncreasing(cs)
            && (cs == [] <==> y + 1 >= Last(bounds))
            && (cs != [] ==> cs[|cs| - 1] + 1 >= Last(bounds))
            && (forall i :: 0 <= i < |cs| - 1 ==> cs[i] + 1 < Last(bounds))
    decreases Last(bounds) - y
  {
    if y + 1 < Last(bounds) {
      var c := NextCut(bounds, y, ideal, minStep);
      var rest := CutsFrom(bounds, c, ideal, minStep);
      CutsFromOrder(bounds, c, ideal, minStep);
      var cs := [c] + rest;
      assert CutsFrom(bounds, y, ideal, minStep) == cs;
      forall i | 1 <= i < |cs|
        ensures cs[i] == rest[i - 1] && cs[i] > c
      {
        assert rest[i - 1] > c;
      }
      assert rest != [] ==> cs[0] + 1 < Last(bounds);
    }
  }

  /** Cuts strictly increase from 0, and each is at most one page below the one before. */
  lemma PlanSteps(bounds: seq<int>, ideal: int, minStep: int)
    requires |bounds| > 0 && ideal >= 1 && minStep >= 0
    ensures var cs := Plan(bounds, ideal, minStep);
            && StrictlyIncreasing(cs)
            && (forall i :: 0 <= i < |cs| ==> Prev(cs, 0, i) < cs[i] <= Prev(cs, 0, i) + ideal)
  {
    CutsFromShape(bounds, 0, ideal, minStep);
    var cs := Plan(bounds, ideal, minStep);
    forall i | 0 <= i < |cs|
      ensures Prev(cs, 0, i) < cs[i] <= Prev(cs, 0, i) + ideal
    {
      assert cs[i] == NextCut(bounds, Prev(cs, 0, i), ideal, minStep);
    }
  }

  /**
   * Over sorted boundaries, the `i`-th cut is the largest boundary eligible
   * after the previous cut, or the previous cut plus one page when there is
   * no such boundary.
   */
  lemma PlanCutAt(bounds: seq<int>, ideal: int, minStep: int, i: nat)
    requires |bounds| > 0 && ideal >= 1 && minStep >= 0
    requires Sorted(bounds)
    requires i < |Plan(bounds, ideal, minStep)|
    ensures var cs := Plan(bounds, ideal, minStep);
            var y := Prev(cs, 0, i);
            && (HasEligible(bounds, y, ideal, minStep)
                ==> cs[i] in bounds && Eligible(cs[i], y, ideal, minStep)
                    && forall k :: 0 <= k < |bounds| && Eligible(bounds[k], y, ideal, minStep) ==> bounds[k] <= cs[i])
            && (!HasEligible(bounds, y, ideal, minStep) ==> cs[i] == y + ideal)
  {
    CutsFromShape(bounds, 0, ideal, minStep);
    var cs := Plan(bounds, ideal, minStep);
    NextCutChoice(bounds, Prev(cs, 0, i), ideal, minStep);
  }

  /**
   * The loop stops after the first cut that is no more than one pixel above
   * the last boundary; that cut may lie past it (a fallback cut one page
   * down), but by less than one page. There is no cut at all when the last
   * boundary is at most 1.
   */
  lemma PlanEnd(bounds: seq<int>, ideal: int, minStep: int)
    requires |bounds| > 0 && ideal >= 1 && minStep >= 0
    ensures var cs := Plan(bounds, ideal, minStep);
            && (cs == [] <==> Last(bounds) <= 1)
            && (cs != [] ==> Last(bounds) - 1 <= cs[|cs| - 1] <= Last(bounds) + ideal - 2)
  {
    CutsFromShape(bounds, 0, ideal, minStep);
    var cs := Plan(bounds, ideal, minStep);
    if cs != [] {
      var n := |cs| - 1;
      assert cs[n] == NextCut(bounds, Prev(cs, 0, n), ideal, minStep);
      assert Prev(cs, 0, n) + 1 < Last(bounds);
    }
  }

  /** `computeCutPositionsPx` after the boundaries are collected: the greedy cut loop. */
  method PlanCuts(bounds: seq<int>, ideal: int, minStep: int) returns (cuts: seq<int>)
    requires |bounds| > 0 && ideal >= 1 && minStep >= 0
    ensures cuts == Plan(bounds, ideal, minStep)
    ensures StrictlyIncreasing(cuts)
    ensures forall i :: 0 <= i < |cuts| ==> Prev(cuts, 0, i) < cuts[i] <= Prev(cuts, 0, i) + ideal
    ensures cuts == [] <==> Last(bounds) <= 1
  {
    cuts := [];
    var y := 0;
    var last := bounds[|bounds| - 1];
    while y + 1 < last
      invariant cuts + CutsFrom(bounds, y, ideal, minStep) == Plan(bounds, ideal, minStep)
      decreases last - y
    {
      var target := y + ideal;
      var candidate := y + ideal;
      var i := |bounds| - 1;
      while i >= 0
        invariant -1 <= i < |bounds|
        invariant candidate == y + ideal
        invariant ScanBack(bounds, i + 1, y, ideal, minStep) == NextCut(bounds, y, ideal, minStep)
        decreases i
      {
        var b := bounds[i];
        if b <= target && b > y + minStep {
          candidate := b;
          break;
        }
        i := i - 1;
      }
      assert candidate == NextCut(bounds, y, ideal, minStep);
      assert CutsFrom(bounds, y, ideal, minStep) == [candidate] + CutsFrom(bounds, candidate, ideal, minStep);
      cuts := cuts + [candidate];
      y := candidate;
    }
    PlanSteps(bounds, ideal, minStep);
    PlanEnd(bounds, ideal, minStep);
  }

  lemma ZeroInCanvasBounds(css: seq<int>, scale: real, bounds: seq<int>)
    requires |css| > 0 && css[0] == 0
    requires multiset(bounds) == multiset(ToCanvas(css, scale))
    ensures 0 in bounds
  {
    var px := ToCanvas(css, scale);
    assert px[0] == JsRound(0.0);
    assert px[0] in px;
    assert 0 in multiset(px);
    assert 0 in multiset(bounds);
  }

  lemma CanvasBoundsNonNegative(css: seq<int>, scale: real, bounds: seq<int>)
    requires scale > 0.0
    requires forall v :: v in css ==> v >= 0
    requires multiset(bounds) == multiset(ToCanvas(css, scale))
    ensures forall b :: b in bounds ==> b >= 0
  {
    var px := ToCanvas(css, scale);
    ToCanvasNonNegative(css, scale);
    forall b | b in bounds
      ensures b >= 0
    {
      assert b in multiset(bounds);
      assert b in multiset(px);
      assert b in px;
    }
  }

  /** Non-negative offsets stay non-negative when scaled and rounded. */
  lemma ToCanvasNonNegative(css: seq<int>, scale: real)
    requires scale > 0.0
    requires forall v :: v in css ==> v >= 0
    ensures forall b :: b in ToCanvas(css, scale) ==> b >= 0
  {
    var px := ToCanvas(css, scale);
    forall k | 0 <= k < |px|
      ensures px[k] >= 0
    {
      assert css[k] in css;
      assert css[k] as real * scale >= 0.0;
    }
  }

  /**
   * `computeCutPositionsPx(clone, scaleFactor, idealPageHeightPxCanvas)`:
   * boundaries collected, scaled to canvas pixels with
   * `minStep = Math.round(200 * scaleFactor)`, sorted, then planned.
   * `css` is the collected boundary set and `bounds` the sorted canvas
   * boundaries the cuts were planned over.
   */
  method ComputeCutPositions(measured: seq<real>, scale: real, ideal: int)
    returns (cuts: seq<int>, ghost bounds: seq<int>, ghost css: seq<int>)
    requires scale > 0.0 && ideal >= 1
    ensures CollectedBottoms(css, measured)
    ensures multiset(bounds) == multiset(ToCanvas(css, scale))
    ensures Sorted(bounds) && |bounds| > 0 && 0 in bounds
    ensures forall b :: b in bounds ==> b >= 0
    ensures cuts == Plan(bounds, ideal, JsRound(200.0 * scale))
    ensures StrictlyIncreasing(cuts)
    ensures forall i :: 0 <= i < |cuts| ==> Prev(cuts, 0, i) < cuts[i] <= Prev(cuts, 0, i) + ideal
  {
    var collected := CollectCssBottoms(measured);
    css := collected;
    var sorted := SortAscending(ToCanvas(collected, scale));
    bounds := sorted;
    assert css[0] in css;
    ZeroInCanvasBounds(css, scale, sorted);
    CanvasBoundsNonNegative(css, scale, sorted);
    var minStep := JsRound(200.0 * scale);
    cuts := PlanCuts(sorted, ideal, minStep);
  }
}
