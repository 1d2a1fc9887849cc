/** The values the image scheduler of loadImages (www/js/app.js:1202-1597)
    decides on: the <img> elements of an article, the window of images
    visible on screen, and the pure decisions made over them. */
module ImageModel {
  import opened Text
  import opened Wrappers

  /** Batch size limits of the scheduler. */
  const MaxVisibleSliceSize: int := 10
  const PrefetchSliceSize: int := 20
  const SvgSliceSize: int := 3

  /** An <img> element of the article: its identity, its data-kiwixsrc
      attribute (the archive URL, moved there when the article was rewritten),
      its class and its alt text. Whether it has a src, whether it is on
      screen and whether MathJax replaced it are properties of the moment,
      kept outside the value. */
  datatype ImageRef = ImageRef(id: nat, kiwixSrc: string, className: string, alt: string)

  const MathFallback: string := "mwe-math-fallback"
  const MathFallbackImage: string := MathFallback + "-image"

  /** The SVG bucket of triageImages: an SVG file, or any maths fallback image
      with an alt text. */
  predicate IsSvgOrMath(x: ImageRef)
  {
    EndsWithCI(x.kiwixSrc, ".svg") || (ContainsCI(x.className, MathFallback) && x.alt != "")
  }

  /** What the MathJax pass replaces by a TeX script: a maths fallback image with an alt text. */
  predicate Typesettable(x: ImageRef)
  {
    ContainsCI(x.className, MathFallbackImage) && x.alt != ""
  }

  /** MathJax only ever takes images out of the SVG bucket. */
  lemma TypesettableIsSvgOrMath(x: ImageRef)
    requires Typesettable(x)
    ensures IsSvgOrMath(x)
  {
    ContainsPrefixCI(x.className, MathFallback, "-image");
  }

  // ---------------------------------------------------------------------
  // checkVisibleImages

  /** The first and last visible image indices; None stands for null. */
  datatype View = View(first: Option<int>, last: Option<int>)

  /** The scan of checkVisibleImages from index `i` on, with the bounds found so far. */
  function ScanFrom(imgs: seq<ImageRef>, inView: set<nat>, i: nat, first: Option<int>, last: Option<int>): View
    requires i <= |imgs|
    decreases |imgs| - i
  {
    if i == |imgs| then View(first, last)
    else if imgs[i].id in inView then
      ScanFrom(imgs, inView, i + 1, if first.None? then Some(i) else first, Some(i))
    else if first.Some? && last.Some? then View(first, last)
    else ScanFrom(imgs, inView, i + 1, first, last)
  }

  /** The window checkVisibleImages returns for the images `imgs`, given the
      ids the browser reports in view. */
  function VisibleWindow(imgs: seq<ImageRef>, inView: set<nat>): View
  {
    ScanFrom(imgs, inView, 0, None, None)
  }

  /** The property of a view being the first run of visible images. */
  predicate IsFirstVisibleRun(imgs: seq<ImageRef>, inView: set<nat>, v: View)
  {
    (v.first.None? <==> v.last.None?) &&
    (v.first.None? <==> forall i :: 0 <= i < |imgs| ==> imgs[i].id !in inView) &&
    (v.first.Some? ==>
      0 <= v.first.value <= v.last.value < |imgs| &&
      (forall i :: 0 <= i < v.first.value ==> imgs[i].id !in inView) &&
      (forall i :: v.first.value <= i <= v.last.value ==> imgs[i].id in inView) &&
      (v.last.value + 1 == |imgs| || imgs[v.last.value + 1].id !in inView))
  }

  lemma {:induction false} ScanBeforeAnyVisible(imgs: seq<ImageRef>, inView: set<nat>, i: nat)
    requires i <= |imgs|
    requires forall j :: 0 <= j < i ==> imgs[j].id !in inView
    ensures IsFirstVisibleRun(imgs, inView, ScanFrom(imgs, inView, i, None, None))
    decreases |imgs| - i
  {
    if i < |imgs| {
      if imgs[i].id in inView {
        ScanInsideRun(imgs, inView, i, i + 1);
      } else {
        ScanBeforeAnyVisible(imgs, inView, i + 1);
      }
    }
  }

  lemma {:induction false} ScanInsideRun(imgs: seq<ImageRef>, inView: set<nat>, f: nat, i: nat)
    requires f < i <= |imgs|
    requires forall j :: 0 <= j < f ==> imgs[j].id !in inView
    requires forall j :: f <= j < i ==> imgs[j].id in inView
    ensures IsFirstVisibleRun(imgs, inView, ScanFrom(imgs, inView, i, Some(f), Some(i - 1)))
    decreases |imgs| - i
  {
    assert imgs[f].id in inView;
    if i < |imgs| && imgs[i].id in inView {
      ScanInsideRun(imgs, inView, f, i + 1);
    }
  }

  /** checkVisibleImages returns null/null exactly when no image is visible;
      otherwise the lowest visible index, and the end of the run of visible
      images starting there. */
  lemma VisibleWindowIsFirstRun(imgs: seq<ImageRef>, inView: set<nat>)
    ensures IsFirstVisibleRun(imgs, inView, VisibleWindow(imgs, inView))
  {
    ScanBeforeAnyVisible(imgs, inView, 0);
  }

  // ---------------------------------------------------------------------
  // prepareImages

  /** The removal loop of prepareImages: the images kept (those without a
      src), how many were removed, and the removal position recorded for the
      last removed image that was in view. */
  datatype Swept = Swept(kept: seq<ImageRef>, removed: nat, visibleImage: Option<int>)

  function Sweep(imgs: seq<ImageRef>, loaded: set<nat>, inView: set<nat>): (r: Swept)
  {
    if imgs == [] then Swept([], 0, None)
    else
      var r := Sweep(imgs[..|imgs| - 1], loaded, inView);
      var x := imgs[|imgs| - 1];
      if x.id in loaded then
        Swept(r.kept, r.removed + 1, if x.id in inView then Some(r.removed) else r.visibleImage)
      else Swept(r.kept + [x], r.removed, r.visibleImage)
  }

  /** The images of `imgs` without a src, in order. */
  function Unloaded(imgs: seq<ImageRef>, loaded: set<nat>): seq<ImageRef>
  {
    if imgs == [] then []
    else (if imgs[0].id in loaded then [] else [imgs[0]]) + Unloaded(imgs[1..], loaded)
  }

  lemma {:induction false} UnloadedAppend(imgs: seq<ImageRef>, x: ImageRef, loaded: set<nat>)
    ensures Unloaded(imgs + [x], loaded) == Unloaded(imgs, loaded) + Unloaded([x], loaded)
  {
    if imgs != [] {
      assert (imgs + [x])[1..] == imgs[1..] + [x];
      UnloadedAppend(imgs[1..], x, loaded);
    } else {
      assert imgs + [x] == [x];
    }
  }

  lemma {:induction false} UnloadedMembers(imgs: seq<ImageRef>, loaded: set<nat>)
    ensures forall x :: x in Unloaded(imgs, loaded) <==> x in imgs && x.id !in loaded
  {
    if imgs != [] {
      UnloadedMembers(imgs[1..], loaded);
      assert imgs == [imgs[0]] + imgs[1..];
    }
  }

  /** The removal loop keeps exactly the images without a src, in their
      order, counts the others, and records a position only for a loaded
      image in view, always below the number removed. */
  lemma {:induction false} SweepKeepsUnloaded(imgs: seq<ImageRef>, loaded: set<nat>, inView: set<nat>)
    ensures var r := Sweep(imgs, loaded, inView);
      r.kept == Unloaded(imgs, loaded) &&
      r.removed == |imgs| - |r.kept| &&
      (r.visibleImage.Some? <==> exists j :: 0 <= j < |imgs| && imgs[j].id in loaded && imgs[j].id in inView) &&
      (r.visibleImage.Some? ==> 0 <= r.visibleImage.value < r.removed)
  {
    if imgs != [] {
      var init := imgs[..|imgs| - 1];
      var x := imgs[|imgs| - 1];
      SweepKeepsUnloaded(init, loaded, inView);
      assert imgs == init + [x];
      UnloadedAppend(init, x, loaded);
      var r := Sweep(imgs, loaded, inView);
      if r.visibleImage.Some? && !(x.id in loaded && x.id in inView) {
        var j :| 0 <= j < |init| && init[j].id in loaded && init[j].id in inView;
        assert imgs[j] == init[j];
      }
      if exists j :: 0 <= j < |imgs| && imgs[j].id in loaded && imgs[j].id in inView {
        var j :| 0 <= j < |imgs| && imgs[j].id in loaded && imgs[j].id in inView;
        if j < |init| {
          assert init[j] == imgs[j];
        }
      }
    }
  }

  /** What prepareImages does once it has images left to sort. */
  datatype Decision = TriageWindow(first: Option<int>, last: Option<int>) | WaitForScroll

  /** `v >= 0` as JavaScript evaluates it for null or a number: null becomes 0. */
  predicate JsAtLeastZero(v: Option<int>)
  {
    v.None? || v.value >= 0
  }

  /** The decision of prepareImages from the view, the position of a loaded
      image in view and the number of loaded images removed. */
  function PrepareDecision(view: View, visibleImage: Option<int>, removed: nat): Decision
  {
    if JsAtLeastZero(view.last) then TriageWindow(view.first, view.last)
    else if visibleImage.Some? then
      if removed - visibleImage.value <= 5 then TriageWindow(None, None) else WaitForScroll
    else TriageWindow(None, None)
  }

  /** Because null >= 0 holds in JavaScript, prepareImages always triages the
      window it has just computed; waiting for a scroll, and the test on the
      distance to the last loaded image in view, are never reached. */
  lemma PrepareAlwaysTriages(imgs: seq<ImageRef>, inView: set<nat>, visibleImage: Option<int>, removed: nat)
    ensures var v := VisibleWindow(imgs, inView);
      PrepareDecision(v, visibleImage, removed) == TriageWindow(v.first, v.last)
  {
    VisibleWindowIsFirstRun(imgs, inView);
  }

  // ---------------------------------------------------------------------
  // triageImages

  /** The bounds [start, stop) of the images triageImages examines, from the
      first and last visible index (-1 when unknown) and the array length. */
  function WindowBounds(first: int, last: int, n: nat): (w: (int, int))
    ensures 0 <= w.0 && w.1 <= n
  {
    var len := last + PrefetchSliceSize + 1;
    var start := first;
    var start1 := if len > n then start - (len - n) else start;
    var len1 := if len > n then n else len;
    (if start1 < 0 then 0 else start1, len1)
  }

  function Min(a: int, b: int): int
  {
    if a <= b then a else b
  }

  /** A window running past the end is shifted left by the overrun, keeping its
      width, and then clamped at the start of the array; one that fits keeps
      its end and is only clamped at 0. */
  lemma WindowShiftsLeft(first: int, last: int, n: nat)
    ensures var w := WindowBounds(first, last, n);
      var len := last + PrefetchSliceSize + 1;
      (len > n && first <= len ==> w.1 == n && w.1 - w.0 == Min(len - first, n)) &&
      (len <= n ==> w.1 == len && w.0 == (if first < 0 then 0 else first))
  {
  }

  /** The four queues triageImages fills: visibleSlice, prefetchSlice, and the
      in-range and out-of-range SVG groups concatenated into svgSlice. */
  datatype Slices = Slices(visible: seq<ImageRef>, prefetch: seq<ImageRef>, svgIn: seq<ImageRef>, svgOut: seq<ImageRef>)

  /** The sorting loop of triageImages over indices [start, stop), with
      visibleSlice and prefetchSlice holding vis0 and pre0 beforehand. */
  function SortWindow(imgs: seq<ImageRef>, start: int, stop: int, first: int, last: int,
                      vis0: seq<ImageRef>, pre0: seq<ImageRef>): Slices
    requires 0 <= start && stop <= |imgs|
    decreases stop - start
  {
    if stop <= start then Slices(vis0, pre0, [], [])
    else
      var r := SortWindow(imgs, start, stop - 1, first, last, vis0, pre0);
      var i := stop - 1;
      var x := imgs[i];
      if IsSvgOrMath(x) then
        if i < first || i > last then r.(svgOut := r.svgOut + [x]) else r.(svgIn := r.svgIn + [x])
      else if i <= last && |r.visible| <= MaxVisibleSliceSize then r.(visible := r.visible + [x])
      else r.(prefetch := r.prefetch + [x])
  }

  /** Where an image belongs by its index alone. */
  datatype Bucket = SvgInside | SvgOutside | RasterUpToLast | RasterAfterLast

  function BucketOf(x: ImageRef, i: int, first: int, last: int): Bucket
  {
    if IsSvgOrMath(x) then (if i < first || i > last then SvgOutside else SvgInside)
    else if i <= last then RasterUpToLast
    else RasterAfterLast
  }

  /** The images of [start, stop) in bucket k, in index order. */
  function Pick(imgs: seq<ImageRef>, start: int, stop: int, first: int, last: int, k: Bucket): seq<ImageRef>
    requires 0 <= start && stop <= |imgs|
    decreases stop - start
  {
    if stop <= start then []
    else
      Pick(imgs, start, stop - 1, first, last, k) +
      (if BucketOf(imgs[stop - 1], stop - 1, first, last) == k then [imgs[stop - 1]] else [])
  }

  /** No image past `last` is found before index last + 1. */
  lemma {:induction false} NoRasterAfterLastYet(imgs: seq<ImageRef>, start: int, stop: int, first: int, last: int)
    requires 0 <= start && stop <= |imgs| && stop - 1 <= last
    ensures Pick(imgs, start, stop, first, last, RasterAfterLast) == []
    decreases stop - start
  {
    if stop > start {
      NoRasterAfterLastYet(imgs, start, stop - 1, first, last);
    }
  }

  /** How many raster images up to `last` the visible slice still accepts:
      it takes one more while it holds at most MaxVisibleSliceSize. */
  function Room(vis0: seq<ImageRef>): nat
  {
    if |vis0| <= MaxVisibleSliceSize then MaxVisibleSliceSize + 1 - |vis0| else 0
  }

  /** The sorting loop, stated by buckets: the SVG groups are exactly the SVG
      and maths images inside and outside [first, last]; the visible slice
      gains the first raster images up to `last` it has room for; every other
      raster image goes to the prefetch slice, in index order. */
  predicate SortedByBuckets(imgs: seq<ImageRef>, start: int, stop: int, first: int, last: int,
                            vis0: seq<ImageRef>, pre0: seq<ImageRef>)
  {
    0 <= start && stop <= |imgs| &&
    var r := SortWindow(imgs, start, stop, first, last, vis0, pre0);
    var up := Pick(imgs, start, stop, first, last, RasterUpToLast);
    var k := Min(|up|, Room(vis0));
    r.svgIn == Pick(imgs, start, stop, first, last, SvgInside) &&
    r.svgOut == Pick(imgs, start, stop, first, last, SvgOutside) &&
    r.visible == vis0 + up[..k] &&
    r.prefetch == pre0 + up[k..] + Pick(imgs, start, stop, first, last, RasterAfterLast)
  }

  lemma {:induction false} SortWindowByBuckets(imgs: seq<ImageRef>, start: int, stop: int, first: int, last: int,
                                               vis0: seq<ImageRef>, pre0: seq<ImageRef>)
    requires 0 <= start && stop <= |imgs|
    ensures SortedByBuckets(imgs, start, stop, first, last, vis0, pre0)
    decreases stop - start, 1
  {
    if stop > start {
      SortWindowGrows(imgs, start, stop, first, last, vis0, pre0);
    } else {
      SortWindowEmpty(imgs, start, stop, first, last, vis0, pre0);
    }
  }

  lemma SortWindowEmpty(imgs: seq<ImageRef>, start: int, stop: int, first: int, last: int,
                        vis0: seq<ImageRef>, pre0: seq<ImageRef>)
    requires 0 <= start && stop <= |imgs| && stop <= start
    ensures SortedByBuckets(imgs, start, stop, first, last, vis0, pre0)
  {
    assert vis0 + [] == vis0 && pre0 + [] + [] == pre0;
  }

  /** The inductive case of SortWindowByBuckets. */
  lemma {:induction false} SortWindowGrows(imgs: seq<ImageRef>, start: int, stop: int, first: int, last: int,
                                           vis0: seq<ImageRef>, pre0: seq<ImageRef>)
    requires 0 <= start < stop <= |imgs|
    ensures SortedByBuckets(imgs, start, stop, first, last, vis0, pre0)
    decreases stop - start, 0
  {
    SortWindowByBuckets(imgs, start, stop - 1, first, last, vis0, pre0);
    SortWindowStep(imgs, start, stop, first, last, vis0, pre0);
  }

  /** One more image lands in the queue its bucket names. */
  lemma SortWindowStep(imgs: seq<ImageRef>, start: int, stop: int, first: int, last: int,
                       vis0: seq<ImageRef>, pre0: seq<ImageRef>)
    requires 0 <= start < stop <= |imgs|
    requires SortedByBuckets(imgs, start, stop - 1, first, last, vis0, pre0)
    ensures SortedByBuckets(imgs, start, stop, first, last, vis0, pre0)
  {
    var x := imgs[stop - 1];
    var up0 := Pick(imgs, start, stop - 1, first, last, RasterUpToLast);
    match BucketOf(x, stop - 1, first, last)
    case SvgInside => SortStepSvg(imgs, start, stop, first, last, vis0, pre0);
    case SvgOutside => SortStepSvg(imgs, start, stop, first, last, vis0, pre0);
    case RasterAfterLast => SortStepAfterLast(imgs, start, stop, first, last, vis0, pre0);
    case RasterUpToLast =>
      if |up0| < Room(vis0) {
        SortStepVisible(imgs, start, stop, first, last, vis0, pre0);
      } else {
        SortStepOverflow(imgs, start, stop, first, last, vis0, pre0);
      }
  }

  lemma SortStepSvg(imgs: seq<ImageRef>, start: int, stop: int, first: int, last: int,
                    vis0: seq<ImageRef>, pre0: seq<ImageRef>)
    requires 0 <= start < stop <= |imgs|
    requires SortedByBuckets(imgs, start, stop - 1, first, last, vis0, pre0)
    requires IsSvgOrMath(imgs[stop - 1])
    ensures SortedByBuckets(imgs, start, stop, first, last, vis0, pre0)
  {
  }

  lemma SortStepAfterLast(imgs: seq<ImageRef>, start: int, stop: int, first: int, last: int,
                          vis0: seq<ImageRef>, pre0: seq<ImageRef>)
    requires 0 <= start < stop <= |imgs|
    requires SortedByBuckets(imgs, start, stop - 1, first, last, vis0, pre0)
    requires BucketOf(imgs[stop - 1], stop - 1, first, last) == RasterAfterLast
    ensures SortedByBuckets(imgs, start, stop, first, last, vis0, pre0)
  {
    var up := Pick(imgs, start, stop, first, last, RasterUpToLast);
    var k := Min(|up|, Room(vis0));
    assert up == Pick(imgs, start, stop - 1, first, last, RasterUpToLast);
    assert pre0 + up[k..] + Pick(imgs, start, stop, first, last, RasterAfterLast) ==
      pre0 + up[k..] + Pick(imgs, start, stop - 1, first, last, RasterAfterLast) + [imgs[stop - 1]];
  }

  lemma SortStepVisible(imgs: seq<ImageRef>, start: int, stop: int, first: int, last: int,
                        vis0: seq<ImageRef>, pre0: seq<ImageRef>)
    requires 0 <= start < stop <= |imgs|
    requires SortedByBuckets(imgs, start, stop - 1, first, last, vis0, pre0)
    requires BucketOf(imgs[stop - 1], stop - 1, first, last) == RasterUpToLast
    requires |Pick(imgs, start, stop - 1, first, last, RasterUpToLast)| < Room(vis0)
    ensures SortedByBuckets(imgs, start, stop, first, last, vis0, pre0)
  {
    var x := imgs[stop - 1];
    var up0 := Pick(imgs, start, stop - 1, first, last, RasterUpToLast);
    var up := Pick(imgs, start, stop, first, last, RasterUpToLast);
    NoRasterAfterLastYet(imgs, start, stop - 1, first, last);
    assert up == up0 + [x];
    assert up[..|up|] == up0[..|up0|] + [x];
    assert up[|up|..] == [] == up0[|up0|..];
  }

  lemma SortStepOverflow(imgs: seq<ImageRef>, start: int, stop: int, first: int, last: int,
                         vis0: seq<ImageRef>, pre0: seq<ImageRef>)
    requires 0 <= start < stop <= |imgs|
    requires SortedByBuckets(imgs, start, stop - 1, first, last, vis0, pre0)
    requires BucketOf(imgs[stop - 1], stop - 1, first, last) == RasterUpToLast
    requires |Pick(imgs, start, stop - 1, first, last, RasterUpToLast)| >= Room(vis0)
    ensures SortedByBuckets(imgs, start, stop, first, last, vis0, pre0)
  {
    var x := imgs[stop - 1];
    var up0 := Pick(imgs, start, stop - 1, first, last, RasterUpToLast);
    var up := Pick(imgs, start, stop, first, last, RasterUpToLast);
    var k := Room(vis0);
    NoRasterAfterLastYet(imgs, start, stop - 1, first, last);
    assert up == up0 + [x];
    assert up[..k] == up0[..k];
    assert up[k..] == up0[k..] + [x];
  }

  /** At most 11 images enter an initially empty visible slice: the cap is
      checked with <= against 10. */
  lemma VisibleSliceBound(imgs: seq<ImageRef>, start: int, stop: int, first: int, last: int, vis0: seq<ImageRef>, pre0: seq<ImageRef>)
    requires 0 <= start && stop <= |imgs|
    ensures |SortWindow(imgs, start, stop, first, last, vis0, pre0).visible| <=
      (if |vis0| <= MaxVisibleSliceSize + 1 then MaxVisibleSliceSize + 1 else |vis0|)
  {
    SortWindowByBuckets(imgs, start, stop, first, last, vis0, pre0);
  }

  /** The four buckets split the window: each image of [start, stop) is in
      exactly one of them. */
  lemma {:induction false} BucketsPartitionWindow(imgs: seq<ImageRef>, start: int, stop: int, first: int, last: int)
    requires 0 <= start <= stop <= |imgs|
    ensures Partitioned(imgs, start, stop, first, last)
    decreases stop - start, 1
  {
    if stop == start {
      PartitionEmpty(imgs, start, stop, first, last);
    } else {
      PartitionGrows(imgs, start, stop, first, last);
    }
  }

  /** The inductive case of BucketsPartitionWindow. */
  lemma {:induction false} PartitionGrows(imgs: seq<ImageRef>, start: int, stop: int, first: int, last: int)
    requires 0 <= start < stop <= |imgs|
    ensures Partitioned(imgs, start, stop, first, last)
    decreases stop - start, 0
  {
    BucketsPartitionWindow(imgs, start, stop - 1, first, last);
    PartitionStep(imgs, start, stop, first, last);
  }

  lemma PartitionEmpty(imgs: seq<ImageRef>, start: int, stop: int, first: int, last: int)
    requires 0 <= start == stop <= |imgs|
    ensures Partitioned(imgs, start, stop, first, last)
  {
    assert imgs[start..stop] == [];
  }

  /** The four buckets of [start, stop) together hold its images. */
  predicate Partitioned(imgs: seq<ImageRef>, start: int, stop: int, first: int, last: int)
  {
    0 <= start <= stop <= |imgs| &&
    multiset(Pick(imgs, start, stop, first, last, SvgInside)) +
    multiset(Pick(imgs, start, stop, first, last, SvgOutside)) +
    multiset(Pick(imgs, start, stop, first, last, RasterUpToLast)) +
    multiset(Pick(imgs, start, stop, first, last, RasterAfterLast)) ==
    multiset(imgs[start..stop])
  }

  /** One more image keeps the window partitioned. */
  lemma PartitionStep(imgs: seq<ImageRef>, start: int, stop: int, first: int, last: int)
    requires 0 <= start < stop <= |imgs|
    requires Partitioned(imgs, start, stop - 1, first, last)
    ensures Partitioned(imgs, start, stop, first, last)
  {
    var x := imgs[stop - 1];
    PickStep(imgs, start, stop, first, last, SvgInside);
    PickStep(imgs, start, stop, first, last, SvgOutside);
    PickStep(imgs, start, stop, first, last, RasterUpToLast);
    PickStep(imgs, start, stop, first, last, RasterAfterLast);
    WindowGrows(imgs, start, stop);
    OneMoreInOneBucket(
      multiset(Pick(imgs, start, stop - 1, first, last, SvgInside)),
      multiset(Pick(imgs, start, stop - 1, first, last, SvgOutside)),
      multiset(Pick(imgs, start, stop - 1, first, last, RasterUpToLast)),
      multiset(Pick(imgs, start, stop - 1, first, last, RasterAfterLast)),
      multiset(Pick(imgs, start, stop, first, last, SvgInside)),
      multiset(Pick(imgs, start, stop, first, last, SvgOutside)),
      multiset(Pick(imgs, start, stop, first, last, RasterUpToLast)),
      multiset(Pick(imgs, start, stop, first, last, RasterAfterLast)),
      x, BucketOf(x, stop - 1, first, last), multiset(imgs[start..stop - 1]), multiset(imgs[start..stop]));
  }

  lemma PickStep(imgs: seq<ImageRef>, start: int, stop: int, first: int, last: int, k: Bucket)
    requires 0 <= start < stop <= |imgs|
    ensures multiset(Pick(imgs, start, stop, first, last, k)) ==
      multiset(Pick(imgs, start, stop - 1, first, last, k)) +
      (if BucketOf(imgs[stop - 1], stop - 1, first, last) == k then multiset{imgs[stop - 1]} else multiset{})
  {
  }

  /** Multiset bookkeeping of one partition step. */
  lemma OneMoreInOneBucket(a0: multiset<ImageRef>, b0: multiset<ImageRef>, c0: multiset<ImageRef>, d0: multiset<ImageRef>,
                           a1: multiset<ImageRef>, b1: multiset<ImageRef>, c1: multiset<ImageRef>, d1: multiset<ImageRef>,
                           x: ImageRef, b: Bucket, w0: multiset<ImageRef>, w1: multiset<ImageRef>)
    requires a1 == a0 + (if b == SvgInside then multiset{x} else multiset{})
    requires b1 == b0 + (if b == SvgOutside then multiset{x} else multiset{})
    requires c1 == c0 + (if b == RasterUpToLast then multiset{x} else multiset{})
    requires d1 == d0 + (if b == RasterAfterLast then multiset{x} else multiset{})
    requires a0 + b0 + c0 + d0 == w0 && w1 == w0 + multiset{x}
    ensures a1 + b1 + c1 + d1 == w1
  {
  }

  lemma WindowGrows(imgs: seq<ImageRef>, start: int, stop: int)
    requires 0 <= start < stop <= |imgs|
    ensures multiset(imgs[start..stop]) == multiset(imgs[start..stop - 1]) + multiset{imgs[stop - 1]}
  {
    assert imgs[start..stop] == imgs[start..stop - 1] + [imgs[stop - 1]];
  }

  // ---------------------------------------------------------------------
  // The MathJax pass of displaySlices

  /** The SVG queue after the MathJax pass: the images it does not replace, in order. */
  function Untypeset(xs: seq<ImageRef>): (r: seq<ImageRef>)
    ensures |r| <= |xs|
  {
    if xs == [] then []
    else
      Untypeset(xs[..|xs| - 1]) + (if Typesettable(xs[|xs| - 1]) then [] else [xs[|xs| - 1]])
  }

  /** The ids of the images the MathJax pass replaces by scripts. */
  function TypesetIds(xs: seq<ImageRef>): set<nat>
  {
    set x | x in xs && Typesettable(x) :: x.id
  }

  lemma UntypesetSnoc(xs: seq<ImageRef>, x: ImageRef)
    ensures Untypeset(xs + [x]) == Untypeset(xs) + (if Typesettable(x) then [] else [x])
  {
    assert (xs + [x])[..|xs|] == xs;
  }

  lemma TypesetIdsSnoc(xs: seq<ImageRef>, x: ImageRef)
    ensures TypesetIds(xs + [x]) == TypesetIds(xs) + (if Typesettable(x) then {x.id} else {})
  {
    assert forall y :: y in xs + [x] <==> y in xs || y == x;
  }

  /** The pass keeps exactly the images it does not replace, in order, and
      counts one image for each one it replaces. */
  lemma {:induction false} UntypesetKeepsOthers(xs: seq<ImageRef>)
    ensures forall x :: x in Untypeset(xs) <==> x in xs && !Typesettable(x)
    ensures |Untypeset(xs)| == |xs| <==> forall i :: 0 <= i < |xs| ==> !Typesettable(xs[i])
  {
    if xs != [] {
      var init := xs[..|xs| - 1];
      UntypesetKeepsOthers(init);
      assert xs == init + [xs[|xs| - 1]];
      if |Untypeset(xs)| == |xs| {
        forall i | 0 <= i < |xs| ensures !Typesettable(xs[i]) {
          if i < |init| { assert xs[i] == init[i]; }
        }
      }
    }
  }

  // ---------------------------------------------------------------------
  // The document

  /** The <img> elements still in the document: those MathJax did not replace. */
  function Present(doc: seq<ImageRef>, replaced: set<nat>): seq<ImageRef>
  {
    if doc == [] then []
    else (if doc[0].id in replaced then [] else [doc[0]]) + Present(doc[1..], replaced)
  }

  lemma {:induction false} PresentMembers(doc: seq<ImageRef>, replaced: set<nat>)
    ensures forall x :: x in Present(doc, replaced) <==> x in doc && x.id !in replaced
  {
    if doc != [] {
      PresentMembers(doc[1..], replaced);
      assert doc == [doc[0]] + doc[1..];
    }
  }
}
