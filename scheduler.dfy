/** The closure of loadImages (www/js/app.js:1202-1597) as an object: its
    variables are fields, and each of its inner functions is a method that
    updates them step by step, as the JavaScript does, and is proved to have
    the effect of the matching step function of ImageSteps. */
module ImageScheduler {
  import opened Wrappers
  import opened ImageModel
  import opened ImageSteps
  import opened SchedulerInvariants
  import ArchiveUrls
  import ImageMime

  /** The removal loop of prepareImages: every image with a src is spliced
      out of the list, counting the removals and remembering, for one in
      view, how many had been removed before it. */
  method RemoveLoaded(all: seq<ImageRef>, loaded: set<nat>, inView: set<nat>) returns (r: Swept)
    ensures r == Sweep(all, loaded, inView)
    ensures r.kept == Unloaded(all, loaded) && r.removed == |all| - |r.kept|
  {
    var imgs := all;
    var visibleImage: Option<int> := None;
    var lastRemoved: nat := 0;
    var i: int := 0;
    while i < |imgs|
      invariant 0 <= i <= |imgs| && i + lastRemoved <= |all|
      invariant imgs[i..] == all[i + lastRemoved..]
      invariant Sweep(all[..i + lastRemoved], loaded, inView) == Swept(imgs[..i], lastRemoved, visibleImage)
      decreases |imgs| - i
    {
      assert all[..i + lastRemoved + 1][..i + lastRemoved] == all[..i + lastRemoved];
      assert all[i + lastRemoved] == imgs[i];
      if imgs[i].id in loaded {
        visibleImage := if imgs[i].id in inView then Some(lastRemoved) else visibleImage;
        assert imgs[..i] == (imgs[..i] + imgs[i + 1..])[..i];
        imgs := imgs[..i] + imgs[i + 1..];
        i := i - 1;
        lastRemoved := lastRemoved + 1;
      } else {
        assert imgs[..i + 1] == imgs[..i] + [imgs[i]];
      }
      i := i + 1;
    }
    assert all[..i + lastRemoved] == all;
    assert imgs[..i] == imgs;
    r := Swept(imgs, lastRemoved, visibleImage);
    SweepKeepsUnloaded(all, loaded, inView);
  }

  /** The sorting loop of triageImages over indices [startSlice, lengthSlice). */
  method SortImages(images: seq<ImageRef>, startSlice: int, lengthSlice: int, first: int, last: int,
                    visibleSlice: seq<ImageRef>, prefetchSlice: seq<ImageRef>) returns (r: Slices)
    requires 0 <= startSlice && lengthSlice <= |images|
    ensures r == SortWindow(images, startSlice, lengthSlice, first, last, visibleSlice, prefetchSlice)
    ensures |r.visible| <= (if |visibleSlice| <= MaxVisibleSliceSize + 1 then MaxVisibleSliceSize + 1 else |visibleSlice|)
  {
    var visible := visibleSlice;
    var prefetch := prefetchSlice;
    var svgGroup1: seq<ImageRef> := [];
    var svgGroup2: seq<ImageRef> := [];
    var i := startSlice;
    while i < lengthSlice
      invariant startSlice <= i && (i <= lengthSlice || i == startSlice)
      invariant SortWindow(images, startSlice, Min(i, lengthSlice), first, last, visibleSlice, prefetchSlice) ==
        Slices(visible, prefetch, svgGroup1, svgGroup2)
    {
      var x := images[i];
      if IsSvgOrMath(x) {
        if i < first || i > last {
          svgGroup2 := svgGroup2 + [x];
        } else {
          svgGroup1 := svgGroup1 + [x];
        }
      } else if i <= last && |visible| <= MaxVisibleSliceSize {
        visible := visible + [x];
      } else {
        prefetch := prefetch + [x];
      }
      i := i + 1;
    }
    r := Slices(visible, prefetch, svgGroup1, svgGroup2);
    VisibleSliceBound(images, startSlice, lengthSlice, first, last, visibleSlice, prefetchSlice);
  }

  /** The MathJax walk of displaySlices over a copy of the SVG queue, with a
      counter following the live queue: returns the queue left, the number of
      images replaced and their ids. */
  method TypesetQueue(svgSlice: seq<ImageRef>) returns (queue: seq<ImageRef>, count: nat, gone: set<nat>)
    ensures queue == Untypeset(svgSlice) && count == |svgSlice| - |queue| && gone == TypesetIds(svgSlice)
  {
    queue := svgSlice;
    count := 0;
    gone := {};
    var counter := 0;
    var j := 0;
    while j < |svgSlice|
      invariant 0 <= j <= |svgSlice| && 0 <= counter <= |queue|
      invariant queue[..counter] == Untypeset(svgSlice[..j])
      invariant queue[counter..] == svgSlice[j..]
      invariant count == j - counter
      invariant gone == TypesetIds(svgSlice[..j])
    {
      var node := svgSlice[j];
      QueueAdvance(svgSlice, j, queue, counter);
      if Typesettable(node) {
        gone := gone + {node.id};
        count := count + 1;
        queue := queue[..counter] + queue[counter + 1..];
      } else {
        assert queue[..counter + 1] == queue[..counter] + [node];
        counter := counter + 1;
      }
      j := j + 1;
    }
    assert svgSlice[..j] == svgSlice;
    assert queue == queue[..counter];
  }

  /** One step of the MathJax walk: the live queue's element at the counter
      is the copy's next element, and the pass's results grow by it. */
  lemma QueueAdvance(svgSlice: seq<ImageRef>, j: nat, queue: seq<ImageRef>, counter: nat)
    requires j < |svgSlice| && counter <= |queue|
    requires queue[..counter] == Untypeset(svgSlice[..j]) && queue[counter..] == svgSlice[j..]
    ensures counter < |queue| && queue[counter] == svgSlice[j] && queue[counter + 1..] == svgSlice[j + 1..]
    ensures Untypeset(svgSlice[..j + 1]) == Untypeset(svgSlice[..j]) + (if Typesettable(svgSlice[j]) then [] else [svgSlice[j]])
    ensures TypesetIds(svgSlice[..j + 1]) == TypesetIds(svgSlice[..j]) + (if Typesettable(svgSlice[j]) then {svgSlice[j].id} else {})
  {
    var node := svgSlice[j];
    assert svgSlice[..j + 1] == svgSlice[..j] + [node];
    UntypesetSnoc(svgSlice[..j], node);
    TypesetIdsSnoc(svgSlice[..j], node);
    assert queue[counter..][0] == svgSlice[j..][0];
    assert queue[counter + 1..] == queue[counter..][1..];
    assert svgSlice[j + 1..] == svgSlice[j..][1..];
  }

  /** The loop of loadImageSlice: one lookup for each image whose URL matches
      regexpImageUrl, with the title it names, in order. */
  method Lookups(items: seq<ImageRef>, b: nat) returns (requests: seq<Request>)
    ensures requests == Requests(items, b)
    ensures forall q :: 0 <= q < |requests| ==>
      requests[q].batch == b && requests[q].node in items &&
      ArchiveUrls.ImageTitle(requests[q].node.kiwixSrc) == Some(requests[q].title)
  {
    requests := [];
    var j := 0;
    while j < |items|
      invariant 0 <= j <= |items|
      invariant requests == Requests(items[..j], b)
    {
      assert items[..j + 1][..j] == items[..j];
      var imageMatch := ArchiveUrls.ImageTitle(items[j].kiwixSrc);
      if imageMatch.Some? {
        requests := requests + [Request(items[j], imageMatch.value, b)];
      }
      j := j + 1;
    }
    assert items[..j] == items;
    RequestsOfBatch(items, b, b);
  }

  class Scheduler {
    var doc: seq<ImageRef>
    var replaced: set<nat>
    var loaded: set<nat>
    var inView: set<nat>
    var images: seq<ImageRef>
    var visibleSlice: seq<ImageRef>
    var prefetchSlice: seq<ImageRef>
    var svgSlice: seq<ImageRef>
    var countImages: nat
    var windowScroll: bool
    var listening: bool
    var batches: seq<Batch>
    var pending: seq<Request>
    var svgRounds: seq<SvgRound>
    var imageDisplay: bool
    var useMathJax: bool
    var allImages: nat

    /** The fields, as a value. */
    function State(): SchedState
      reads this
    {
      SchedState(doc, replaced, loaded, inView, images, visibleSlice, prefetchSlice, svgSlice,
                 countImages, windowScroll, listening, batches, pending, svgRounds,
                 imageDisplay, useMathJax, allImages)
    }

    /** loadImages: set up the tracking variables, then either prepare the
        images for display or leave them to be loaded one by one on click. */
    constructor LoadImages(doc0: seq<ImageRef>, loaded0: set<nat>, inView0: set<nat>, imageDisplay0: bool, useMathJax0: bool)
      ensures State() == LoadImagesStep(doc0, loaded0, inView0, imageDisplay0, useMathJax0)
      ensures Inv(State())
    {
      doc := doc0;
      replaced := {};
      loaded := loaded0;
      inView := inView0;
      images := doc0;
      visibleSlice := [];
      prefetchSlice := [];
      svgSlice := [];
      countImages := 0;
      windowScroll := true;
      imageDisplay := imageDisplay0;
      useMathJax := useMathJax0;
      allImages := |doc0|;
      listening := imageDisplay0 && |doc0| > PrefetchSliceSize;
      batches := [];
      pending := [];
      svgRounds := [];
      new;
      if imageDisplay && |doc| > 0 {
        PrepareImages();
      }
      LoadImagesEstablishes(doc0, loaded0, inView0, imageDisplay0, useMathJax0);
    }

    /** checkVisibleImages: the first run of images in view. */
    method CheckVisibleImages() returns (view: View)
      ensures view == VisibleWindow(images, inView)
    {
      var first: Option<int> := None;
      var last: Option<int> := None;
      var i := 0;
      while i < |images|
        invariant 0 <= i <= |images|
        invariant ScanFrom(images, inView, i, first, last) == VisibleWindow(images, inView)
      {
        if images[i].id in inView {
          if first.None? {
            first := Some(i);
          }
          last := Some(i);
        } else if first.Some? && last.Some? {
          break;
        }
        i := i + 1;
      }
      view := View(first, last);
    }

    /** prepareImages. */
    method PrepareImages()
      modifies this
      ensures State() == PrepareStep(old(State()))
      decreases 12
    {
      if !windowScroll {
        return;
      }
      windowScroll := false;
      var swept := RemoveLoaded(Present(doc, replaced), loaded, inView);
      var visibleImage := swept.visibleImage;
      var lastRemoved := swept.removed;
      images := swept.kept;
      if |images| > 0 {
        var view := CheckVisibleImages();
        if JsAtLeastZero(view.last) {
          TriageImages(view.first, view.last);
        } else if visibleImage.Some? {
          if lastRemoved - visibleImage.value <= 5 {
            TriageImages(None, None);
          } else {
            windowScroll := true;
          }
        } else {
          TriageImages(None, None);
        }
      } else {
        listening := false;
        windowScroll := true;
      }
    }

    /** triageImages: sort the window of images into the visible, prefetch
        and SVG queues, then start displaying them. */
    method TriageImages(firstVisible: Option<int>, lastVisible: Option<int>)
      modifies this
      ensures State() == TriageStep(old(State()), firstVisible, lastVisible)
      decreases 10
    {
      var first := OrMinusOne(firstVisible);
      var last := OrMinusOne(lastVisible);
      var lengthSlice := last + PrefetchSliceSize + 1;
      var startSlice := first;
      if lengthSlice > |images| {
        startSlice := startSlice - (lengthSlice - |images|);
        lengthSlice := |images|;
      }
      startSlice := if startSlice < 0 then 0 else startSlice;
      assert (startSlice, lengthSlice) == WindowBounds(first, last, |images|);
      var slices := SortImages(images, startSlice, lengthSlice, first, last, visibleSlice, prefetchSlice);
      visibleSlice := slices.visible;
      prefetchSlice := slices.prefetch;
      svgSlice := slices.svgIn + slices.svgOut;
      ghost var s1 := State();
      assert s1 == old(State()).(visibleSlice := slices.visible, prefetchSlice := slices.prefetch, svgSlice := slices.svgIn + slices.svgOut);
      DisplaySlices(0, 0, 0);
      assert State() == DisplayStep(s1, 0, 0, 0);
    }

    /** displaySlices: once the current slice has drained, dispatch the next
        non-empty queue after it, or mark the scheduler ready for the next
        scroll once all of them are done. */
    method DisplaySlices(sliceID: int, sliceCount: int, sliceEnd: int)
      modifies this
      ensures State() == DisplayStep(old(State()), sliceID, sliceCount, sliceEnd)
      decreases if sliceID >= 3 then 0 else 9
    {
      if sliceCount == sliceEnd {
        if sliceID == 0 {
          DisplayVisible();
        } else if sliceID == 1 {
          DisplayPrefetch();
        } else if sliceID == 2 {
          DisplaySvg();
        } else if sliceID + 1 > 3 {
          windowScroll := true;
        }
      }
    }

    /** The first phase of displaySlices: the visible slice, when there is one. */
    method DisplayVisible()
      modifies this
      ensures State() == VisiblePhase(old(State()))
      decreases 8
    {
      if |visibleSlice| > 0 {
        ghost var s0 := State();
        LoadImageSlice(visibleSlice, 1, |visibleSlice|, DisplayNext, false);
        visibleSlice := [];
        assert State() == LoadStep(s0, s0.visibleSlice, 1, |s0.visibleSlice|, DisplayNext, false).(visibleSlice := []);
      } else {
        DisplayPrefetch();
      }
    }

    /** The second phase of displaySlices: the prefetch slice, when there is one. */
    method DisplayPrefetch()
      modifies this
      ensures State() == PrefetchPhase(old(State()))
      decreases 7
    {
      if |prefetchSlice| > 0 {
        ghost var s0 := State();
        LoadImageSlice(prefetchSlice, 2, |prefetchSlice|, DisplayNext, false);
        prefetchSlice := [];
        assert State() == LoadStep(s0, s0.prefetchSlice, 2, |s0.prefetchSlice|, DisplayNext, false).(prefetchSlice := []);
      } else {
        DisplaySvg();
      }
    }

    /** The SVG phase of displaySlices: the MathJax pass when it applies,
        then a new SVG round started by iterateSVGSlice, or the scheduler
        marked ready for the next scroll when no SVG image is left. */
    method DisplaySvg()
      modifies this
      ensures State() == SvgPhase(old(State()))
      decreases 6
    {
      ghost var s0 := State();
      if |svgSlice| > 0 && useMathJax {
        TypesetMath();
      }
      ghost var s2 := State();
      assert s2 == if |s0.svgSlice| > 0 && s0.useMathJax then TypesetStep(s0) else s0;
      if |svgSlice| > 0 {
        var round := |svgRounds|;
        svgRounds := svgRounds + [SvgRound(None, None)];
        ghost var s3 := State();
        assert s3 == s2.(svgRounds := s2.svgRounds + [SvgRound(None, None)]);
        IterateSvgSlice(round, 0, 0);
        assert State() == IterateStep(s3, round, 0, 0);
      } else {
        windowScroll := true;
      }
    }

    /** The MathJax pass of displaySlices: each typesettable image of the SVG
        queue is replaced in the document by a TeX script, counted and taken
        out of the queue; the walk runs over a copy of the queue while a
        counter follows the live one. */
    method TypesetMath()
      modifies this
      ensures State() == TypesetStep(old(State()))
    {
      ghost var s0 := State();
      var queue, count, gone := TypesetQueue(svgSlice);
      svgSlice := queue;
      countImages := countImages + count;
      replaced := replaced + gone;
      assert State() == s0.(svgSlice := queue, countImages := s0.countImages + count, replaced := s0.replaced + gone);
    }

    /** iterateSVGSlice of SVG round `round`: once the current SVG slice has
        drained, give up if the visible images moved, otherwise dispatch the
        next three SVG images or finish. */
    method IterateSvgSlice(round: nat, sliceCount: int, sliceEnd: int)
      requires round < |svgRounds|
      modifies this
      ensures State() == IterateStep(old(State()), round, sliceCount, sliceEnd)
      decreases if sliceCount == 0 then 2 else 20
    {
      if sliceCount == sliceEnd {
        var view := CheckVisibleImages();
        var w := svgRounds[round];
        svgRounds := svgRounds[round := if sliceCount == 0 then w.(start := Some(view)) else w.(end := Some(view))];
        if sliceCount != 0 && w.start != Some(view) {
          svgSlice := [];
          windowScroll := true;
          PrepareImages();
          return;
        }
        DispatchSvgSlice(round);
      }
    }

    /** The rest of iterateSVGSlice when the round goes on: dispatch the next
        three SVG images, or end the SVG phase. */
    method DispatchSvgSlice(round: nat)
      modifies this
      ensures State() == SvgDispatchStep(old(State()), round)
      decreases 1
    {
      var batchSize := if SvgSliceSize > |svgSlice| then |svgSlice| else SvgSliceSize;
      if batchSize > 0 {
        var svgSubSlice := svgSlice[..batchSize];
        svgSlice := svgSlice[batchSize..];
        LoadImageSlice(svgSubSlice, 3, batchSize, IterateSvg(round), false);
      } else {
        DisplaySlices(3, 0, 0);
      }
    }

    /** loadImageSlice: a new batch, and one archive lookup for each image
        whose URL matches regexpImageUrl. */
    method LoadImageSlice(items: seq<ImageRef>, sliceID: int, sliceEnd: int, callback: Callback, dataRequested: bool)
      modifies this
      ensures State() == LoadStep(old(State()), items, sliceID, sliceEnd, callback, dataRequested)
    {
      var b := |batches|;
      batches := batches + [Batch(items, sliceID, sliceEnd, 0, callback, dataRequested)];
      var requests := Lookups(items, b);
      pending := pending + requests;
    }

    /** The bookkeeping when a lookup of loadImageSlice completes: the lookup
        is no longer pending, the image is shown with the MIME type of the
        entry read (unless its data was requested), and the batch's
        sliceCount and countImages go up. Returns the batch as it was and
        the MIME type computed. */
    method RecordLookup(k: nat, outcome: Outcome) returns (b: Batch, mimetype: Option<string>)
      requires k < |pending| && pending[k].batch < |batches|
      modifies this
      ensures State() == RecordCompletion(old(State()), k, outcome)
      ensures b == old(batches[pending[k].batch])
      ensures mimetype == (if outcome.Found? then Some(ImageMime.MimeType(outcome.url)) else None)
    {
      var q := pending[k];
      b := batches[q.batch];
      pending := pending[..k] + pending[k + 1..];
      mimetype := None;
      if outcome.Found? {
        mimetype := Some(ImageMime.MimeType(outcome.url));
        if !b.dataRequested {
          loaded := loaded + {q.node.id};
        }
      }
      batches := batches[q.batch := b.(count := b.count + 1)];
      countImages := countImages + 1;
    }

    /** A lookup of loadImageSlice completes: after the bookkeeping, the
        batch's callback runs. Returns the MIME type computed. */
    method Complete(k: nat, outcome: Outcome) returns (mimetype: Option<string>)
      requires Completable(State(), k)
      modifies this
      ensures State() == CompleteStep(old(State()), k, outcome)
      ensures mimetype == (if outcome.Found? then Some(ImageMime.MimeType(outcome.url)) else None)
    {
      var b;
      b, mimetype := RecordLookup(k, outcome);
      ghost var s1 := State();
      match b.callback {
        case DisplayNext =>
          DisplaySlices(b.sliceID, b.count + 1, b.sliceEnd);
          assert State() == DisplayStep(s1, b.sliceID, b.count + 1, b.sliceEnd);
        case IterateSvg(r) =>
          IterateSvgSlice(r, b.count + 1, b.sliceEnd);
          assert State() == IterateStep(s1, r, b.count + 1, b.sliceEnd);
        case ShowClicked(id) =>
          loaded := loaded + {id};
          assert State() == s1.(loaded := s1.loaded + {id});
      }
    }

    /** A click on image `i` when images are not displayed automatically:
        its data is requested alone, and shown when it arrives. */
    method ClickImage(i: nat)
      modifies this
      ensures State() == ClickStep(old(State()), i)
      ensures old(Inv(State())) ==> Inv(State())
    {
      ghost var s0 := State();
      if !imageDisplay && i < |doc| {
        LoadImageSlice([doc[i]], 0, 0, ShowClicked(doc[i].id), true);
      }
      if Inv(s0) {
        ClickKeeps(s0, i);
      }
    }

    /** MathJax, loaded asynchronously by the script injected into the
        article, becomes available in the article frame: from the next SVG
        phase on, the phase typesets when `enabled` (the useMathJax setting)
        holds. */
    method MathJaxLoaded(enabled: bool)
      modifies this
      ensures State() == old(State()).(useMathJax := enabled)
      ensures old(Inv(State())) ==> Inv(State())
    {
      useMathJax := enabled;
    }

    /** The user scrolls: the images in view change. */
    method Scroll(nowInView: set<nat>)
      modifies this
      ensures State() == old(State()).(inView := nowInView)
      ensures old(Inv(State())) ==> Inv(State())
    {
      inView := nowInView;
    }

    /** The debounced scroll listener fires, if it is still attached. */
    method ScrollStopped()
      modifies this
      ensures State() == ScrollStoppedStep(old(State()))
      ensures old(Inv(State())) ==> Inv(State())
    {
      ghost var s0 := State();
      if listening {
        PrepareImages();
      }
      if Inv(s0) {
        ScrollStoppedKeeps(s0);
      }
    }
  }
}
