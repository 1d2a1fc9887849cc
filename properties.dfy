/** How the image scheduler orders its work: which slice each displaySlices
    call dispatches, how the SVG queue is cut into slices of three, what
    prepareImages works on, what a completion records, and why a batch holding
    an image with an unexpected URL never lets the scheduler rest. */
module SchedulerProperties {
  import opened Wrappers
  import opened ImageModel
  import opened ImageSteps
  import opened SchedulerInvariants

  // ---------------------------------------------------------------------
  // displaySlices

  /** The SVG queue as the MathJax pass leaves it. */
  function SvgAfterTypeset(s: SchedState): seq<ImageRef>
  {
    if s.useMathJax then Untypeset(s.svgSlice) else s.svgSlice
  }

  /** Once a slice has drained, displaySlices dispatches the next non-empty
      queue, visible before prefetch before SVG, as one new batch of a later
      slice; when every queue is empty it lowers nothing and raises the
      re-entry guard instead. */
  lemma DisplayDispatchesNext(s: SchedState, sliceID: int, sliceEnd: int)
    requires DisplayPre(s, sliceID, sliceEnd, sliceEnd)
    ensures var r := DisplayStep(s, sliceID, sliceEnd, sliceEnd);
      (sliceID == 0 && s.visibleSlice != [] ==>
        r.batches == s.batches + [Batch(s.visibleSlice, 1, |s.visibleSlice|, 0, DisplayNext, false)] &&
        r.visibleSlice == [] && r.prefetchSlice == s.prefetchSlice && r.svgSlice == s.svgSlice) &&
      (sliceID <= 1 && s.visibleSlice == [] && s.prefetchSlice != [] ==>
        r.batches == s.batches + [Batch(s.prefetchSlice, 2, |s.prefetchSlice|, 0, DisplayNext, false)] &&
        r.prefetchSlice == [] && r.svgSlice == s.svgSlice) &&
      (sliceID <= 2 && s.visibleSlice == [] && s.prefetchSlice == [] && SvgAfterTypeset(s) != [] ==>
        var n := Min(SvgSliceSize, |SvgAfterTypeset(s)|);
        r.batches == s.batches + [Batch(SvgAfterTypeset(s)[..n], 3, n, 0, IterateSvg(|s.svgRounds|), false)] &&
        r.svgSlice == SvgAfterTypeset(s)[n..]) &&
      (r.windowScroll <==> r.batches == s.batches) &&
      (r.windowScroll ==> r.visibleSlice == [] && r.prefetchSlice == [] && r.svgSlice == [])
  {
    if sliceID <= 2 && s.visibleSlice == [] && s.prefetchSlice == [] {
      assert PrefetchPhase(s) == SvgPhase(s);
      assert DisplayStep(s, sliceID, sliceEnd, sliceEnd) == SvgPhase(s);
      var s2 := if |s.svgSlice| > 0 && s.useMathJax then TypesetStep(s) else s;
      assert s2.svgSlice == SvgAfterTypeset(s);
      if |s2.svgSlice| > 0 {
        var s3 := s2.(svgRounds := s2.svgRounds + [SvgRound(None, None)]);
        SvgFirstSlice(s3, |s2.svgRounds|);
      }
    }
  }

  /** The first call of iterateSVGSlice in a round records where the visible
      images were and dispatches the first three (or fewer) SVG images, keeping
      the rest, in order, for the next calls. */
  lemma SvgFirstSlice(s: SchedState, round: nat)
    requires round < |s.svgRounds| && s.svgSlice != []
    ensures var r := IterateStep(s, round, 0, 0);
      var n := Min(SvgSliceSize, |s.svgSlice|);
      1 <= n <= SvgSliceSize &&
      r.batches == s.batches + [Batch(s.svgSlice[..n], 3, n, 0, IterateSvg(round), false)] &&
      r.svgSlice == s.svgSlice[n..] && r.windowScroll == s.windowScroll &&
      r.svgRounds[round].start == Some(VisibleWindow(s.images, s.inView))
  {
    var view := VisibleWindow(s.images, s.inView);
    var s1 := s.(svgRounds := s.svgRounds[round := s.svgRounds[round].(start := Some(view))]);
    var n := Min(SvgSliceSize, |s.svgSlice|);
    assert IterateStep(s, round, 0, 0) ==
      LoadStep(s1.(svgSlice := s1.svgSlice[n..]), s1.svgSlice[..n], 3, n, IterateSvg(round), false);
  }

  /** A later call of iterateSVGSlice, once its slice has drained: if the
      visible images moved since the round started, the remaining SVG images
      are dropped and the images are prepared again; otherwise the next three
      (or fewer) are dispatched in order, or, with none left, the scheduler
      goes on to the final displaySlices call. */
  lemma SvgNextSlice(s: SchedState, round: nat, sliceEnd: int)
    requires round < |s.svgRounds| && sliceEnd != 0
    ensures var r := IterateStep(s, round, sliceEnd, sliceEnd);
      var view := VisibleWindow(s.images, s.inView);
      var s1 := s.(svgRounds := s.svgRounds[round := s.svgRounds[round].(end := Some(view))]);
      var n := Min(SvgSliceSize, |s.svgSlice|);
      (s.svgRounds[round].start != Some(view) ==>
        r == PrepareStep(s1.(svgSlice := [], windowScroll := true))) &&
      (s.svgRounds[round].start == Some(view) && s.svgSlice != [] ==>
        r.batches == s.batches + [Batch(s.svgSlice[..n], 3, n, 0, IterateSvg(round), false)] &&
        r.svgSlice == s.svgSlice[n..]) &&
      (s.svgRounds[round].start == Some(view) && s.svgSlice == [] ==>
        r == DisplayStep(s1, 3, 0, 0))
  {
  }

  // ---------------------------------------------------------------------
  // prepareImages

  /** The synchronous work started by displaySlices, and by the first call of
      iterateSVGSlice, never touches the list prepareImages built. */
  lemma {:induction false} DisplayKeepsImages(s: SchedState, sliceID: int, sliceCount: int, sliceEnd: int)
    ensures DisplayStep(s, sliceID, sliceCount, sliceEnd).images == s.images
    decreases if sliceID >= 3 then 0 else 6
  {
    if sliceCount == sliceEnd && 0 <= sliceID <= 2 && (sliceID == 0 ==> s.visibleSlice == []) && s.prefetchSlice == [] {
      SvgKeepsImages(s);
    }
  }

  lemma {:induction false} SvgKeepsImages(s: SchedState)
    ensures SvgPhase(s).images == s.images
    decreases 3
  {
    var s2 := if |s.svgSlice| > 0 && s.useMathJax then TypesetStep(s) else s;
    if |s2.svgSlice| > 0 {
      IterateFirstKeepsImages(s2.(svgRounds := s2.svgRounds + [SvgRound(None, None)]), |s2.svgRounds|, 0);
    }
  }

  lemma {:induction false} IterateFirstKeepsImages(s: SchedState, round: nat, sliceEnd: int)
    requires round < |s.svgRounds|
    ensures IterateStep(s, round, 0, sliceEnd).images == s.images
    decreases 2
  {
    if sliceEnd == 0 {
      var size := Min(SvgSliceSize, |s.svgSlice|);
      if size == 0 {
        var view := VisibleWindow(s.images, s.inView);
        var w := s.svgRounds[round];
        DisplayKeepsImages(s.(svgRounds := s.svgRounds[round := w.(start := Some(view))]), 3, 0, 0);
      }
    }
  }

  /** prepareImages runs only when the guard is up; it then works on exactly
      the article's images that are still in the document and have no src,
      in document order, and when there are none it detaches the scroll
      listener and leaves the guard up. */
  lemma PrepareWorksOnUnloaded(s: SchedState)
    ensures !s.windowScroll ==> PrepareStep(s) == s
    ensures s.windowScroll ==>
      var imgs := Unloaded(Present(s.doc, s.replaced), s.loaded);
      var r := PrepareStep(s);
      r.images == imgs &&
      (forall x :: x in r.images <==> x in s.doc && x.id !in s.replaced && x.id !in s.loaded) &&
      (imgs == [] ==> !r.listening && r.windowScroll && r.batches == s.batches)
  {
    if s.windowScroll {
      var present := Present(s.doc, s.replaced);
      var sw := Sweep(present, s.loaded, s.inView);
      SweepKeepsUnloaded(present, s.loaded, s.inView);
      UnloadedMembers(present, s.loaded);
      PresentMembers(s.doc, s.replaced);
      var s1 := s.(windowScroll := false, images := sw.kept);
      if |sw.kept| > 0 {
        PrepareAlwaysTriages(sw.kept, s.inView, sw.visibleImage, sw.removed);
        var v := VisibleWindow(sw.kept, s.inView);
        var f := OrMinusOne(v.first);
        var l := OrMinusOne(v.last);
        var w := WindowBounds(f, l, |s1.images|);
        var q := SortWindow(s1.images, w.0, w.1, f, l, s1.visibleSlice, s1.prefetchSlice);
        DisplayKeepsImages(s1.(visibleSlice := q.visible, prefetchSlice := q.prefetch, svgSlice := q.svgIn + q.svgOut), 0, 0, 0);
      }
    }
  }

  // ---------------------------------------------------------------------
  // Completions

  /** A completion removes exactly its own lookup, adds one to its batch's
      sliceCount and to countImages, leaves every other batch alone, and shows
      the image when it was found, unless its data was requested. */
  lemma CompletionRecorded(s: SchedState, k: nat, outcome: Outcome)
    requires k < |s.pending| && s.pending[k].batch < |s.batches|
    ensures var q := s.pending[k];
      var r := RecordCompletion(s, k, outcome);
      multiset(r.pending) + multiset{q} == multiset(s.pending) &&
      |r.batches| == |s.batches| &&
      r.batches[q.batch].count == s.batches[q.batch].count + 1 &&
      r.batches[q.batch].items == s.batches[q.batch].items &&
      (forall b :: 0 <= b < |s.batches| && b != q.batch ==> r.batches[b] == s.batches[b]) &&
      r.countImages == s.countImages + 1 &&
      r.loaded == if outcome.Found? && !s.batches[q.batch].dataRequested then s.loaded + {q.node.id} else s.loaded
  {
    var p := s.pending;
    assert p == p[..k] + [p[k]] + p[k + 1..];
  }

  /** Between events, a batch completes no more lookups than its images whose
      URL matches regexpImageUrl, so one holding an image with any other URL
      never drains: it stays the batch in flight, and the guard stays down, so
      prepareImages never runs again for this article. */
  lemma UnmatchedBatchNeverDrains(s: SchedState, b: nat)
    requires Inv(s) && s.imageDisplay && b < |s.batches|
    requires Matching(s.batches[b].items) < |s.batches[b].items|
    ensures s.batches[b].count < s.batches[b].sliceEnd
    ensures b == |s.batches| - 1 && !s.windowScroll
  {
    assert !Drained(s.batches[b]);
  }

  /** A completion never changes the images of a batch nor where it ends, so
      what UnmatchedBatchNeverDrains says of a batch holds after every later
      completion too. */
  lemma CompletionKeepsBatches(s: SchedState, k: nat, outcome: Outcome)
    requires Inv(s) && k < |s.pending|
    ensures var r := CompleteStep(s, k, outcome);
      |s.batches| <= |r.batches| &&
      forall b :: 0 <= b < |s.batches| ==>
        r.batches[b].items == s.batches[b].items && r.batches[b].sliceEnd == s.batches[b].sliceEnd
  {
    var q := s.pending[k];
    var bt := s.batches[q.batch];
    var s1 := RecordCompletion(s, k, outcome);
    if s.imageDisplay {
      PendingBatchIsLast(s, k);
      match bt.callback
      case DisplayNext => DisplayExtendsBatches(s1, bt.sliceID, bt.count + 1, bt.sliceEnd);
      case IterateSvg(r) => IterateExtendsBatches(s1, r, bt.count + 1, bt.sliceEnd);
      case ShowClicked(id) =>
    }
  }

  lemma {:induction false} DisplayExtendsBatches(s: SchedState, sliceID: int, sliceCount: int, sliceEnd: int)
    ensures var r := DisplayStep(s, sliceID, sliceCount, sliceEnd);
      |s.batches| <= |r.batches| && r.batches[..|s.batches|] == s.batches
    decreases if sliceID >= 3 then 0 else 6
  {
    if sliceCount == sliceEnd && 0 <= sliceID <= 2 && (sliceID == 0 ==> s.visibleSlice == []) && s.prefetchSlice == [] {
      SvgExtendsBatches(s);
    }
  }

  lemma {:induction false} SvgExtendsBatches(s: SchedState)
    ensures var r := SvgPhase(s);
      |s.batches| <= |r.batches| && r.batches[..|s.batches|] == s.batches
    decreases 3
  {
    var s2 := if |s.svgSlice| > 0 && s.useMathJax then TypesetStep(s) else s;
    if |s2.svgSlice| > 0 {
      IterateExtendsBatches(s2.(svgRounds := s2.svgRounds + [SvgRound(None, None)]), |s2.svgRounds|, 0, 0);
    }
  }

  lemma {:induction false} IterateExtendsBatches(s: SchedState, round: nat, sliceCount: int, sliceEnd: int)
    requires round < |s.svgRounds|
    ensures var r := IterateStep(s, round, sliceCount, sliceEnd);
      |s.batches| <= |r.batches| && r.batches[..|s.batches|] == s.batches
    decreases if sliceCount == 0 then 2 else 9
  {
    if sliceCount == sliceEnd {
      var view := VisibleWindow(s.images, s.inView);
      var w := s.svgRounds[round];
      var s1 := s.(svgRounds := s.svgRounds[round := if sliceCount == 0 then w.(start := Some(view)) else w.(end := Some(view))]);
      if sliceCount != 0 && w.start != Some(view) {
        PrepareExtendsBatches(s1.(svgSlice := [], windowScroll := true));
      } else if Min(SvgSliceSize, |s1.svgSlice|) == 0 {
        DisplayExtendsBatches(s1, 3, 0, 0);
      }
    }
  }

  lemma {:induction false} PrepareExtendsBatches(s: SchedState)
    ensures var r := PrepareStep(s);
      |s.batches| <= |r.batches| && r.batches[..|s.batches|] == s.batches
    decreases 8
  {
    if s.windowScroll {
      var sw := Sweep(Present(s.doc, s.replaced), s.loaded, s.inView);
      var s1 := s.(windowScroll := false, images := sw.kept);
      if |sw.kept| > 0 {
        match PrepareDecision(VisibleWindow(sw.kept, s.inView), sw.visibleImage, sw.removed)
        case TriageWindow(f, l) =>
          var fi := OrMinusOne(f);
          var li := OrMinusOne(l);
          var w := WindowBounds(fi, li, |s1.images|);
          var q := SortWindow(s1.images, w.0, w.1, fi, li, s1.visibleSlice, s1.prefetchSlice);
          DisplayExtendsBatches(s1.(visibleSlice := q.visible, prefetchSlice := q.prefetch, svgSlice := q.svgIn + q.svgOut), 0, 0, 0);
        case WaitForScroll =>
      }
    }
  }
}
