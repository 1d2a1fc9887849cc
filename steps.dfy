/** The image scheduler of loadImages (www/js/app.js:1202-1597) as a state
    machine over values. The closure variables of loadImages become fields of
    SchedState; every asynchronous archive lookup started by loadImageSlice is
    a pending Request, and its completion is one CompleteStep. Each step
    function follows the JavaScript function of the same role, including the
    calls it makes synchronously. */
module ImageSteps {
  import opened Wrappers
  import opened ImageModel
  import ArchiveUrls

  /** The function a batch calls back on each completion. */
  datatype Callback =
    | DisplayNext          // displaySlices, for the visible and prefetch slices
    | IterateSvg(round: nat) // iterateSVGSlice of the displaySlices call that started SVG round `round`
    | ShowClicked(id: nat)  // the click handler of image `id` when images are not displayed automatically

  /** One call of loadImageSlice: its images, the arguments it calls back with
      and its own sliceCount. */
  datatype Batch = Batch(items: seq<ImageRef>, sliceID: int, sliceEnd: int, count: nat, callback: Callback, dataRequested: bool)

  /** An archive lookup in flight for `node`, started by batch `batch`. */
  datatype Request = Request(node: ImageRef, title: string, batch: nat)

  /** The startSVG and endSVG closure variables of one displaySlices call. */
  datatype SvgRound = SvgRound(start: Option<View>, end: Option<View>)

  /** How a lookup ends: the image entry was read (its URL), or it was not found. */
  datatype Outcome = Found(url: string) | NotFound

  datatype SchedState = SchedState(
    doc: seq<ImageRef>,           // the <img> elements of the article, in document order
    replaced: set<nat>,           // ids replaced by MathJax scripts (no longer in the document)
    loaded: set<nat>,             // ids whose src is set
    inView: set<nat>,             // ids uiUtil.isElementInView reports now
    images: seq<ImageRef>,        // the working list of prepareImages
    visibleSlice: seq<ImageRef>,
    prefetchSlice: seq<ImageRef>,
    svgSlice: seq<ImageRef>,
    countImages: nat,
    windowScroll: bool,
    listening: bool,              // the scrollStopped listener is attached
    batches: seq<Batch>,
    pending: seq<Request>,
    svgRounds: seq<SvgRound>,
    imageDisplay: bool,           // params['imageDisplay']
    useMathJax: bool,             // params['useMathJax'] and MathJax loaded in the article
    allImages: nat)

  // ---------------------------------------------------------------------
  // loadImageSlice

  /** The lookup started for one image: only when its data-kiwixsrc matches regexpImageUrl. */
  function RequestFor(x: ImageRef, b: nat): seq<Request>
  {
    match ArchiveUrls.ImageTitle(x.kiwixSrc)
    case Some(t) => [Request(x, t, b)]
    case None => []
  }

  /** The lookups a batch numbered b starts, in the order of its images. */
  function Requests(items: seq<ImageRef>, b: nat): seq<Request>
  {
    if items == [] then [] else Requests(items[..|items| - 1], b) + RequestFor(items[|items| - 1], b)
  }

  /** How many images of a batch can complete: those whose URL matches. */
  function Matching(items: seq<ImageRef>): nat
  {
    if items == [] then 0
    else Matching(items[..|items| - 1]) + (if ArchiveUrls.ImageTitle(items[|items| - 1].kiwixSrc).Some? then 1 else 0)
  }

  /** The effect of loadImageSlice: a new batch with its count at 0 and one
      pending lookup per matching image. */
  function LoadStep(s: SchedState, items: seq<ImageRef>, sliceID: int, sliceEnd: int, cb: Callback, dataRequested: bool): SchedState
  {
    s.(batches := s.batches + [Batch(items, sliceID, sliceEnd, 0, cb, dataRequested)],
       pending := s.pending + Requests(items, |s.batches|))
  }

  // ---------------------------------------------------------------------
  // prepareImages, triageImages, displaySlices, iterateSVGSlice

  function PrepareStep(s: SchedState): SchedState
    decreases 8
  {
    if !s.windowScroll then s
    else
      var sw := Sweep(Present(s.doc, s.replaced), s.loaded, s.inView);
      var s1 := s.(windowScroll := false, images := sw.kept);
      if |sw.kept| > 0 then
        match PrepareDecision(VisibleWindow(sw.kept, s.inView), sw.visibleImage, sw.removed)
        case TriageWindow(f, l) => TriageStep(s1, f, l)
        case WaitForScroll => s1.(windowScroll := true)
      else s1.(listening := false, windowScroll := true)
  }

  /** A bound of triageImages: null or undefined stands for -1. */
  function OrMinusOne(v: Option<int>): int
  {
    if v.None? then -1 else v.value
  }

  function TriageStep(s: SchedState, first: Option<int>, last: Option<int>): SchedState
    decreases 7
  {
    var f := OrMinusOne(first);
    var l := OrMinusOne(last);
    var w := WindowBounds(f, l, |s.images|);
    var r := SortWindow(s.images, w.0, w.1, f, l, s.visibleSlice, s.prefetchSlice);
    DisplayStep(s.(visibleSlice := r.visible, prefetchSlice := r.prefetch, svgSlice := r.svgIn + r.svgOut), 0, 0, 0)
  }

  /** The MathJax pass: typesettable images leave the SVG queue and the
      document, and each one is counted. */
  function TypesetStep(s: SchedState): SchedState
  {
    var kept := Untypeset(s.svgSlice);
    s.(svgSlice := kept,
       countImages := s.countImages + (|s.svgSlice| - |kept|),
       replaced := s.replaced + TypesetIds(s.svgSlice))
  }

  /** displaySlices: the queue after slice sliceID, once the slice has
      drained; past the SVG queue the scheduler waits for the next scroll. */
  function DisplayStep(s: SchedState, sliceID: int, sliceCount: int, sliceEnd: int): SchedState
    decreases if sliceID >= 3 then 0 else 6
  {
    if sliceCount != sliceEnd then s
    else if sliceID == 0 then VisiblePhase(s)
    else if sliceID == 1 then PrefetchPhase(s)
    else if sliceID == 2 then SvgPhase(s)
    else if sliceID > 2 then s.(windowScroll := true)
    else s
  }

  /** The visible slice as a batch, or the phase after it when it is empty. */
  function VisiblePhase(s: SchedState): SchedState
    decreases 5
  {
    if |s.visibleSlice| > 0 then
      LoadStep(s, s.visibleSlice, 1, |s.visibleSlice|, DisplayNext, false).(visibleSlice := [])
    else PrefetchPhase(s)
  }

  /** The prefetch slice as a batch, or the SVG phase when it is empty. */
  function PrefetchPhase(s: SchedState): SchedState
    decreases 4
  {
    if |s.prefetchSlice| > 0 then
      LoadStep(s, s.prefetchSlice, 2, |s.prefetchSlice|, DisplayNext, false).(prefetchSlice := [])
    else SvgPhase(s)
  }

  /** The MathJax pass when it applies, then a new SVG round, or the end of
      the queues when no SVG image is left. */
  function SvgPhase(s: SchedState): SchedState
    decreases 3
  {
    var s2 := if |s.svgSlice| > 0 && s.useMathJax then TypesetStep(s) else s;
    if |s2.svgSlice| > 0 then
      IterateStep(s2.(svgRounds := s2.svgRounds + [SvgRound(None, None)]), |s2.svgRounds|, 0, 0)
    else s2.(windowScroll := true)
  }

  function IterateStep(s: SchedState, round: nat, sliceCount: int, sliceEnd: int): SchedState
    requires round < |s.svgRounds|
    decreases if sliceCount == 0 then 2 else 9
  {
    if sliceCount != sliceEnd then s
    else
      var view := VisibleWindow(s.images, s.inView);
      var w := s.svgRounds[round];
      var s1 := s.(svgRounds := s.svgRounds[round := if sliceCount == 0 then w.(start := Some(view)) else w.(end := Some(view))]);
      if sliceCount != 0 && w.start != Some(view) then
        PrepareStep(s1.(svgSlice := [], windowScroll := true))
      else SvgDispatchStep(s1, round)
  }

  /** The end of iterateSVGSlice when the round goes on: the next three SVG
      images as a batch calling back round `round`, or the end of the queues. */
  function SvgDispatchStep(s: SchedState, round: nat): SchedState
    decreases 1
  {
    var size := Min(SvgSliceSize, |s.svgSlice|);
    if size > 0 then
      LoadStep(s.(svgSlice := s.svgSlice[size..]), s.svgSlice[..size], 3, size, IterateSvg(round), false)
    else DisplayStep(s, 3, 0, 0)
  }

  // ---------------------------------------------------------------------
  // Events

  /** What every completion needs to be well defined: the batches of pending
      lookups exist, and so do the SVG rounds batches call back. */
  predicate WellFormed(s: SchedState)
  {
    (forall q :: 0 <= q < |s.pending| ==> s.pending[q].batch < |s.batches|) &&
    (forall b :: 0 <= b < |s.batches| && s.batches[b].callback.IterateSvg? ==>
      s.batches[b].callback.round < |s.svgRounds|)
  }

  /** What completing lookup k needs: its batch exists, and so does the SVG
      round that batch calls back. */
  predicate Completable(s: SchedState, k: nat)
  {
    k < |s.pending| && s.pending[k].batch < |s.batches| &&
    (s.batches[s.pending[k].batch].callback.IterateSvg? ==>
      s.batches[s.pending[k].batch].callback.round < |s.svgRounds|)
  }

  /** One lookup completes: the image is shown (unless its data was requested),
      the batch's sliceCount and countImages go up by one, and the batch's
      callback runs. */
  function CompleteStep(s: SchedState, k: nat, outcome: Outcome): SchedState
    requires Completable(s, k)
  {
    var q := s.pending[k];
    var b := s.batches[q.batch];
    var s1 := RecordCompletion(s, k, outcome);
    match b.callback
    case DisplayNext => DisplayStep(s1, b.sliceID, b.count + 1, b.sliceEnd)
    case IterateSvg(r) => IterateStep(s1, r, b.count + 1, b.sliceEnd)
    case ShowClicked(id) => s1.(loaded := s1.loaded + {id})
  }

  /** The bookkeeping of a completion, before its callback runs. */
  function RecordCompletion(s: SchedState, k: nat, outcome: Outcome): (s1: SchedState)
    requires k < |s.pending| && s.pending[k].batch < |s.batches|
    ensures |s1.svgRounds| == |s.svgRounds|
  {
    var q := s.pending[k];
    var b := s.batches[q.batch];
    s.(pending := s.pending[..k] + s.pending[k + 1..],
       batches := s.batches[q.batch := b.(count := b.count + 1)],
       countImages := s.countImages + 1,
       loaded := if outcome.Found? && !b.dataRequested then s.loaded + {q.node.id} else s.loaded)
  }

  /** The user clicks image `i` of the document while images are not displayed automatically. */
  function ClickStep(s: SchedState, i: nat): SchedState
  {
    if !s.imageDisplay && i < |s.doc| then
      LoadStep(s, [s.doc[i]], 0, 0, ShowClicked(s.doc[i].id), true)
    else s
  }

  /** The debounced scroll listener fires. */
  function ScrollStoppedStep(s: SchedState): SchedState
  {
    if s.listening then PrepareStep(s) else s
  }

  /** The state loadImages sets up for the article's images. */
  function InitialState(doc: seq<ImageRef>, loaded: set<nat>, inView: set<nat>, imageDisplay: bool, useMathJax: bool): SchedState
  {
    SchedState(doc, {}, loaded, inView, doc, [], [], [], 0, true,
               imageDisplay && |doc| > PrefetchSliceSize, [], [], [], imageDisplay, useMathJax, |doc|)
  }

  function LoadImagesStep(doc: seq<ImageRef>, loaded: set<nat>, inView: set<nat>, imageDisplay: bool, useMathJax: bool): SchedState
  {
    var s0 := InitialState(doc, loaded, inView, imageDisplay, useMathJax);
    if imageDisplay && |doc| > 0 then PrepareStep(s0) else s0
  }
}
