# Image scheduler of the kiwix-js article viewer, in Dafny

This project models how the kiwix-js article viewer (`www/js/app.js`) loads
the images of an article from a ZIM archive, and proves properties of that
model. The viewer does not load every image at once. `loadImages` sorts the
`<img>` elements around the ones on screen into three queues:

- a visible slice of at most eleven raster images;
- a prefetch slice of the images that follow;
- an SVG slice, which holds SVG files and maths fallback images.

Each queue is fetched as one batch. The next queue starts once the current
batch has drained, that is once it has counted as many callbacks as it holds
images. Only images whose URL matches `regexpImageUrl` are looked up, so a
batch that holds any other image never drains, and no later queue starts for
that article (`UnmatchedBatchNeverDrains`). SVG images go out three at a
time. At the end of each SVG batch the visible window is computed again; when
it differs from the one recorded at the start of the round, the round is
abandoned and the images are triaged again.

The model has these modules:

- `ImageModel` holds the values and pure decisions of the scheduler:
  - the window of visible images (`checkVisibleImages`);
  - the removal of images that already have a src (`prepareImages`);
  - the window bounds and the sorting loop of `triageImages`;
  - the MathJax pass of `displaySlices`.
- `ImageSteps` holds the scheduler as a state machine over values:
  - `SchedState` holds the closure variables of `loadImages`;
  - each inner function becomes a step function;
  - every asynchronous archive lookup is a pending `Request`, and its
    completion is one `CompleteStep`.
- `ImageScheduler` holds the scheduler as it runs in the source. The class
  `Scheduler` has the closure variables as fields, and one method per inner
  function, which updates those fields step by step. Each method is proved to
  have exactly the effect of its step function. The loops of the source are
  methods with loop invariants: the removal loop, the sorting loop, the
  MathJax walk, the lookup loop and the visibility scan.
- `SchedulerInvariants` holds the invariant kept between events, and proves
  that every event preserves it:
  - every batch accounts for its images;
  - batches run one at a time;
  - a visible batch holds at most eleven images and an SVG batch at most
    three;
  - the re-entry guard `windowScroll` is up exactly when no batch is in
    flight.
- `SchedulerProperties` proves how the work is ordered and what each
  completion records.
- The pure helpers of the viewer that the scheduler and the article display
  rely on:
  - `ImageMime`: the MIME type of an extracted image;
  - `ArchiveUrls`: the `regexpImageUrl` title, and the choice of device
    storage;
  - `ArticleLinks`: the classification of in-article links;
  - `ArticleUi`: the search header, the browser-history entry and its
    restoration, and the automatic style source;
  - `Text`: the string helpers they share.

### Decisions

- **Outside events.** The browser's visibility oracle `uiUtil.isElementInView`
  is the field `inView`, a set of image ids. `Scroll` changes it, and
  `ScrollStopped` is the debounced scroll listener firing. An archive lookup
  ends with `Complete(k, outcome)`. Pending lookups may complete in any
  order.
- **MathJax.** The test `params['useMathJax'] && window.frames[0].MathJax`
  is read afresh at each SVG phase. The model holds it in the field
  `useMathJax`. The MathJax script is injected into the article and loads
  asynchronously, so the field can change between events: `MathJaxLoaded`
  sets it, and the next SVG phase reads the new value.
- **`null >= 0` is true.** In JavaScript, `null >= 0` evaluates to true. So
  the test `view.lastVisible >= 0` in `prepareImages` always holds on a
  result of `checkVisibleImages`. This is modelled as written
  (`JsAtLeastZero`). `PrepareAlwaysTriages` proves that the
  "within 5 images" branch and the "wait for scroll" branch are never
  reached.
- **The `endSVG` test.** `iterateSVGSlice` tests `if (endSVG)`. The model
  tests `sliceCount != 0` instead. The first call of each round is the only
  call with `sliceCount` 0, and `endSVG` is still undefined then, so the two
  tests agree in every reachable state. Each `displaySlices` call declares
  its own `startSVG` and `endSVG`, so each SVG round is an entry of
  `svgRounds`.
- **The visible slice.** The cap on the visible slice uses `<=` against 10,
  so up to eleven images enter it (`VisibleSliceBound`). This is modelled as
  written.

## Model

| member | source | states |
|---|---|---|
| Text.NatToStringRoundTrip | www/js/app.js:793-802 | the decimal rendering of a count, used in the search header, reads back to the same number |
| ImageMime.ExtensionCharacterised | www/js/app.js:1538 | `/\.(\w{2,4})$/` captures e exactly when the URL ends in "." + e, with e made of 2 to 4 word characters |
| ImageMime.NoExtensionGivesImage | www/js/app.js:1538-1543 | a URL without such an extension gets the bare type "image"; none of the four override tests can hold |
| ImageMime.EndsWithDotExtension | www/js/app.js:1540-1543 | for a URL ending in "." + e, each case-insensitive override test holds exactly when e is that three-letter extension, up to case |
| ImageMime.MimeTypeWithoutOverride | www/js/app.js:1538-1543 | with no override suffix, the type is "image/" + the lower-cased extension |
| ImageMime.MimeTypeOfExtension | www/js/app.js:1538-1543 | the type by lower-cased extension: jpg, tif, ico and svg get image/jpeg, image/tiff, image/x-icon and image/svg+xml; any other gets "image/" + extension |
| ArchiveUrls.ImageTitleOfPrefixedTitle | www/js/app.js:935 | round trip: any non-empty run of "../" and "/" pieces before an "I/" title without line terminators captures that title |
| ArchiveUrls.ImageTitleShape | www/js/app.js:935 | anything captured is an "I/" title without line terminators, ending the string after a non-empty run of "../" and "/" pieces |
| ArchiveUrls.FirstSlashFrom | www/js/app.js:634-635 | the end of the `[^\/]+` group: the first '/' at or after the start, with no '/' before it |
| ArchiveUrls.LastIndexOf | www/js/app.js:639-645 | reference definition: the last index holding the name, with no match after it, or none when the name is absent |
| ArchiveUrls.SelectStorage | www/js/app.js:630-661 | no directory gives no choice; a "/name/" prefix picks the LAST storage of that name, or reports an unknown storage; without a prefix, the only storage is picked, or an error is reported when there is not exactly one |
| ArticleLinks.FirstColonFrom | www/js/app.js:931 | the end of the `[^:]+` run: the first colon at or after p, with no colon before it |
| ArticleLinks.ImageLinkColonIsColon | www/js/app.js:931 | the colon matched by regexpImageLink is a colon of the URL, past its first character |
| ArticleLinks.NoColonNoImageLink | www/js/app.js:931 | a URL without a colon never matches regexpImageLink |
| ArticleLinks.ImageLinkColonOfName | www/js/app.js:931 | for "name:rest" with a colon-free name, the match ends at the colon after the name, whichever optional prefix is tried |
| ArticleLinks.FileLinkRewrite | www/js/app.js:1150-1158 | a file link with an image extension is rewritten to https://<language>.wikipedia.org/wiki/File: followed by the text after the colon |
| ArticleLinks.RelativeArticleLink | www/js/app.js:1150-1167 | round trip: "./" + t opens the article t, colons included, unless the link ends in an image extension |
| ArticleLinks.AbsoluteArticleLink | www/js/app.js:1150-1171 | round trip: "/" + t opens the article t, colons included, unless the link ends in an image extension; only one slash is removed |
| ArticleLinks.ClassifyOrder | www/js/app.js:1129-1158 | the tests run in order: class "new", then "#", then "http"; a file link always matched the regex and has an image extension |
| ArticleUi.SearchHeaderCount | www/js/app.js:793-802 | "No articles found." exactly when nothing was found; otherwise the header starts with the number it announces, which is at most the number found, and is less only when the limit was reached |
| ArticleUi.PushedEntryShape | www/js/app.js:1632-1650 | nothing is pushed exactly when both arguments are empty; otherwise the state holds exactly one field, a title winning over a search prefix, and the query string reads back to the same place |
| ArticleUi.BackRestoresPushed | www/js/app.js:556-580 | round trip: going back to a pushed state opens the article, or repeats the search, it was pushed for |
| ArticleUi.JoinContainsCI | www/js/app.js:984-987 | a comma-free pattern occurs in the joined links exactly when one link contains it |
| ArticleUi.ResolveCssSourceByLink | www/js/app.js:984-987 | with "auto", "mobile" if some link names minerva or mobile, else "desktop" if some link is -/s/style.css, else ""; any other choice is kept |
| ImageModel.TypesettableIsSvgOrMath | www/js/app.js:1358-1360 | every image MathJax replaces is in the SVG bucket of triageImages |
| ImageModel.VisibleWindowIsFirstRun | www/js/app.js:1572-1595 | null/null exactly when no image is in view; otherwise the lowest visible index and the end of the run of visible images from there |
| ImageModel.SweepKeepsUnloaded | www/js/app.js:1283-1292 | the removal loop keeps exactly the images without a src, in order, and counts the others; a position is recorded only for a loaded image in view, and is below the number removed |
| ImageModel.PrepareAlwaysTriages | www/js/app.js:1294-1319 | because null >= 0 holds, prepareImages always triages the window it just computed |
| ImageModel.WindowBounds | www/js/app.js:1341-1352 | the window lies inside the image array |
| ImageModel.WindowShiftsLeft | www/js/app.js:1341-1352 | a window past the end is shifted left by the overrun, keeping its width, then clamped at 0; one that fits keeps its end |
| ImageModel.SortWindowByBuckets | www/js/app.js:1355-1375 | the SVG groups are exactly the SVG and maths images inside and outside [first, last]; the visible slice gains the first raster images up to last that fit; every other raster image goes to the prefetch slice; all in index order |
| ImageModel.VisibleSliceBound | www/js/app.js:1367-1368 | an initially empty visible slice receives at most 11 images |
| ImageModel.BucketsPartitionWindow | www/js/app.js:1355-1375 | the four buckets together hold exactly the images of the window, as a multiset |
| ImageModel.Untypeset | www/js/app.js:1429-1443 | the MathJax pass never lengthens the SVG queue |
| ImageModel.UntypesetKeepsOthers | www/js/app.js:1429-1443 | the MathJax pass keeps exactly the images it does not replace, and it shortens the queue unless nothing is typesettable |
| ImageModel.PresentMembers | www/js/app.js:1280 | the images prepareImages reloads are those of the article not replaced by MathJax scripts |
| SchedulerInvariants.RequestsOfBatch | www/js/app.js:1529-1536 | loadImageSlice starts one lookup per image whose URL matches regexpImageUrl, with its title, all for the new batch |
| SchedulerInvariants.LoadAccounted | www/js/app.js:1527-1536 | a new batch keeps every batch's sliceCount plus its lookups in flight equal to its matching images |
| SchedulerInvariants.LoadKeepsCore | www/js/app.js:1527-1536 | a batch started when all others have drained becomes the only batch in flight |
| SchedulerInvariants.PrepareKeeps | www/js/app.js:1274-1327 | prepareImages keeps the invariant |
| SchedulerInvariants.TriageKeeps | www/js/app.js:1339-1381 | triageImages keeps the invariant, its visible slice holding at most eleven images |
| SchedulerInvariants.DisplayKeeps | www/js/app.js:1395-1468 | displaySlices keeps the invariant, from a triage or from a batch callback |
| SchedulerInvariants.VisibleKeeps | www/js/app.js:1399-1407 | dispatching the visible slice keeps the invariant |
| SchedulerInvariants.PrefetchKeeps | www/js/app.js:1408-1416 | dispatching the prefetch slice keeps the invariant |
| SchedulerInvariants.SvgKeeps | www/js/app.js:1417-1455 | the MathJax pass and the start of an SVG round keep the invariant |
| SchedulerInvariants.IterateKeeps | www/js/app.js:1479-1511 | iterateSVGSlice keeps the invariant, whether it abandons, dispatches or finishes the round |
| SchedulerInvariants.RecordAccounted | www/js/app.js:1545-1560 | the bookkeeping of a completion keeps every batch accounted |
| SchedulerInvariants.PendingBatchIsLast | www/js/app.js:1395-1397 | a lookup in flight belongs to the last batch, which has not drained, and the guard is down |
| SchedulerInvariants.CompleteKeeps | www/js/app.js:1527-1564 | every completion keeps the invariant |
| SchedulerInvariants.ClickKeeps | www/js/app.js:1254-1266 | a click keeps the invariant |
| SchedulerInvariants.ScrollStoppedKeeps | www/js/app.js:1234-1242 | the scroll listener firing keeps the invariant |
| SchedulerInvariants.LoadImagesEstablishes | www/js/app.js:1202-1269 | loadImages starts in a state that satisfies the invariant |
| SchedulerProperties.DisplayDispatchesNext | www/js/app.js:1395-1468 | once a slice has drained, the next non-empty queue is dispatched as one new batch (visible, then prefetch, then the first three SVG images after the MathJax pass); the guard goes up exactly when nothing was dispatched, and then every queue is empty |
| SchedulerProperties.SvgFirstSlice | www/js/app.js:1479-1511 | the first call of a round records the visible window and dispatches the first three (or fewer) SVG images, keeping the rest in order |
| SchedulerProperties.SvgNextSlice | www/js/app.js:1479-1511 | a later call abandons the round and prepares again if the view moved; otherwise it dispatches the next three images, or ends the SVG phase |
| SchedulerProperties.DisplayKeepsImages | www/js/app.js:1395-1468 | displaySlices never changes the image list prepareImages built |
| SchedulerProperties.SvgKeepsImages | www/js/app.js:1417-1455 | the SVG phase never changes that list |
| SchedulerProperties.IterateFirstKeepsImages | www/js/app.js:1479-1511 | the first call of an SVG round never changes that list |
| SchedulerProperties.PrepareWorksOnUnloaded | www/js/app.js:1274-1327 | prepareImages does nothing while the guard is down; otherwise it works on exactly the article's images still in the document without a src, in order, and with none left it detaches the listener and raises the guard |
| SchedulerProperties.CompletionRecorded | www/js/app.js:1545-1560 | a completion removes exactly its own lookup, adds one to its batch's sliceCount and to countImages, leaves other batches alone, and adds the image to the loaded set exactly when it was found and its data was not requested |
| SchedulerProperties.UnmatchedBatchNeverDrains | www/js/app.js:1531-1534 | a batch holding an image whose URL does not match regexpImageUrl never drains; it stays the batch in flight and the guard stays down |
| SchedulerProperties.CompletionKeepsBatches | www/js/app.js:1527-1564 | a completion never changes the images or the end of an existing batch |
| SchedulerProperties.DisplayExtendsBatches | www/js/app.js:1395-1468 | displaySlices only appends batches |
| SchedulerProperties.SvgExtendsBatches | www/js/app.js:1417-1455 | the SVG phase only appends batches |
| SchedulerProperties.IterateExtendsBatches | www/js/app.js:1479-1511 | iterateSVGSlice only appends batches |
| SchedulerProperties.PrepareExtendsBatches | www/js/app.js:1274-1327 | prepareImages only appends batches |
| ImageScheduler.RemoveLoaded | www/js/app.js:1283-1292 | the splicing loop computes the sweep: it keeps the unloaded images and counts the removed ones |
| ImageScheduler.SortImages | www/js/app.js:1355-1375 | the sorting loop computes SortWindow, and the visible slice ends with at most 11 images |
| ImageScheduler.TypesetQueue | www/js/app.js:1429-1443 | the walk over a copy, with a counter on the live queue, leaves exactly the untypeset images, counts the replaced ones and collects their ids |
| ImageScheduler.QueueAdvance | www/js/app.js:1429-1443 | the live queue's element at the counter is always the copy's next element |
| ImageScheduler.Lookups | www/js/app.js:1529-1536 | one lookup per matching image, in order, with the title regexpImageUrl captures |
| ImageScheduler.Scheduler.LoadImages | www/js/app.js:1202-1269 | sets up the tracking variables; when images are displayed and there are any, it prepares them; the invariant holds afterwards |
| ImageScheduler.Scheduler.CheckVisibleImages | www/js/app.js:1572-1595 | the scan with its early break returns the first run of visible images |
| ImageScheduler.Scheduler.PrepareImages | www/js/app.js:1274-1327 | the effect of prepareImages is PrepareStep |
| ImageScheduler.Scheduler.TriageImages | www/js/app.js:1339-1381 | the window arithmetic and sorting, followed by displaySlices(0, 0, 0), have the effect of TriageStep |
| ImageScheduler.Scheduler.DisplaySlices | www/js/app.js:1395-1468 | the effect of displaySlices is DisplayStep |
| ImageScheduler.Scheduler.DisplayVisible | www/js/app.js:1399-1407 | dispatches the visible slice, or falls through to the prefetch slice |
| ImageScheduler.Scheduler.DisplayPrefetch | www/js/app.js:1408-1416 | dispatches the prefetch slice, or falls through to the SVG slice |
| ImageScheduler.Scheduler.DisplaySvg | www/js/app.js:1417-1455 | runs the MathJax pass when it is enabled, then starts a new SVG round, or raises the guard |
| ImageScheduler.Scheduler.TypesetMath | www/js/app.js:1421-1446 | the MathJax pass removes typesettable images from the queue and from the document, and counts them |
| ImageScheduler.Scheduler.IterateSvgSlice | www/js/app.js:1479-1511 | the effect of iterateSVGSlice is IterateStep |
| ImageScheduler.Scheduler.DispatchSvgSlice | www/js/app.js:1499-1509 | dispatches the next min(3, n) SVG images as a batch, or calls displaySlices(3, 0, 0) |
| ImageScheduler.Scheduler.LoadImageSlice | www/js/app.js:1527-1564 | appends a batch with sliceCount 0, and one pending lookup per matching image |
| ImageScheduler.Scheduler.RecordLookup | www/js/app.js:1536-1560 | the bookkeeping of a completion is RecordCompletion; the MIME type is computed from the entry's URL only when the entry was found |
| ImageScheduler.Scheduler.Complete | www/js/app.js:1527-1564 | a completion, with its callback, has the effect of CompleteStep |
| ImageScheduler.Scheduler.ClickImage | www/js/app.js:1254-1266 | when images are not displayed automatically, a click requests that image's data alone; the invariant is kept |
| ImageScheduler.Scheduler.MathJaxLoaded | www/js/app.js:1116-1122 | MathJax, loaded asynchronously, becomes available: only the MathJax flag read by the SVG phase changes; the invariant is kept |
| ImageScheduler.Scheduler.Scroll | www/js/app.js:1237-1240 | only the images in view change; the invariant is kept |
| ImageScheduler.Scheduler.ScrollStopped | www/js/app.js:1234-1242 | the listener runs prepareImages while it is attached; the invariant is kept |

## Left out

- `decodeURIComponent`, applied to the captured image title and the article link, is not modelled. Titles are kept as captured. Its error path is not modelled either: a malformed escape such as `../I/m/100%.png` throws a URIError inside the lookup loop of `loadImageSlice` (www/js/app.js:1535); the rest of that batch then gets no lookup, so the batch never drains, and the throw leaves `displaySlices` before it clears `visibleSlice`. The same throw at www/js/app.js:1173 aborts the click on such an article link.
- The archive itself is not modelled: `getDirEntryByTitle`, `readBinaryFile`, `feedNodeWithBlob`, Blob URLs, `btoa` and `util.uintToString`. A lookup ends with an `Outcome`: the entry's URL, or not found.
- The asynchrony of lookups is modelled as a list of pending requests, which may complete in any order. Timers are left out: the 250 ms debounce of the scroll listener and `setTimeout`.
- The MathJax `Hub.Typeset` call is not modelled, nor the creation of the `<script>` elements. Only their effect on the SVG queue, on the document and on `countImages` is modelled.
- `console` logging and `console.time` / `timeEnd` are left out. This includes the test `countImages <= maxVisibleSliceSize + prefetchSliceSize`, which only logs. The two branches on `countImages === allImages` differ only in what they log.
- `uiUtil.isElementInView` is not modelled; the set `inView` stands in for what it reports.
- The cosmetic changes of the click handler are left out: the height and background of the image.
- Case-insensitive regular expressions and `toLowerCase` fold ASCII letters only. No pattern used here contains any other letter.
- `util.endsWith` is taken to be a suffix test. `www/js/util.js` is not part of this model.
- `initialSVGRun`, and the use of `svgGroup1` as a closure variable, only feed code that is commented out. `svgGroup1` is modelled as a local of the sorting loop.
- Every `<img>` is assumed to carry a `data-kiwixsrc` attribute. One without it throws a TypeError in `loadImageSlice`, which is not modelled.
- In click mode, the callback sets the src even when the lookup failed, because it is then called with "Error!" as the MIME type. The model marks the image loaded either way.
- A lookup that fails sets no src, so the image is queued and counted again at the next `prepareImages`. `countImages` can therefore exceed `allImages`. The model counts failed lookups as the source does.
- ImageScheduler.Scheduler.Complete: its contract states the new state only. Its invariant preservation is the separate lemma `SchedulerInvariants.CompleteKeeps`, about `CompleteStep`.
- The `if (endSVG)` test is modelled as `sliceCount != 0`. The two agree in every reachable state. The model does not cover a first call of a round made with a non-zero count.
- The rest of the stylesheet handling after the automatic choice is not modelled: the minerva substitution and the CSS cache. Nor are a missing `cssArray` and what happens when the chosen storage is used.
- The DOM effects of the link classifier are not modelled (click handlers, `target`, the alert). Its decision is the `LinkAction` value.
