/** What the image scheduler keeps true between events: every lookup belongs to
    a batch whose sliceCount plus its lookups in flight is the number of its
    images that can complete; batches run one at a time; windowScroll, the
    re-entry guard, is up exactly when no batch is in flight; and a queue holds
    images only while an earlier slice is being fetched. */
module SchedulerInvariants {
  import opened Wrappers
  import opened ImageModel
  import opened ImageSteps
  import ArchiveUrls

  // ---------------------------------------------------------------------
  // Counting lookups

  /** The lookups in flight for batch b. */
  function PendingFor(pending: seq<Request>, b: nat): nat
  {
    if pending == [] then 0
    else PendingFor(pending[..|pending| - 1], b) + (if pending[|pending| - 1].batch == b then 1 else 0)
  }

  lemma {:induction false} PendingForAppend(p: seq<Request>, q: seq<Request>, b: nat)
    ensures PendingFor(p + q, b) == PendingFor(p, b) + PendingFor(q, b)
    decreases |q|
  {
    if q != [] {
      var init := q[..|q| - 1];
      assert (p + q)[..|p + q| - 1] == p + init;
      PendingForAppend(p, init, b);
    } else {
      assert p + q == p;
    }
  }

  lemma {:induction false} PendingForRemove(p: seq<Request>, k: nat, b: nat)
    requires k < |p|
    ensures PendingFor(p[..k] + p[k + 1..], b) + (if p[k].batch == b then 1 else 0) == PendingFor(p, b)
  {
    assert p == p[..k] + [p[k]] + p[k + 1..];
    PendingForAppend(p[..k] + [p[k]], p[k + 1..], b);
    PendingForAppend(p[..k], [p[k]], b);
    PendingForAppend(p[..k], p[k + 1..], b);
    assert PendingFor([p[k]], b) == (if p[k].batch == b then 1 else 0) by {
      assert [p[k]][..0] == [];
    }
  }

  lemma {:induction false} PendingForNone(p: seq<Request>, b: nat)
    requires forall q :: 0 <= q < |p| ==> p[q].batch != b
    ensures PendingFor(p, b) == 0
  {
    if p != [] {
      PendingForNone(p[..|p| - 1], b);
    }
  }

  /** loadImageSlice starts one lookup per image whose URL matches
      regexpImageUrl, for that image and its title, all for the new batch. */
  lemma {:induction false} RequestsOfBatch(items: seq<ImageRef>, nb: nat, b: nat)
    ensures |Requests(items, nb)| == Matching(items)
    ensures PendingFor(Requests(items, nb), b) == (if b == nb then Matching(items) else 0)
    ensures forall q :: 0 <= q < |Requests(items, nb)| ==>
      var r := Requests(items, nb)[q];
      r.batch == nb && r.node in items && ArchiveUrls.ImageTitle(r.node.kiwixSrc) == Some(r.title)
    ensures Matching(items) <= |items|
  {
    if items != [] {
      var init := items[..|items| - 1];
      var x := items[|items| - 1];
      RequestsOfBatch(init, nb, b);
      PendingForAppend(Requests(init, nb), RequestFor(x, nb), b);
      var rs := Requests(items, nb);
      forall q | 0 <= q < |rs|
        ensures rs[q].batch == nb && rs[q].node in items && ArchiveUrls.ImageTitle(rs[q].node.kiwixSrc) == Some(rs[q].title)
      {
        if q < |Requests(init, nb)| {
          assert rs[q] == Requests(init, nb)[q];
          assert rs[q].node in init;
        }
      }
      if RequestFor(x, nb) != [] {
        assert PendingFor(RequestFor(x, nb), b) == (if b == nb then 1 else 0) by {
          assert RequestFor(x, nb)[..0] == [];
        }
      }
    }
  }

  // ---------------------------------------------------------------------
  // The invariant

  /** Every batch accounts for its images: sliceCount plus the lookups still
      in flight equals the images whose URL matches. */
  predicate Accounted(s: SchedState)
  {
    WellFormed(s) &&
    forall b :: 0 <= b < |s.batches| ==>
      s.batches[b].count + PendingFor(s.pending, b) == Matching(s.batches[b].items)
  }

  /** The test displaySlices and iterateSVGSlice apply: the batch has reported all its images. */
  predicate Drained(b: Batch)
  {
    b.count == b.sliceEnd
  }

  predicate AllDrained(bs: seq<Batch>)
  {
    forall i :: 0 <= i < |bs| ==> Drained(bs[i])
  }

  /** The batches each mode creates: slices 1 and 2 calling displaySlices and
      slice 3 calling iterateSVGSlice, of one or more images each (at most
      eleven in slice 1 and three in slice 3), when images are displayed;
      single clicked images otherwise. */
  predicate Shaped(b: Batch, imageDisplay: bool)
  {
    if imageDisplay then
      |b.items| >= 1 && b.sliceEnd == |b.items| && !b.dataRequested &&
      ((b.callback.DisplayNext? && (b.sliceID == 1 || b.sliceID == 2)) ||
       (b.callback.IterateSvg? && b.sliceID == 3)) &&
      (b.sliceID == 1 ==> |b.items| <= MaxVisibleSliceSize + 1) &&
      (b.sliceID == 3 ==> |b.items| <= SvgSliceSize)
    else
      b.callback.ShowClicked? && |b.items| == 1 && b.sliceEnd == 0 && b.sliceID == 0 && b.dataRequested
  }

  /** What holds at every point, even between the statements of a step. */
  predicate Core(s: SchedState)
  {
    Accounted(s) &&
    (forall i :: 0 <= i < |s.batches| ==> Shaped(s.batches[i], s.imageDisplay)) &&
    (s.imageDisplay ==> forall i :: 0 <= i < |s.batches| - 1 ==> Drained(s.batches[i])) &&
    (s.listening ==> s.imageDisplay)
  }

  /** What holds between events. */
  predicate Inv(s: SchedState)
  {
    Core(s) &&
    s.visibleSlice == [] &&
    (s.imageDisplay ==> (s.windowScroll <==> AllDrained(s.batches))) &&
    (!s.imageDisplay ==> s.windowScroll) &&
    (s.prefetchSlice != [] ==> !s.windowScroll && |s.batches| > 0 && s.batches[|s.batches| - 1].sliceID == 1) &&
    (s.svgSlice != [] ==> !s.windowScroll)
  }

  /** When displaySlices may be called: after a triage (sliceID 0) with the
      queues just filled, or as the callback of a batch, when every queue of
      an earlier slice has been dispatched. */
  predicate DisplayPre(s: SchedState, sliceID: int, sliceCount: int, sliceEnd: int)
  {
    Core(s) && s.imageDisplay && !s.windowScroll && 0 <= sliceID &&
    |s.visibleSlice| <= MaxVisibleSliceSize + 1 &&
    (sliceCount == sliceEnd ==>
      AllDrained(s.batches) &&
      (sliceID >= 1 ==> s.visibleSlice == []) &&
      (sliceID >= 2 ==> s.prefetchSlice == []) &&
      (sliceID >= 3 ==> s.svgSlice == [])) &&
    (sliceCount != sliceEnd ==> Inv(s))
  }

  predicate IteratePre(s: SchedState, round: nat, sliceCount: int, sliceEnd: int)
  {
    round < |s.svgRounds| && Core(s) && s.imageDisplay && !s.windowScroll &&
    s.visibleSlice == [] && s.prefetchSlice == [] &&
    (sliceCount == sliceEnd ==> AllDrained(s.batches)) &&
    (sliceCount != sliceEnd ==> Inv(s))
  }

  predicate TriagePre(s: SchedState)
  {
    Core(s) && s.imageDisplay && !s.windowScroll && AllDrained(s.batches) &&
    s.visibleSlice == [] && s.prefetchSlice == [] && s.svgSlice == []
  }

  // ---------------------------------------------------------------------
  // Preservation

  /** A new batch keeps the accounting: its lookups are all it has in flight. */
  lemma LoadAccounted(s: SchedState, items: seq<ImageRef>, sliceID: int, sliceEnd: int, cb: Callback, dataRequested: bool)
    requires Accounted(s)
    requires cb.IterateSvg? ==> cb.round < |s.svgRounds|
    ensures Accounted(LoadStep(s, items, sliceID, sliceEnd, cb, dataRequested))
  {
    var r := LoadStep(s, items, sliceID, sliceEnd, cb, dataRequested);
    var nb := |s.batches|;
    var reqs := Requests(items, nb);
    forall q | 0 <= q < |r.pending| ensures r.pending[q].batch < |r.batches| {
      if q >= |s.pending| {
        RequestsOfBatch(items, nb, nb);
        assert r.pending[q] == reqs[q - |s.pending|];
      }
    }
    forall b | 0 <= b < |r.batches|
      ensures r.batches[b].count + PendingFor(r.pending, b) == Matching(r.batches[b].items)
    {
      PendingForAppend(s.pending, reqs, b);
      RequestsOfBatch(items, nb, b);
      if b == nb {
        PendingForNone(s.pending, nb);
      }
    }
  }

  /** A new batch, started when all others have drained, keeps the accounting
      and becomes the only batch in flight. */
  lemma LoadKeepsCore(s: SchedState, items: seq<ImageRef>, sliceID: int, sliceEnd: int, cb: Callback, dataRequested: bool)
    requires Core(s)
    requires Shaped(Batch(items, sliceID, sliceEnd, 0, cb, dataRequested), s.imageDisplay)
    requires s.imageDisplay ==> AllDrained(s.batches)
    requires cb.IterateSvg? ==> cb.round < |s.svgRounds|
    ensures var r := LoadStep(s, items, sliceID, sliceEnd, cb, dataRequested);
      Core(r) && (s.imageDisplay ==> !AllDrained(r.batches))
  {
    var r := LoadStep(s, items, sliceID, sliceEnd, cb, dataRequested);
    LoadAccounted(s, items, sliceID, sliceEnd, cb, dataRequested);
    if s.imageDisplay {
      assert !Drained(r.batches[|s.batches|]);
    }
  }

  lemma {:induction false} PrepareKeeps(s: SchedState)
    requires Inv(s) && s.imageDisplay
    ensures Inv(PrepareStep(s))
    decreases 8
  {
    if s.windowScroll {
      var sw := Sweep(Present(s.doc, s.replaced), s.loaded, s.inView);
      var s1 := s.(windowScroll := false, images := sw.kept);
      if |sw.kept| > 0 {
        match PrepareDecision(VisibleWindow(sw.kept, s.inView), sw.visibleImage, sw.removed)
        case TriageWindow(f, l) => TriageKeeps(s1, f, l);
        case WaitForScroll =>
      }
    }
  }

  lemma {:induction false} TriageKeeps(s: SchedState, first: Option<int>, last: Option<int>)
    requires TriagePre(s)
    ensures Inv(TriageStep(s, first, last))
    decreases 7
  {
    var f := OrMinusOne(first);
    var l := OrMinusOne(last);
    var w := WindowBounds(f, l, |s.images|);
    var r := SortWindow(s.images, w.0, w.1, f, l, s.visibleSlice, s.prefetchSlice);
    VisibleSliceBound(s.images, w.0, w.1, f, l, s.visibleSlice, s.prefetchSlice);
    DisplayKeeps(s.(visibleSlice := r.visible, prefetchSlice := r.prefetch, svgSlice := r.svgIn + r.svgOut), 0, 0, 0);
  }

  lemma {:induction false} DisplayKeeps(s: SchedState, sliceID: int, sliceCount: int, sliceEnd: int)
    requires DisplayPre(s, sliceID, sliceCount, sliceEnd)
    ensures Inv(DisplayStep(s, sliceID, sliceCount, sliceEnd))
    decreases if sliceID >= 3 then 0 else 6
  {
    if sliceCount == sliceEnd {
      if sliceID == 0 {
        VisibleKeeps(s);
      } else if sliceID == 1 {
        PrefetchKeeps(s);
      } else if sliceID == 2 {
        SvgKeeps(s);
      }
    }
  }

  lemma {:induction false} VisibleKeeps(s: SchedState)
    requires Core(s) && s.imageDisplay && !s.windowScroll && AllDrained(s.batches)
    requires |s.visibleSlice| <= MaxVisibleSliceSize + 1
    ensures Inv(VisiblePhase(s))
    decreases 5
  {
    if |s.visibleSlice| > 0 {
      LoadKeepsCore(s, s.visibleSlice, 1, |s.visibleSlice|, DisplayNext, false);
    } else {
      PrefetchKeeps(s);
    }
  }

  lemma {:induction false} PrefetchKeeps(s: SchedState)
    requires Core(s) && s.imageDisplay && !s.windowScroll && AllDrained(s.batches)
    requires s.visibleSlice == []
    ensures Inv(PrefetchPhase(s))
    decreases 4
  {
    if |s.prefetchSlice| > 0 {
      LoadKeepsCore(s, s.prefetchSlice, 2, |s.prefetchSlice|, DisplayNext, false);
    } else {
      SvgKeeps(s);
    }
  }

  lemma {:induction false} SvgKeeps(s: SchedState)
    requires Core(s) && s.imageDisplay && !s.windowScroll && AllDrained(s.batches)
    requires s.visibleSlice == [] && s.prefetchSlice == []
    ensures Inv(SvgPhase(s))
    decreases 3
  {
    var s2 := if |s.svgSlice| > 0 && s.useMathJax then TypesetStep(s) else s;
    if |s2.svgSlice| > 0 {
      IterateKeeps(s2.(svgRounds := s2.svgRounds + [SvgRound(None, None)]), |s2.svgRounds|, 0, 0);
    }
  }

  lemma {:induction false} IterateKeeps(s: SchedState, round: nat, sliceCount: int, sliceEnd: int)
    requires IteratePre(s, round, sliceCount, sliceEnd)
    ensures Inv(IterateStep(s, round, sliceCount, sliceEnd))
    decreases if sliceCount == 0 then 2 else 9
  {
    if sliceCount == sliceEnd {
      var view := VisibleWindow(s.images, s.inView);
      var w := s.svgRounds[round];
      var s1 := s.(svgRounds := s.svgRounds[round := if sliceCount == 0 then w.(start := Some(view)) else w.(end := Some(view))]);
      if sliceCount != 0 && w.start != Some(view) {
        PrepareKeeps(s1.(svgSlice := [], windowScroll := true));
      } else {
        var size := Min(SvgSliceSize, |s1.svgSlice|);
        if size > 0 {
          LoadKeepsCore(s1.(svgSlice := s1.svgSlice[size..]), s1.svgSlice[..size], 3, size, IterateSvg(round), false);
        } else {
          DisplayKeeps(s1, 3, 0, 0);
        }
      }
    }
  }

  /** Recording a completion keeps the accounting: one lookup of the batch
      leaves the pending list and the batch's sliceCount goes up by one. */
  lemma RecordAccounted(s: SchedState, k: nat, outcome: Outcome)
    requires Accounted(s) && k < |s.pending|
    ensures Accounted(RecordCompletion(s, k, outcome))
  {
    var s1 := RecordCompletion(s, k, outcome);
    forall c | 0 <= c < |s1.batches|
      ensures s1.batches[c].count + PendingFor(s1.pending, c) == Matching(s1.batches[c].items)
    {
      PendingForRemove(s.pending, k, c);
    }
    forall j | 0 <= j < |s1.pending| ensures s1.pending[j].batch < |s1.batches| {
      if j < k { assert s1.pending[j] == s.pending[j]; } else { assert s1.pending[j] == s.pending[j + 1]; }
    }
  }

  /** The batch of a lookup in flight has not drained, so it is the last one. */
  lemma PendingBatchIsLast(s: SchedState, k: nat)
    requires Inv(s) && s.imageDisplay && k < |s.pending|
    ensures s.pending[k].batch == |s.batches| - 1 && !s.windowScroll
    ensures s.batches[s.pending[k].batch].count < s.batches[s.pending[k].batch].sliceEnd
  {
    var bi := s.pending[k].batch;
    var b := s.batches[bi];
    RequestsOfBatch(b.items, 0, 0);
    PendingForRemove(s.pending, k, bi);
    assert !Drained(b);
  }

  /** A completion keeps the invariant: the lookup's batch is the one in
      flight, so its callback sees every earlier slice dispatched. */
  lemma CompleteKeeps(s: SchedState, k: nat, outcome: Outcome)
    requires Inv(s) && k < |s.pending|
    ensures Inv(CompleteStep(s, k, outcome))
  {
    var b := s.batches[s.pending[k].batch];
    var s1 := RecordCompletion(s, k, outcome);
    RecordAccounted(s, k, outcome);
    if s.imageDisplay {
      PendingBatchIsLast(s, k);
      assert Core(s1);
      var bi := s.pending[k].batch;
      assert s1.batches[bi].count == b.count + 1;
      if b.count + 1 != b.sliceEnd {
        assert !Drained(s1.batches[bi]);
      }
      match b.callback
      case DisplayNext => DisplayKeeps(s1, b.sliceID, b.count + 1, b.sliceEnd);
      case IterateSvg(r) => IterateKeeps(s1, r, b.count + 1, b.sliceEnd);
      case ShowClicked(id) =>
    } else {
      assert Core(s1);
    }
  }

  lemma ClickKeeps(s: SchedState, i: nat)
    requires Inv(s)
    ensures Inv(ClickStep(s, i))
  {
    if !s.imageDisplay && i < |s.doc| {
      LoadKeepsCore(s, [s.doc[i]], 0, 0, ShowClicked(s.doc[i].id), true);
    }
  }

  lemma ScrollStoppedKeeps(s: SchedState)
    requires Inv(s)
    ensures Inv(ScrollStoppedStep(s))
  {
    if s.listening {
      PrepareKeeps(s);
    }
  }

  /** loadImages starts in a state satisfying the invariant. */
  lemma LoadImagesEstablishes(doc: seq<ImageRef>, loaded: set<nat>, inView: set<nat>, imageDisplay: bool, useMathJax: bool)
    ensures Inv(LoadImagesStep(doc, loaded, inView, imageDisplay, useMathJax))
  {
    var s0 := InitialState(doc, loaded, inView, imageDisplay, useMathJax);
    assert Inv(s0);
    if imageDisplay && |doc| > 0 {
      PrepareKeeps(s0);
    }
  }
}
