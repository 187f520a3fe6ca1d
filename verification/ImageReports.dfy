/** What every request is told, and what becomes of the pixels, over runs of the
    image pipeline beside the steps they take. */
module ImageReports {
  import opened Options
  import opened Images

  ghost predicate Took(run: seq<State>, steps: seq<Step>, i: nat)
    requires i < |steps| && |run| == |steps| + 1
  {
    Enabled(run[i], steps[i]) && run[i + 1] == Do(run[i], steps[i])
  }

  ghost predicate IsTrace(run: seq<State>, steps: seq<Step>) {
    && |run| == |steps| + 1
    && run[0] == INITIAL
    && forall i {:trigger Took(run, steps, i)} :: 0 <= i < |steps| ==> Took(run, steps, i)
  }

  lemma TraceKeeps(run: seq<State>, steps: seq<Step>, i: nat)
    requires IsTrace(run, steps) && i < |run|
    ensures IsRun(run) && Inv(run[i])
  {
    forall j | 0 < j < |run| ensures Linked(run, j) {
      assert Took(run, steps, j - 1);
    }
    RunsKeep(run, i);
  }

  // ------------------------------------------------------- why it is told

  /** A load that ended so says `news`. */
  predicate LoadSays(c: Completion, news: News) {
    match c
    case LoadedBitmap(_, intrinsic, _) => news == Loaded(intrinsic)
    case ParsedDocument(_, document) => news == Parsed(document)
    case LoadFailed(_) => news == Failed
    case _ => false
  }

  /** A parse for one document request that ended so says `news`. */
  predicate ParseSays(parsed: Option<nat>, news: News) {
    match parsed
    case Some(document) => news == Parsed(document)
    case None => news == Failed
  }

  /** What is known of an image source at once. */
  predicate EntrySays(s: State, src: nat, news: News) {
    match EntryOf(s, src)
    case Some(Bitmap(size, _)) => news == Loaded(size)
    case Some(FailedEntry) => news == Failed
    case Some(Loading(_)) => false
    case _ => news == Failed     // its address could not be resolved
  }

  /** The step has this reason to tell `to` these news. */
  predicate Tells(s: State, step: Step, r: Report) {
    match step
    case Request(x, resolved) =>
      r.to == x && EntrySays(s, x.source, r.news) && (StartsOver(s, x.source) ==> !resolved)
    case Apply(_) =>
      s.queue != [] &&
      (match s.queue[0]
       case RequestedDocument(src, parsed) =>
         r.to in s.requested && r.to.source == src && ParseSays(parsed, r.news)
       case Refined(_, _, _) => false
       case RefineFailed(_) => false
       case _ => r.to in WaitersOf(s, s.queue[0].source) && LoadSays(s.queue[0], r.news))
    case _ => false
  }

  /** The reports a step adds, each with its reason. */
  ghost predicate OnlyTells(s: State, step: Step, t: State) {
    && s.reports <= t.reports
    && forall r :: |s.reports| <= r < |t.reports| ==> Tells(s, step, t.reports[r])
  }

  lemma RequestTells(s: State, x: Ticket, resolved: bool)
    requires x.kind == Image
    ensures OnlyTells(s, Request(x, resolved), Requested(s, x, resolved))
  {
  }

  lemma LoadTells(s: State, evicted: set<nat>)
    requires s.queue != [] && OfLoad(s.queue[0])
    ensures OnlyTells(s, Apply(evicted), AppliedNext(s, evicted))
  {
    var c := s.queue[0];
    if IsLoading(s, c.source) {
      TellAllTells(WaitersOf(s, c.source), LoadNews(c));
    }
  }

  lemma DocumentTells(s: State, evicted: set<nat>)
    requires s.queue != [] && s.queue[0].RequestedDocument?
    ensures OnlyTells(s, Apply(evicted), AppliedNext(s, evicted))
  {
    var i := FirstFor(s.requested, s.queue[0].source);
    assert i < |s.requested| ==> s.requested[i] in s.requested;
  }

  lemma RefinementTells(s: State, evicted: set<nat>)
    requires s.queue != [] && (s.queue[0].Refined? || s.queue[0].RefineFailed?)
    ensures OnlyTells(s, Apply(evicted), AppliedNext(s, evicted))
  {
  }

  lemma QuietTells(s: State, step: Step)
    requires Enabled(s, step) && !step.Request? && !step.Apply?
    ensures OnlyTells(s, step, Do(s, step))
  {
  }

  lemma StepTells(s: State, step: Step)
    requires Enabled(s, step)
    ensures OnlyTells(s, step, Do(s, step))
  {
    match step
    case Request(x, resolved) => RequestTells(s, x, resolved);
    case Apply(evicted) =>
      if OfLoad(s.queue[0]) {
        LoadTells(s, evicted);
      } else if s.queue[0].RequestedDocument? {
        DocumentTells(s, evicted);
      } else {
        RefinementTells(s, evicted);
      }
    case _ => QuietTells(s, step);
  }

  /** Step `i` made report `r`, and had a reason to. */
  ghost predicate MadeAt(run: seq<State>, steps: seq<Step>, n: nat, r: nat, i: nat)
    requires |run| == |steps| + 1 && n < |run| && i < n && r < |run[n].reports|
  {
    && |run[i].reports| <= r < |run[i + 1].reports|
    && run[i + 1].reports[r] == run[n].reports[r]
    && Tells(run[i], steps[i], run[n].reports[r])
  }

  /** Every report ever made was made by a step that had a reason to: nobody is
      told anything but what is known, or what the completion says. */
  lemma {:induction false} ReportsHaveReasons(run: seq<State>, steps: seq<Step>, n: nat, r: nat) returns (i: nat)
    requires IsTrace(run, steps) && n < |run| && r < |run[n].reports|
    ensures i < n && MadeAt(run, steps, n, r, i)
  {
    assert Took(run, steps, n - 1);
    StepTells(run[n - 1], steps[n - 1]);
    if r < |run[n - 1].reports| {
      i := ReportsHaveReasons(run, steps, n - 1, r);
      assert run[n - 1].reports[r] == run[n].reports[r];
    } else {
      i := n - 1;
    }
  }

  /** Image requests wait at their entry, document requests in the list. */
  lemma KindsFit(s: State, src: nat)
    requires Inv(s)
    ensures forall x :: x in WaitersOf(s, src) ==> x.kind == Image && x.source == src
    ensures forall x :: x in s.requested ==> x.kind == Document
  {
    assert WaitersFit(WaitersOf(s, src), src);
  }

  /** A document request is told `Parsed` or `Failed` exactly as the completion
      that answered it went. */
  lemma DocumentsAreToldTheirParse(run: seq<State>, steps: seq<Step>, n: nat, r: nat) returns (i: nat)
    requires IsTrace(run, steps) && n < |run| && r < |run[n].reports| && run[n].reports[r].to.kind == Document
    ensures i < n && MadeAt(run, steps, n, r, i) && steps[i].Apply?
    ensures run[i].queue != [] && run[i].queue[0].RequestedDocument? && run[i].queue[0].source == run[n].reports[r].to.source
    ensures forall d: nat :: run[n].reports[r].news == Parsed(d) <==> run[i].queue[0].parsed == Some(d)
    ensures run[n].reports[r].news == Failed <==> run[i].queue[0].parsed == None
  {
    i := ReportsHaveReasons(run, steps, n, r);
    TraceKeeps(run, steps, i);
    assert Took(run, steps, i);
    if steps[i].Apply? {
      KindsFit(run[i], run[i].queue[0].source);
    }
  }

  /** An image request is told what its source's entry held when it asked, or
      how the load it waited for ended. */
  lemma ImagesAreToldTheirLoad(run: seq<State>, steps: seq<Step>, n: nat, r: nat) returns (i: nat)
    requires IsTrace(run, steps) && n < |run| && r < |run[n].reports| && run[n].reports[r].to.kind == Image
    ensures i < n && MadeAt(run, steps, n, r, i)
    ensures var report := run[n].reports[r];
            || (steps[i].Request? && steps[i].ticket == report.to && EntrySays(run[i], report.to.source, report.news))
            || (steps[i].Apply? && run[i].queue != [] && run[i].queue[0].source == report.to.source
                && LoadSays(run[i].queue[0], report.news))
  {
    i := ReportsHaveReasons(run, steps, n, r);
    TraceKeeps(run, steps, i);
    assert Took(run, steps, i);
    if steps[i].Apply? {
      KindsFit(run[i], run[i].queue[0].source);
    }
  }

  // ----------------------------------------------------- everyone is told

  /** When a load ends, everyone who waited for it is told how. */
  lemma WaitersAreTold(run: seq<State>, steps: seq<Step>, i: nat, x: Ticket) returns (r: nat)
    requires IsTrace(run, steps) && i < |steps| && steps[i].Apply?
    requires run[i].queue != [] && OfLoad(run[i].queue[0]) && x in WaitersOf(run[i], run[i].queue[0].source)
    ensures |run[i].reports| <= r < |run[i + 1].reports|
    ensures run[i + 1].reports[r].to == x && LoadSays(run[i].queue[0], run[i + 1].reports[r].news)
  {
    assert Took(run, steps, i);
    var waiters := WaitersOf(run[i], run[i].queue[0].source);
    var k :| 0 <= k < |waiters| && waiters[k] == x;
    TellAllTells(waiters, LoadNews(run[i].queue[0]));
    r := |run[i].reports| + k;
    assert run[i + 1].reports[r] == TellAll(waiters, LoadNews(run[i].queue[0]))[k];
  }

  /** When a parse ends, the first document request for its source is told how,
      and waits no more. */
  lemma DocumentIsTold(run: seq<State>, steps: seq<Step>, i: nat)
    requires IsTrace(run, steps) && i < |steps| && steps[i].Apply?
    requires run[i].queue != [] && run[i].queue[0].RequestedDocument?
    ensures |run[i + 1].reports| == |run[i].reports| + 1
    ensures var report := run[i + 1].reports[|run[i].reports|];
            && report.to in run[i].requested && report.to.source == run[i].queue[0].source
            && ParseSays(run[i].queue[0].parsed, report.news)
            && multiset(run[i + 1].requested) == multiset(run[i].requested) - multiset{report.to}
  {
    assert Took(run, steps, i);
    TraceKeeps(run, steps, i);
    NextIsAwaited(run[i]);
    SwapRemovedKeepsOthers(run[i].requested, FirstFor(run[i].requested, run[i].queue[0].source));
  }

  // -------------------------------------------------------------- pixels

  /** A load that brings a bitmap leaves it resident and remembers its size; a
      refinement replaces it, and one that fails leaves it as it was. */
  lemma CompletionsBringTheirPixels(run: seq<State>, steps: seq<Step>, i: nat, evicted: set<nat>)
    requires IsTrace(run, steps) && i < |steps| && steps[i] == Apply(evicted) && run[i].queue != []
    ensures match run[i].queue[0]
            case LoadedBitmap(src, intrinsic, bitmap) =>
              && src in run[i + 1].resident && run[i + 1].resident[src] == bitmap
              && EntryOf(run[i + 1], src) == Some(Bitmap(intrinsic, None))
            case Refined(src, _, bitmap) =>
              && src in run[i + 1].resident && run[i + 1].resident[src] == bitmap
              && IsBitmap(run[i], src) && EntryOf(run[i + 1], src) == Some(Bitmap(run[i].entries[src].intrinsic, None))
            case RefineFailed(src) =>
              && run[i + 1].resident == run[i].resident
              && IsBitmap(run[i], src) && EntryOf(run[i + 1], src) == Some(Bitmap(run[i].entries[src].intrinsic, None))
            case ParsedDocument(src, _) => EntryOf(run[i + 1], src) == Some(ParsedMarker)
            case LoadFailed(src) => EntryOf(run[i + 1], src) == Some(FailedEntry)
            case RequestedDocument(_, _) => run[i + 1].entries == run[i].entries && run[i + 1].resident == run[i].resident
  {
    assert Took(run, steps, i);
    TraceKeeps(run, steps, i);
    NextIsAwaited(run[i]);
  }

  lemma Larger(n: real, ratio: real)
    requires n >= 1.0 && ratio > 1.0
    ensures n < n * ratio
  {
  }

  /** A bitmap that is too small for the draw is replaced exactly when the image
      has more to give, as long as it is not at the same time too large. */
  lemma BlurredIsReplaced(resident: Size, target: Size, intrinsic: Size, ratio: real)
    requires target.width >= 1 && target.height >= 1 && ratio > 1.0
    requires resident.width <= intrinsic.width && resident.height <= intrinsic.height
    requires resident.width < target.width || resident.height < target.height
    ensures WantsRefinement(resident, target, intrinsic, ratio) <==> resident != intrinsic
  {
    var w, h := target.width as real, target.height as real;
    Larger(w, ratio);
    Larger(h, ratio);
    var tooWide, tooHigh := w * ratio, h * ratio;
    assert w < tooWide && h < tooHigh;
  }

  /** A bitmap that covers the draw is replaced exactly when it is `ratio` times
      too large on both axes. */
  lemma CoveringStays(resident: Size, target: Size, intrinsic: Size, ratio: real)
    requires resident.width >= target.width && resident.height >= target.height
    ensures WantsRefinement(resident, target, intrinsic, ratio) <==>
              target.width as real * ratio <= resident.width as real && target.height as real * ratio <= resident.height as real
  {
  }
}
