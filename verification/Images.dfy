/** The image pipeline: what the painter's side knows about every source, the
    jobs it has started, and the reports it owes. */
module Images {
  import opened Options

  // ------------------------------------------------------------- the state

  datatype Size = Size(width: nat, height: nat)

  datatype Kind = Image | Document

  /** One request: who asked, for which source, and whether it handed over a
      document of its own. Sources and documents are named by numbers. */
  datatype Ticket = Ticket(id: nat, source: nat, kind: Kind)

  datatype News = Loaded(size: Size) | Parsed(document: nat) | Failed

  datatype Report = Report(to: Ticket, news: News)

  datatype Entry =
    | Loading(waiters: seq<Ticket>)
    | Bitmap(intrinsic: Size, refining: Option<Size>)
    | ParsedMarker
    | FailedEntry

  datatype Job =
    | LoadJob(source: nat)
    | ParseJob(source: nat)
    | RefineJob(source: nat, target: Size)

  datatype Completion =
    | LoadedBitmap(source: nat, intrinsic: Size, bitmap: Size)
    | ParsedDocument(source: nat, document: nat)
    | LoadFailed(source: nat)
    | RequestedDocument(source: nat, parsed: Option<nat>)
    | Refined(source: nat, target: Size, bitmap: Size)
    | RefineFailed(source: nat)

  /** `resident` is the memory tier; `queue` the completions the painter has
      not applied; `issued` every request ever made. */
  datatype State = State(
    entries: map<nat, Entry>,
    requested: seq<Ticket>,
    resident: map<nat, Size>,
    jobs: seq<Job>,
    queue: seq<Completion>,
    reports: seq<Report>,
    issued: set<Ticket>)

  const INITIAL := State(map[], [], map[], [], [], [], {})

  function EntryOf(s: State, source: nat): Option<Entry> {
    if source in s.entries then Some(s.entries[source]) else None
  }

  /** One report to each waiter, in the order they asked. */
  function TellAll(waiters: seq<Ticket>, news: News): seq<Report> {
    if waiters == [] then [] else [Report(waiters[0], news)] + TellAll(waiters[1..], news)
  }

  // --------------------------------------------------------- the operations

  function Requested(s: State, x: Ticket, resolved: bool): State {
    var t := s.(issued := s.issued + {x});
    match EntryOf(s, x.source)
    case Some(Bitmap(size, _)) => t.(reports := s.reports + [Report(x, Loaded(size))])
    case Some(FailedEntry) => t.(reports := s.reports + [Report(x, Failed)])
    case Some(Loading(waiters)) => t.(entries := s.entries[x.source := Loading(waiters + [x])])
    case _ =>
      if resolved then
        t.(entries := s.entries[x.source := Loading([x])], jobs := s.jobs + [LoadJob(x.source)])
      else
        t.(entries := s.entries[x.source := FailedEntry], reports := s.reports + [Report(x, Failed)])
  }

  function DocumentRequested(s: State, x: Ticket): State {
    s.(issued := s.issued + {x}, requested := s.requested + [x], jobs := s.jobs + [ParseJob(x.source)])
  }

  /** What a job can send back, once. */
  predicate Answers(job: Job, c: Completion) {
    c.source == job.source
    && match job
       case LoadJob(_) => c.LoadedBitmap? || c.ParsedDocument? || c.LoadFailed?
       case ParseJob(_) => c.RequestedDocument?
       case RefineJob(_, target) => c.RefineFailed? || (c.Refined? && c.target == target)
  }

  function Finished(s: State, i: nat, c: Completion): State
    requires i < |s.jobs|
  {
    s.(jobs := s.jobs[..i] + s.jobs[i + 1..], queue := s.queue + [c])
  }

  /** The first request for `source` still in the list, or its length. */
  function FirstFor(requested: seq<Ticket>, source: nat): (i: nat)
    ensures i <= |requested|
    ensures i < |requested| ==> requested[i].source == source
    ensures forall j :: 0 <= j < i ==> requested[j].source != source
  {
    if requested == [] then 0
    else if requested[0].source == source then 0
    else 1 + FirstFor(requested[1..], source)
  }

  /** Takes one element out, putting the last in its place. */
  function SwapRemoved(requested: seq<Ticket>, i: nat): seq<Ticket>
    requires i < |requested|
  {
    var last := |requested| - 1;
    if i == last then requested[..last] else requested[..last][i := requested[last]]
  }

  predicate OfLoad(c: Completion) {
    c.LoadedBitmap? || c.ParsedDocument? || c.LoadFailed?
  }

  /** The entry a load leaves. */
  function LoadedEntry(c: Completion): Entry
    requires OfLoad(c)
  {
    if c.LoadedBitmap? then Bitmap(c.intrinsic, None) else if c.ParsedDocument? then ParsedMarker else FailedEntry
  }

  /** The news it brings everyone who waited. */
  function LoadNews(c: Completion): News
    requires OfLoad(c)
  {
    if c.LoadedBitmap? then Loaded(c.intrinsic) else if c.ParsedDocument? then Parsed(c.document) else Failed
  }

  function DocumentNews(parsed: Option<nat>): News {
    match parsed
    case Some(document) => Parsed(document)
    case None => Failed
  }

  predicate IsLoading(s: State, src: nat) {
    src in s.entries && s.entries[src].Loading?
  }

  predicate IsBitmap(s: State, src: nat) {
    src in s.entries && s.entries[src].Bitmap?
  }

  function LoadApplied(s: State, c: Completion, evicted: set<nat>): State
    requires OfLoad(c)
  {
    if IsLoading(s, c.source) then
      s.(entries := s.entries[c.source := LoadedEntry(c)],
         resident := if c.LoadedBitmap? then (s.resident - evicted)[c.source := c.bitmap] else s.resident,
         reports := s.reports + TellAll(s.entries[c.source].waiters, LoadNews(c)))
    else
      s.(entries := s.entries - {c.source})
  }

  function DocumentApplied(s: State, src: nat, parsed: Option<nat>): State {
    var i := FirstFor(s.requested, src);
    if i < |s.requested| then
      s.(requested := SwapRemoved(s.requested, i),
         reports := s.reports + [Report(s.requested[i], DocumentNews(parsed))])
    else
      s
  }

  function RefinedApplied(s: State, src: nat, target: Size, bitmap: Size, evicted: set<nat>): State {
    if IsBitmap(s, src) && s.entries[src].refining == Some(target) then
      s.(entries := s.entries[src := s.entries[src].(refining := None)],
         resident := (s.resident - evicted)[src := bitmap])
    else
      s
  }

  function RefineFailedApplied(s: State, src: nat): State {
    if IsBitmap(s, src) then s.(entries := s.entries[src := s.entries[src].(refining := None)]) else s
  }

  /** A completion applied. One that nothing is waiting for changes nothing,
      except that a load's still takes the entry away. */
  function Applied(s: State, c: Completion, evicted: set<nat>): State {
    match c
    case RequestedDocument(src, parsed) => DocumentApplied(s, src, parsed)
    case Refined(src, target, bitmap) => RefinedApplied(s, src, target, bitmap, evicted)
    case RefineFailed(src) => RefineFailedApplied(s, src)
    case _ => LoadApplied(s, c, evicted)
  }

  /** The oldest completion taken off the queue and applied. */
  function AppliedNext(s: State, evicted: set<nat>): State
    requires s.queue != []
  {
    Applied(s.(queue := s.queue[1..]), s.queue[0], evicted)
  }

  /** The whole queue applied in order. */
  function Drained(s: State, evictions: seq<set<nat>>): State
    requires |evictions| == |s.queue|
    decreases |s.queue|
  {
    if s.queue == [] then s else Drained(AppliedNext(s, evictions[0]), evictions[1..])
  }

  lemma DrainedStep(s: State, evictions: seq<set<nat>>)
    requires |evictions| == |s.queue| && s.queue != []
    ensures AppliedNext(s, evictions[0]).queue == s.queue[1..]
    ensures Drained(s, evictions) == Drained(AppliedNext(s, evictions[0]), evictions[1..])
  {
  }

  /** A frame's read of `source` at `target`: `wanted` is whether the resident
      bitmap should be replaced, `restored` what a restore on this thread
      decodes when nothing is resident. */
  function ReadAt(s: State, src: nat, target: Size, wanted: bool, restored: Option<Size>, evicted: set<nat>): State {
    if !IsBitmap(s, src) then s
    else if src in s.resident then
      if s.entries[src].refining.None? && wanted then
        s.(entries := s.entries[src := s.entries[src].(refining := Some(target))],
           jobs := s.jobs + [RefineJob(src, target)])
      else s
    else match restored
      case Some(bitmap) => s.(resident := (s.resident - evicted)[src := bitmap])
      case None => s
  }

  /** Whether a resident bitmap should be replaced by one decoded for
      `target`. */
  predicate WantsRefinement(resident: Size, target: Size, intrinsic: Size, ratio: real) {
    || (resident.width as real >= target.width as real * ratio && resident.height as real >= target.height as real * ratio)
    || ((resident.width < target.width || resident.height < target.height)
        && (resident.width < intrinsic.width || resident.height < intrinsic.height))
  }

  // ------------------------------------------------------- the painter side

  /** The painter-thread half and the jobs it has out, updated in place. */
  class Pipeline {
    var entries: map<nat, Entry>
    var requested: seq<Ticket>
    var resident: map<nat, Size>
    var jobs: seq<Job>
    var queue: seq<Completion>
    var reports: seq<Report>
    ghost var issued: set<Ticket>

    ghost function Now(): State
      reads this
    {
      State(entries, requested, resident, jobs, queue, reports, issued)
    }

    constructor ()
      ensures Now() == INITIAL
    {
      entries, requested, resident, jobs, queue, reports, issued := map[], [], map[], [], [], [], {};
    }

    method Request(x: Ticket, resolved: bool)
      modifies this
      ensures Now() == Requested(old(Now()), x, resolved)
    {
      issued := issued + {x};
      if x.source in entries {
        match entries[x.source]
        case Bitmap(size, _) =>
          reports := reports + [Report(x, Loaded(size))];
          return;
        case FailedEntry =>
          reports := reports + [Report(x, Failed)];
          return;
        case Loading(waiters) =>
          entries := entries[x.source := Loading(waiters + [x])];
          return;
        case ParsedMarker =>
      }
      if !resolved {
        entries := entries[x.source := FailedEntry];
        reports := reports + [Report(x, Failed)];
        return;
      }
      entries := entries[x.source := Loading([x])];
      jobs := jobs + [LoadJob(x.source)];
    }

    method RequestDocument(x: Ticket)
      modifies this
      ensures Now() == DocumentRequested(old(Now()), x)
    {
      issued := issued + {x};
      requested := requested + [x];
      jobs := jobs + [ParseJob(x.source)];
    }

    method Finish(i: nat, c: Completion)
      requires i < |jobs| && Answers(jobs[i], c)
      modifies this
      ensures Now() == Finished(old(Now()), i, c)
    {
      jobs := jobs[..i] + jobs[i + 1..];
      queue := queue + [c];
    }

    /** Tells every waiter, one at a time. */
    method Tell(waiters: seq<Ticket>, news: News)
      modifies this`reports
      ensures reports == old(reports) + TellAll(waiters, news)
    {
      for i := 0 to |waiters|
        invariant reports + TellAll(waiters[i..], news) == old(reports) + TellAll(waiters, news)
      {
        assert waiters[i..][1..] == waiters[i + 1..];
        assert reports + TellAll(waiters[i..], news)
            == (reports + [Report(waiters[i], news)]) + TellAll(waiters[i + 1..], news);
        reports := reports + [Report(waiters[i], news)];
      }
    }

    method Position(source: nat) returns (i: nat)
      ensures i == FirstFor(requested, source)
    {
      i := 0;
      while i < |requested| && requested[i].source != source
        invariant i <= |requested|
        invariant FirstFor(requested, source) == i + FirstFor(requested[i..], source)
      {
        assert requested[i..][1..] == requested[i + 1..];
        i := i + 1;
      }
      assert i < |requested| ==> requested[i..][0] == requested[i];
    }

    /** Takes the entry out before it looks at it, as the pipeline does. */
    method ApplyLoad(c: Completion, evicted: set<nat>)
      requires OfLoad(c)
      modifies this
      ensures Now() == LoadApplied(old(Now()), c, evicted)
    {
      var src := c.source;
      if src !in entries {
        assert entries - {src} == entries;
        return;
      }
      var entry := entries[src];
      entries := entries - {src};
      if !entry.Loading? {
        return;
      }
      if c.LoadedBitmap? {
        resident := (resident - evicted)[src := c.bitmap];
      }
      entries := entries[src := LoadedEntry(c)];
      assert entries == old(entries)[src := LoadedEntry(c)];
      Tell(entry.waiters, LoadNews(c));
    }

    method Apply(c: Completion, evicted: set<nat>)
      modifies this
      ensures Now() == Applied(old(Now()), c, evicted)
    {
      match c
      case RequestedDocument(src, parsed) =>
        var i := Position(src);
        if i == |requested| {
          return;
        }
        var x, last := requested[i], |requested| - 1;
        requested := if i == last then requested[..last] else requested[..last][i := requested[last]];
        reports := reports + [Report(x, DocumentNews(parsed))];
      case Refined(src, target, bitmap) =>
        if src !in entries || !entries[src].Bitmap? {
          return;
        }
        if entries[src].refining != Some(target) {
          return;
        }
        entries := entries[src := entries[src].(refining := None)];
        resident := (resident - evicted)[src := bitmap];
      case RefineFailed(src) =>
        if src in entries && entries[src].Bitmap? {
          entries := entries[src := entries[src].(refining := None)];
        }
      case _ =>
        ApplyLoad(c, evicted);
    }

    /** Applies every completion queued since the last turn; `evictions` is
        what the memory tier gives up for each. */
    method Service(evictions: seq<set<nat>>)
      requires |evictions| == |queue|
      modifies this
      ensures Now() == Drained(old(Now()), evictions)
    {
      var i := 0;
      while queue != []
        invariant i + |queue| == |evictions|
        invariant Drained(old(Now()), evictions) == Drained(Now(), evictions[i..])
        decreases |queue|
      {
        ghost var before := Now();
        DrainedStep(before, evictions[i..]);
        assert evictions[i..][1..] == evictions[i + 1..];
        var c := queue[0];
        queue := queue[1..];
        Apply(c, evictions[i]);
        assert Now() == AppliedNext(before, evictions[i]);
        i := i + 1;
      }
    }

    method Read(src: nat, target: Size, ratio: real, restored: Option<Size>, evicted: set<nat>)
        returns (pixels: Option<Size>)
      modifies this
      ensures var wanted := src in old(resident) && src in old(entries) && old(entries)[src].Bitmap?
                            && WantsRefinement(old(resident)[src], target, old(entries)[src].intrinsic, ratio);
              Now() == ReadAt(old(Now()), src, target, wanted, restored, evicted)
      ensures pixels == if src !in old(entries) || !old(entries)[src].Bitmap? then None
                        else if src in old(resident) then Some(old(resident)[src])
                        else restored
    {
      if src !in entries || !entries[src].Bitmap? {
        return None;
      }
      var loaded := entries[src];
      if src in resident {
        var image := resident[src];
        if loaded.refining.None? && WantsRefinement(image, target, loaded.intrinsic, ratio) {
          entries := entries[src := loaded.(refining := Some(target))];
          jobs := jobs + [RefineJob(src, target)];
        }
        return Some(image);
      }
      match restored
      case Some(bitmap) =>
        resident := (resident - evicted)[src := bitmap];
        return Some(bitmap);
      case None =>
        return None;
    }
  }

  // ------------------------------------------------------------- the runs

  datatype Step =
    | Request(ticket: Ticket, resolved: bool)
    | RequestDocument(ticket: Ticket)
    | Finish(job: nat, completion: Completion)
    | Apply(evicted: set<nat>)
    | Read(source: nat, target: Size, wanted: bool, restored: Option<Size>, evicted: set<nat>)
    | Evict(evicted: set<nat>)

  predicate Enabled(s: State, step: Step) {
    match step
    case Request(x, _) => x.kind == Image && x !in s.issued
    case RequestDocument(x) => x.kind == Document && x !in s.issued
    case Finish(i, c) => i < |s.jobs| && Answers(s.jobs[i], c)
    case Apply(_) => s.queue != []
    case Read(_, _, _, _, _) => true
    case Evict(_) => true
  }

  function Do(s: State, step: Step): State
    requires Enabled(s, step)
  {
    match step
    case Request(x, resolved) => Requested(s, x, resolved)
    case RequestDocument(x) => DocumentRequested(s, x)
    case Finish(i, c) => Finished(s, i, c)
    case Apply(evicted) => AppliedNext(s, evicted)
    case Read(src, target, wanted, restored, evicted) => ReadAt(s, src, target, wanted, restored, evicted)
    case Evict(evicted) => s.(resident := s.resident - evicted)
  }

  ghost predicate Next(s: State, t: State) {
    exists step :: Enabled(s, step) && t == Do(s, step)
  }

  ghost predicate Linked(run: seq<State>, i: nat)
    requires 0 < i < |run|
  {
    Next(run[i - 1], run[i])
  }

  ghost predicate IsRun(run: seq<State>) {
    && run != []
    && run[0] == INITIAL
    && forall i {:trigger Linked(run, i)} :: 0 < i < |run| ==> Linked(run, i)
  }

  // ------------------------------------------------------ work outstanding

  datatype Key = LoadOf(source: nat) | ParseOf(source: nat) | RefineOf(source: nat)

  function JobKey(job: Job): Key {
    match job
    case LoadJob(src) => LoadOf(src)
    case ParseJob(src) => ParseOf(src)
    case RefineJob(src, _) => RefineOf(src)
  }

  function DoneKey(c: Completion): Key {
    match c
    case RequestedDocument(src, _) => ParseOf(src)
    case Refined(src, _, _) => RefineOf(src)
    case RefineFailed(src) => RefineOf(src)
    case _ => LoadOf(c.source)
  }

  function JobKeys(jobs: seq<Job>): multiset<Key> {
    if jobs == [] then multiset{} else JobKeys(jobs[..|jobs| - 1]) + multiset{JobKey(jobs[|jobs| - 1])}
  }

  function DoneKeys(queue: seq<Completion>): multiset<Key> {
    if queue == [] then multiset{} else DoneKeys(queue[..|queue| - 1]) + multiset{DoneKey(queue[|queue| - 1])}
  }

  /** Every job whose completion has not been applied. */
  function Outstanding(s: State): multiset<Key> {
    JobKeys(s.jobs) + DoneKeys(s.queue)
  }

  lemma Regroup<T>(a: multiset<T>, b: multiset<T>, c: multiset<T>)
    ensures a + b + c == a + c + b && a + b + c == a + (b + c)
  {
  }

  lemma JobKeysSnoc(jobs: seq<Job>, job: Job)
    ensures JobKeys(jobs + [job]) == JobKeys(jobs) + multiset{JobKey(job)}
  {
    assert (jobs + [job])[..|jobs|] == jobs;
  }

  lemma DoneKeysSnoc(queue: seq<Completion>, c: Completion)
    ensures DoneKeys(queue + [c]) == DoneKeys(queue) + multiset{DoneKey(c)}
  {
    assert (queue + [c])[..|queue|] == queue;
  }

  lemma {:induction false} JobKeysRemove(jobs: seq<Job>, i: nat)
    requires i < |jobs|
    ensures JobKeys(jobs) == JobKeys(jobs[..i] + jobs[i + 1..]) + multiset{JobKey(jobs[i])}
    decreases |jobs|
  {
    var last := |jobs| - 1;
    if i == last {
      assert jobs[..i] + jobs[i + 1..] == jobs[..last];
    } else {
      JobKeysRemove(jobs[..last], i);
      assert jobs[..i] + jobs[i + 1..] == (jobs[..last][..i] + jobs[..last][i + 1..]) + [jobs[last]];
      JobKeysSnoc(jobs[..last][..i] + jobs[..last][i + 1..], jobs[last]);
    }
  }

  lemma {:induction false} DoneKeysHead(queue: seq<Completion>)
    requires queue != []
    ensures DoneKeys(queue) == DoneKeys(queue[1..]) + multiset{DoneKey(queue[0])}
    decreases |queue|
  {
    var last := |queue| - 1;
    if last == 0 {
      assert queue[..0] == [] && queue[1..] == [];
    } else {
      var init, middle := queue[..last], queue[1..last];
      DoneKeysHead(init);
      assert init[1..] == middle && init[0] == queue[0];
      assert queue[1..] == middle + [queue[last]];
      DoneKeysSnoc(middle, queue[last]);
      Regroup(DoneKeys(middle), multiset{DoneKey(queue[0])}, multiset{DoneKey(queue[last])});
    }
  }

  // ----------------------------------------------------- requests counted

  function CountFor(requested: seq<Ticket>, src: nat): nat {
    if requested == [] then 0
    else CountFor(requested[..|requested| - 1], src) + (if requested[|requested| - 1].source == src then 1 else 0)
  }

  lemma CountForSnoc(requested: seq<Ticket>, x: Ticket, src: nat)
    ensures CountFor(requested + [x], src) == CountFor(requested, src) + (if x.source == src then 1 else 0)
  {
    assert (requested + [x])[..|requested|] == requested;
  }

  lemma {:induction false} CountForUpdate(requested: seq<Ticket>, i: nat, x: Ticket, src: nat)
    requires i < |requested|
    ensures CountFor(requested[i := x], src) + (if requested[i].source == src then 1 else 0)
         == CountFor(requested, src) + (if x.source == src then 1 else 0)
    decreases |requested|
  {
    var last := |requested| - 1;
    if i == last {
      assert requested[i := x][..last] == requested[..last];
    } else {
      assert requested[i := x][..last] == requested[..last][i := x];
      CountForUpdate(requested[..last], i, x, src);
    }
  }

  lemma SwapRemovedCounts(requested: seq<Ticket>, i: nat, src: nat)
    requires i < |requested|
    ensures CountFor(requested, src)
         == CountFor(SwapRemoved(requested, i), src) + (if requested[i].source == src then 1 else 0)
  {
    var last := |requested| - 1;
    if i < last {
      CountForUpdate(requested[..last], i, requested[last], src);
    }
  }

  lemma SwapRemovedKeepsOthers(requested: seq<Ticket>, i: nat)
    requires i < |requested|
    ensures multiset(requested) == multiset(SwapRemoved(requested, i)) + multiset{requested[i]}
  {
    var last := |requested| - 1;
    assert requested == requested[..last] + [requested[last]];
    assert multiset(requested) == multiset(requested[..last]) + multiset{requested[last]};
    if i < last {
      assert multiset(requested[..last][i := requested[last]])
          == multiset(requested[..last]) - multiset{requested[i]} + multiset{requested[last]};
    }
  }

  /** The list holds a request for `src` exactly when the search finds one. */
  lemma {:induction false} FoundWhenCounted(requested: seq<Ticket>, src: nat)
    ensures CountFor(requested, src) > 0 <==> FirstFor(requested, src) < |requested|
    decreases |requested|
  {
    if requested == [] {
    } else {
      var last := |requested| - 1;
      FoundWhenCounted(requested[..last], src);
      assert requested[..last][..] == requested[..last];
      FirstForSnoc(requested[..last], requested[last], src);
      assert requested[..last] + [requested[last]] == requested;
    }
  }

  lemma {:induction false} FirstForSnoc(requested: seq<Ticket>, x: Ticket, src: nat)
    ensures FirstFor(requested + [x], src) ==
            if FirstFor(requested, src) < |requested| then FirstFor(requested, src)
            else if x.source == src then |requested|
            else |requested| + 1
    decreases |requested|
  {
    if requested == [] {
    } else {
      assert (requested + [x])[1..] == requested[1..] + [x];
      FirstForSnoc(requested[1..], x, src);
    }
  }

  function Recipients(reports: seq<Report>): multiset<Ticket> {
    if reports == [] then multiset{} else Recipients(reports[..|reports| - 1]) + multiset{reports[|reports| - 1].to}
  }

  lemma RecipientsSnoc(reports: seq<Report>, r: Report)
    ensures Recipients(reports + [r]) == Recipients(reports) + multiset{r.to}
  {
    assert (reports + [r])[..|reports|] == reports;
  }

  lemma FirstAndRest(waiters: seq<Ticket>)
    requires waiters != []
    ensures multiset(waiters) == multiset{waiters[0]} + multiset(waiters[1..])
  {
    assert waiters == [waiters[0]] + waiters[1..];
  }

  lemma TellOneMore(reports: seq<Report>, waiters: seq<Ticket>, news: News)
    requires waiters != []
    ensures reports + TellAll(waiters, news) == (reports + [Report(waiters[0], news)]) + TellAll(waiters[1..], news)
  {
  }

  lemma {:induction false} TellAllReaches(reports: seq<Report>, waiters: seq<Ticket>, news: News)
    ensures Recipients(reports + TellAll(waiters, news)) == Recipients(reports) + multiset(waiters)
    decreases |waiters|
  {
    if waiters == [] {
      assert reports + TellAll(waiters, news) == reports;
    } else {
      var first, rest := Report(waiters[0], news), waiters[1..];
      TellAllReaches(reports + [first], rest, news);
      RecipientsSnoc(reports, first);
      TellOneMore(reports, waiters, news);
      FirstAndRest(waiters);
      Regroup(Recipients(reports), multiset{waiters[0]}, multiset(rest));
    }
  }

  lemma {:induction false} TellAllTells(waiters: seq<Ticket>, news: News)
    ensures |TellAll(waiters, news)| == |waiters|
    ensures forall i :: 0 <= i < |waiters| ==> TellAll(waiters, news)[i] == Report(waiters[i], news)
    decreases |waiters|
  {
    if waiters == [] {
    } else {
      TellAllTells(waiters[1..], news);
    }
  }

  // ------------------------------------------------------- the invariants

  function RefiningAt(s: State, src: nat): Option<Size> {
    if IsBitmap(s, src) then s.entries[src].refining else None
  }

  /** One source's work: a load is out exactly while its entry is loading, a
      refinement exactly while its entry says so, and a parse for each of its
      document requests still listed. */
  predicate WorkFits(entry: Option<Entry>, requests: nat, loads: nat, parses: nat, refinements: nat) {
    && loads == (if entry.Some? && entry.value.Loading? then 1 else 0)
    && refinements == (if entry.Some? && entry.value.Bitmap? && entry.value.refining.Some? then 1 else 0)
    && parses == requests
  }

  predicate SourceOk(s: State, src: nat) {
    WorkFits(EntryOf(s, src), CountFor(s.requested, src),
             Outstanding(s)[LoadOf(src)], Outstanding(s)[ParseOf(src)], Outstanding(s)[RefineOf(src)])
  }

  ghost predicate WorkOk(s: State) {
    forall src: nat :: SourceOk(s, src)
  }

  /** A refinement in flight is at the size its entry remembers. */
  ghost predicate TargetsOk(s: State) {
    && (forall i :: 0 <= i < |s.jobs| && s.jobs[i].RefineJob? ==> RefiningAt(s, s.jobs[i].source) == Some(s.jobs[i].target))
    && (forall i :: 0 <= i < |s.queue| && s.queue[i].Refined? ==> RefiningAt(s, s.queue[i].source) == Some(s.queue[i].target))
  }

  /** Only a bitmap that was loaded is ever resident. */
  ghost predicate ResidentOk(s: State) {
    forall src :: src in s.resident ==> IsBitmap(s, src)
  }

  function WaitersOf(s: State, src: nat): seq<Ticket> {
    if IsLoading(s, src) then s.entries[src].waiters else []
  }

  /** How many times request `x` is still waiting. */
  function Waits(s: State, x: Ticket): nat {
    if x.kind == Image then multiset(WaitersOf(s, x.source))[x] else multiset(s.requested)[x]
  }

  predicate TicketOk(s: State, x: Ticket) {
    Waits(s, x) + Recipients(s.reports)[x] == if x in s.issued then 1 else 0
  }

  predicate WaitersFit(waiters: seq<Ticket>, src: nat) {
    forall i :: 0 <= i < |waiters| ==> waiters[i].source == src && waiters[i].kind == Image
  }

  /** Every request made waits in its one place or was reported once. */
  ghost predicate TicketsOk(s: State) {
    && (forall x: Ticket :: TicketOk(s, x))
    && (forall src: nat :: WaitersFit(WaitersOf(s, src), src))
    && (forall i :: 0 <= i < |s.requested| ==> s.requested[i].kind == Document)
  }

  /** What a view was told still holds. */
  predicate NewsFits(s: State, r: Report) {
    match r.news
    case Loaded(size) => r.to.kind == Image && IsBitmap(s, r.to.source) && s.entries[r.to.source].intrinsic == size
    case Failed => r.to.kind == Image ==> EntryOf(s, r.to.source) == Some(FailedEntry)
    case Parsed(_) => true
  }

  ghost predicate NewsOk(s: State) {
    forall i :: 0 <= i < |s.reports| ==> NewsFits(s, s.reports[i])
  }

  ghost predicate Inv(s: State) {
    WorkOk(s) && TargetsOk(s) && ResidentOk(s) && TicketsOk(s) && NewsOk(s)
  }

  /** Loaded stays loaded at its size, failed stays failed, nothing known is
      forgotten, and no report is taken back. */
  ghost predicate Advances(s: State, t: State) {
    && (forall src :: src in s.entries ==> src in t.entries)
    && (forall src :: IsBitmap(s, src) ==> IsBitmap(t, src) && t.entries[src].intrinsic == s.entries[src].intrinsic)
    && (forall src :: EntryOf(s, src) == Some(FailedEntry) ==> EntryOf(t, src) == Some(FailedEntry))
    && s.reports <= t.reports
  }

  // ----------------------------------------------------------- the steps

  /** A step that changes one source's entry and work keeps every other's. */
  lemma WorkMoves(s: State, t: State, src: nat)
    requires WorkOk(s) && SourceOk(t, src)
    requires t.requested == s.requested
    requires src in t.entries && t.entries == s.entries[src := t.entries[src]]
    requires forall k: Key :: k.source != src ==> Outstanding(t)[k] == Outstanding(s)[k]
    ensures WorkOk(t)
  {
    forall other: nat ensures SourceOk(t, other) {
      assert SourceOk(s, other);
    }
  }

  lemma SumsAgree(a: multiset<Ticket>, b: multiset<Ticket>, c: multiset<Ticket>, d: multiset<Ticket>, x: Ticket)
    requires a + b == c + d
    ensures a[x] + b[x] == c[x] + d[x]
  {
    assert (a + b)[x] == (c + d)[x];
  }

  lemma NoStranger(waiters: seq<Ticket>, src: nat, x: Ticket)
    requires WaitersFit(waiters, src) && (x.source != src || x.kind != Image)
    ensures multiset(waiters)[x] == 0
  {
    assert x !in waiters;
  }

  lemma AskedOnce(asked: seq<Ticket>, x: Ticket)
    requires |asked| <= 1
    ensures multiset(asked)[x] == if x in asked then 1 else 0
  {
  }

  lemma TicketOfTheSource(s: State, t: State, asked: seq<Ticket>, told: seq<Ticket>, x: Ticket)
    requires TicketOk(s, x) && x.kind == Image && |asked| <= 1 && (x in asked ==> x !in s.issued)
    requires x in t.issued <==> x in s.issued || x in asked
    requires Recipients(t.reports) == Recipients(s.reports) + multiset(told)
    requires multiset(WaitersOf(t, x.source)) + multiset(told) == multiset(WaitersOf(s, x.source)) + multiset(asked)
    ensures TicketOk(t, x)
  {
    AskedOnce(asked, x);
    SumsAgree(multiset(WaitersOf(t, x.source)), multiset(told), multiset(WaitersOf(s, x.source)), multiset(asked), x);
  }

  lemma TicketElsewhere(s: State, t: State, src: nat, told: seq<Ticket>, x: Ticket)
    requires TicketOk(s, x) && (x.source != src || x.kind != Image)
    requires t.requested == s.requested && src in t.entries && t.entries == s.entries[src := t.entries[src]]
    requires x in t.issued <==> x in s.issued
    requires WaitersFit(told, src) && Recipients(t.reports) == Recipients(s.reports) + multiset(told)
    ensures TicketOk(t, x)
  {
    NoStranger(told, src, x);
    assert x.kind == Image ==> WaitersOf(t, x.source) == WaitersOf(s, x.source);
  }

  /** Requests of one source may move between its waiters and the reports. */
  lemma TicketsMove(s: State, t: State, src: nat, asked: seq<Ticket>, told: seq<Ticket>)
    requires TicketsOk(s)
    requires t.requested == s.requested
    requires src in t.entries && t.entries == s.entries[src := t.entries[src]]
    requires WaitersFit(asked, src) && WaitersFit(told, src) && WaitersFit(WaitersOf(t, src), src)
    requires |asked| <= 1 && forall x :: x in asked ==> x !in s.issued
    requires t.issued == s.issued + set x | x in asked
    requires Recipients(t.reports) == Recipients(s.reports) + multiset(told)
    requires multiset(WaitersOf(t, src)) + multiset(told) == multiset(WaitersOf(s, src)) + multiset(asked)
    ensures TicketsOk(t)
  {
    forall x: Ticket ensures TicketOk(t, x) {
      assert TicketOk(s, x);
      if x.source == src && x.kind == Image {
        TicketOfTheSource(s, t, asked, told, x);
      } else {
        assert x !in asked;
        TicketElsewhere(s, t, src, told, x);
      }
    }
    WaitersMove(s, t, src);
  }

  lemma WaitersMove(s: State, t: State, src: nat)
    requires forall other: nat :: WaitersFit(WaitersOf(s, other), other)
    requires src in t.entries && t.entries == s.entries[src := t.entries[src]]
    requires WaitersFit(WaitersOf(t, src), src)
    ensures forall other: nat :: WaitersFit(WaitersOf(t, other), other)
  {
    forall other: nat ensures WaitersFit(WaitersOf(t, other), other) {
      assert WaitersFit(WaitersOf(s, other), other);
    }
  }

  lemma NewsMoves(s: State, t: State, src: nat, more: seq<Report>)
    requires NewsOk(s)
    requires src in t.entries && t.entries == s.entries[src := t.entries[src]]
    requires IsBitmap(s, src) ==> IsBitmap(t, src) && t.entries[src].intrinsic == s.entries[src].intrinsic
    requires EntryOf(s, src) == Some(FailedEntry) ==> t.entries[src] == FailedEntry
    requires t.reports == s.reports + more && forall r :: r in more ==> NewsFits(t, r)
    ensures NewsOk(t)
  {
    forall i | 0 <= i < |t.reports| ensures NewsFits(t, t.reports[i]) {
      if i < |s.reports| {
        assert NewsFits(s, s.reports[i]);
      } else {
        assert t.reports[i] in more;
      }
    }
  }

  /** An entry may change while no refinement of its source is out. */
  lemma TargetsMove(s: State, t: State, src: nat)
    requires TargetsOk(s) && RefiningAt(s, src).None?
    requires src in t.entries && t.entries == s.entries[src := t.entries[src]]
    requires forall i :: 0 <= i < |t.jobs| && t.jobs[i].RefineJob? ==> t.jobs[i] in s.jobs
    requires forall i :: 0 <= i < |t.queue| && t.queue[i].Refined? ==> t.queue[i] in s.queue
    ensures TargetsOk(t)
  {
  }

  /** A request for a source whose outcome is known is told at once. */
  lemma ToldAtOnceKeeps(s: State, x: Ticket, news: News)
    requires Inv(s) && x !in s.issued && x.kind == Image && x.source in s.entries && !IsLoading(s, x.source)
    requires NewsFits(s, Report(x, news))
    ensures Inv(s.(issued := s.issued + {x}, reports := s.reports + [Report(x, news)]))
  {
    var t := s.(issued := s.issued + {x}, reports := s.reports + [Report(x, news)]);
    assert t.entries == s.entries[x.source := t.entries[x.source]];
    RecipientsSnoc(s.reports, Report(x, news));
    assert SourceOk(s, x.source);
    WorkMoves(s, t, x.source);
    TicketsMove(s, t, x.source, [x], [x]);
    NewsMoves(s, t, x.source, [Report(x, news)]);
  }

  /** A request joins the load that is out. */
  function Joined(s: State, x: Ticket): State
    requires IsLoading(s, x.source)
  {
    s.(issued := s.issued + {x}, entries := s.entries[x.source := Loading(s.entries[x.source].waiters + [x])])
  }

  lemma JoinTickets(s: State, x: Ticket)
    requires TicketsOk(s) && x !in s.issued && x.kind == Image && IsLoading(s, x.source)
    ensures TicketsOk(Joined(s, x))
  {
    assert WaitersFit(WaitersOf(s, x.source), x.source);
    TicketsMove(s, Joined(s, x), x.source, [x], []);
  }

  lemma JoinKeeps(s: State, x: Ticket)
    requires Inv(s) && x !in s.issued && x.kind == Image && IsLoading(s, x.source)
    ensures Inv(Joined(s, x))
  {
    var t := Joined(s, x);
    assert SourceOk(s, x.source);
    JoinTickets(s, x);
    WorkMoves(s, t, x.source);
    NewsMoves(s, t, x.source, []);
    TargetsMove(s, t, x.source);
  }

  /** No entry of this source can settle anything: it was never asked for,
      or it held a document. */
  predicate StartsOver(s: State, src: nat) {
    EntryOf(s, src) == None || EntryOf(s, src) == Some(ParsedMarker)
  }

  lemma StartWork(s: State, t: State, src: nat, waiters: seq<Ticket>)
    requires WorkOk(s) && StartsOver(s, src)
    requires t.requested == s.requested && t.queue == s.queue
    requires t.entries == s.entries[src := Loading(waiters)] && t.jobs == s.jobs + [LoadJob(src)]
    ensures WorkOk(t)
  {
    JobKeysSnoc(s.jobs, LoadJob(src));
    assert SourceOk(s, src);
    WorkMoves(s, t, src);
  }

  lemma StartKeeps(s: State, x: Ticket)
    requires Inv(s) && x !in s.issued && x.kind == Image && StartsOver(s, x.source)
    ensures Inv(s.(issued := s.issued + {x}, entries := s.entries[x.source := Loading([x])],
                   jobs := s.jobs + [LoadJob(x.source)]))
  {
    var t := s.(issued := s.issued + {x}, entries := s.entries[x.source := Loading([x])],
                jobs := s.jobs + [LoadJob(x.source)]);
    StartWork(s, t, x.source, [x]);
    TicketsMove(s, t, x.source, [x], []);
    NewsMoves(s, t, x.source, []);
    TargetsMove(s, t, x.source);
  }

  /** A request that cannot be resolved fails its source at once. */
  function Unresolved(s: State, x: Ticket): State {
    s.(issued := s.issued + {x}, entries := s.entries[x.source := FailedEntry], reports := s.reports + [Report(x, Failed)])
  }

  lemma UnresolvedTickets(s: State, x: Ticket)
    requires TicketsOk(s) && x !in s.issued && x.kind == Image && StartsOver(s, x.source)
    ensures TicketsOk(Unresolved(s, x))
  {
    RecipientsSnoc(s.reports, Report(x, Failed));
    TicketsMove(s, Unresolved(s, x), x.source, [x], [x]);
  }

  lemma UnresolvedWork(s: State, x: Ticket)
    requires WorkOk(s) && StartsOver(s, x.source)
    ensures WorkOk(Unresolved(s, x))
  {
    assert SourceOk(s, x.source);
    WorkMoves(s, Unresolved(s, x), x.source);
  }

  lemma UnresolvedKeeps(s: State, x: Ticket)
    requires Inv(s) && x !in s.issued && x.kind == Image && StartsOver(s, x.source)
    ensures Inv(Unresolved(s, x))
  {
    var t := Unresolved(s, x);
    UnresolvedWork(s, x);
    UnresolvedTickets(s, x);
    NewsMoves(s, t, x.source, [Report(x, Failed)]);
    TargetsMove(s, t, x.source);
  }

  lemma RequestKeeps(s: State, x: Ticket, resolved: bool)
    requires Inv(s) && x.kind == Image && x !in s.issued
    ensures Inv(Requested(s, x, resolved))
  {
    match EntryOf(s, x.source)
    case Some(Bitmap(size, _)) => ToldAtOnceKeeps(s, x, Loaded(size));
    case Some(FailedEntry) => ToldAtOnceKeeps(s, x, Failed);
    case Some(Loading(_)) => JoinKeeps(s, x);
    case _ => StartKeeps(s, x); UnresolvedKeeps(s, x);
  }

  /** Where no entry changes, the waiters stay where they are. */
  lemma WaitersStay(s: State, t: State)
    requires t.entries == s.entries
    requires forall src: nat :: WaitersFit(WaitersOf(s, src), src)
    ensures forall src: nat :: WaitersFit(WaitersOf(t, src), src)
  {
    forall src: nat ensures WaitersFit(WaitersOf(t, src), src) {
      assert WaitersFit(WaitersOf(s, src), src);
    }
  }

  lemma DocumentRequestTickets(s: State, x: Ticket)
    requires TicketsOk(s) && x.kind == Document && x !in s.issued
    ensures TicketsOk(DocumentRequested(s, x))
  {
    var t := DocumentRequested(s, x);
    forall y: Ticket ensures TicketOk(t, y) {
      assert TicketOk(s, y);
    }
    WaitersStay(s, t);
  }

  lemma AndOneMore(running: multiset<Key>, done: multiset<Key>, key: Key, other: Key)
    ensures (running + multiset{key} + done)[other] == (running + done)[other] + if other == key then 1 else 0
  {
  }

  lemma DocumentRequestOwes(s: State, x: Ticket, key: Key)
    ensures Outstanding(DocumentRequested(s, x))[key] == Outstanding(s)[key] + if key == ParseOf(x.source) then 1 else 0
  {
    JobKeysSnoc(s.jobs, ParseJob(x.source));
    AndOneMore(JobKeys(s.jobs), DoneKeys(s.queue), ParseOf(x.source), key);
  }

  lemma DocumentRequestSource(s: State, x: Ticket, src: nat)
    requires SourceOk(s, src)
    ensures SourceOk(DocumentRequested(s, x), src)
  {
    DocumentRequestOwes(s, x, LoadOf(src));
    DocumentRequestOwes(s, x, ParseOf(src));
    DocumentRequestOwes(s, x, RefineOf(src));
    CountForSnoc(s.requested, x, src);
    assert EntryOf(DocumentRequested(s, x), src) == EntryOf(s, src);
  }

  lemma DocumentRequestWork(s: State, x: Ticket)
    requires WorkOk(s)
    ensures WorkOk(DocumentRequested(s, x))
  {
    forall src: nat ensures SourceOk(DocumentRequested(s, x), src) {
      DocumentRequestSource(s, x, src);
    }
  }

  lemma DocumentRequestKeeps(s: State, x: Ticket)
    requires Inv(s) && x.kind == Document && x !in s.issued
    ensures Inv(DocumentRequested(s, x))
  {
    DocumentRequestWork(s, x);
    DocumentRequestTickets(s, x);
  }

  /** Steps that touch neither entries, requests nor reports keep every
      request where it is. */
  lemma TicketsStay(s: State, t: State)
    requires TicketsOk(s)
    requires t.entries == s.entries && t.requested == s.requested && t.reports == s.reports && t.issued == s.issued
    ensures TicketsOk(t)
  {
    forall y: Ticket ensures TicketOk(t, y) {
      assert TicketOk(s, y);
    }
    WaitersStay(s, t);
  }

  lemma WorkStays(s: State, t: State)
    requires WorkOk(s)
    requires t.entries == s.entries && t.requested == s.requested && Outstanding(t) == Outstanding(s)
    ensures WorkOk(t)
  {
    forall src: nat ensures SourceOk(t, src) {
      assert SourceOk(s, src);
    }
  }

  lemma FinishTargets(s: State, i: nat, c: Completion)
    requires TargetsOk(s) && i < |s.jobs| && Answers(s.jobs[i], c)
    ensures TargetsOk(Finished(s, i, c))
  {
    var t := Finished(s, i, c);
    forall j | 0 <= j < |t.jobs| && t.jobs[j].RefineJob?
      ensures RefiningAt(t, t.jobs[j].source) == Some(t.jobs[j].target)
    {
      assert t.jobs[j] == s.jobs[if j < i then j else j + 1];
    }
  }

  /** A job that finishes only moves from the running to the completed. */
  lemma FinishKeeps(s: State, i: nat, c: Completion)
    requires Inv(s) && i < |s.jobs| && Answers(s.jobs[i], c)
    ensures Inv(Finished(s, i, c))
  {
    var t := Finished(s, i, c);
    FinishTargets(s, i, c);
    JobKeysRemove(s.jobs, i);
    DoneKeysSnoc(s.queue, c);
    assert Outstanding(t) == Outstanding(s);
    WorkStays(s, t);
    TicketsStay(s, t);
  }

  /** The completion at the head of the queue is always one its source is
      waiting for, so `apply` never throws an entry or a report away. */
  predicate Awaited(s: State, c: Completion) {
    match c
    case RequestedDocument(src, _) => FirstFor(s.requested, src) < |s.requested|
    case Refined(src, target, _) => RefiningAt(s, src) == Some(target)
    case RefineFailed(src) => RefiningAt(s, src).Some?
    case _ => IsLoading(s, c.source)
  }

  lemma NextIsAwaited(s: State)
    requires Inv(s) && s.queue != []
    ensures Awaited(s, s.queue[0])
  {
    var src := s.queue[0].source;
    DoneKeysHead(s.queue);
    assert SourceOk(s, src);
    assert DoneKey(s.queue[0]) in Outstanding(s);
    FoundWhenCounted(s.requested, src);
  }

  /** The queue without its head, and what is then outstanding. */
  function Popped(s: State): State
    requires s.queue != []
  {
    s.(queue := s.queue[1..])
  }

  lemma LoadApplyReports(s: State, c: Completion, evicted: set<nat>)
    requires TicketsOk(s) && NewsOk(s) && OfLoad(c) && IsLoading(s, c.source)
    ensures TicketsOk(LoadApplied(s, c, evicted)) && NewsOk(LoadApplied(s, c, evicted))
  {
    var t, waiters := LoadApplied(s, c, evicted), WaitersOf(s, c.source);
    assert WaitersFit(waiters, c.source);
    assert TicketsOk(t) by {
      TellAllReaches(s.reports, waiters, LoadNews(c));
      TicketsMove(s, t, c.source, [], waiters);
    }
    TellAllTells(waiters, LoadNews(c));
    NewsMoves(s, t, c.source, TellAll(waiters, LoadNews(c)));
  }

  ghost predicate OneFewer(before: multiset<Key>, after: multiset<Key>, key: Key) {
    after[key] + 1 == before[key] && forall k: Key :: k != key ==> after[k] == before[k]
  }

  lemma TakeOne(running: multiset<Key>, done: multiset<Key>, key: Key)
    ensures OneFewer(running + (done + multiset{key}), running + done, key)
  {
  }

  lemma LoadApplyLeaves(s: State, evicted: set<nat>)
    requires s.queue != [] && OfLoad(s.queue[0]) && IsLoading(s, s.queue[0].source)
    ensures var src, t := s.queue[0].source, AppliedNext(s, evicted);
            && t.entries == s.entries[src := LoadedEntry(s.queue[0])]
            && t.requested == s.requested
            && OneFewer(Outstanding(s), Outstanding(t), LoadOf(src))
  {
    DoneKeysHead(s.queue);
    TakeOne(JobKeys(s.jobs), DoneKeys(s.queue[1..]), LoadOf(s.queue[0].source));
  }

  lemma LoadApplyWork(s: State, evicted: set<nat>)
    requires WorkOk(s) && s.queue != [] && OfLoad(s.queue[0]) && IsLoading(s, s.queue[0].source)
    ensures WorkOk(AppliedNext(s, evicted))
  {
    LoadApplyLeaves(s, evicted);
    assert SourceOk(s, s.queue[0].source);
    WorkMoves(s, AppliedNext(s, evicted), s.queue[0].source);
  }

  lemma LoadApplyKeeps(s: State, evicted: set<nat>)
    requires Inv(s) && s.queue != [] && OfLoad(s.queue[0])
    ensures Inv(AppliedNext(s, evicted))
  {
    var c, t := s.queue[0], AppliedNext(s, evicted);
    NextIsAwaited(s);
    LoadApplyWork(s, evicted);
    TicketsStay(s, Popped(s));
    LoadApplyReports(Popped(s), c, evicted);
    assert forall i :: 0 <= i < |t.queue| ==> t.queue[i] == s.queue[i + 1];
    TargetsMove(s, t, c.source);
  }

  lemma DocumentApplyLeaves(s: State, evicted: set<nat>)
    requires s.queue != [] && s.queue[0].RequestedDocument?
    ensures AppliedNext(s, evicted).jobs == s.jobs && AppliedNext(s, evicted).queue == s.queue[1..]
  {
  }

  /** What is outstanding once the head of the queue is gone. */
  lemma HeadGone(s: State, t: State)
    requires s.queue != [] && t.jobs == s.jobs && t.queue == s.queue[1..]
    ensures OneFewer(Outstanding(s), Outstanding(t), DoneKey(s.queue[0]))
  {
    DoneKeysHead(s.queue);
    TakeOne(JobKeys(s.jobs), DoneKeys(s.queue[1..]), DoneKey(s.queue[0]));
  }

  lemma DocumentApplySource(s: State, evicted: set<nat>, src: nat)
    requires s.queue != [] && s.queue[0].RequestedDocument? && FirstFor(s.requested, s.queue[0].source) < |s.requested|
    requires SourceOk(s, src)
    ensures SourceOk(AppliedNext(s, evicted), src)
  {
    DocumentApplyLeaves(s, evicted);
    HeadGone(s, AppliedNext(s, evicted));
    SwapRemovedCounts(s.requested, FirstFor(s.requested, s.queue[0].source), src);
  }

  lemma DocumentApplyWork(s: State, evicted: set<nat>)
    requires Inv(s) && s.queue != [] && s.queue[0].RequestedDocument?
    ensures WorkOk(AppliedNext(s, evicted))
  {
    NextIsAwaited(s);
    forall src: nat ensures SourceOk(AppliedNext(s, evicted), src) {
      assert SourceOk(s, src);
      DocumentApplySource(s, evicted, src);
    }
  }

  lemma DocumentApplyTickets(s: State, src: nat, parsed: Option<nat>)
    requires TicketsOk(s) && FirstFor(s.requested, src) < |s.requested|
    ensures TicketsOk(DocumentApplied(s, src, parsed))
  {
    var t, i := DocumentApplied(s, src, parsed), FirstFor(s.requested, src);
    SwapRemovedKeepsOthers(s.requested, i);
    RecipientsSnoc(s.reports, Report(s.requested[i], DocumentNews(parsed)));
    forall x: Ticket ensures TicketOk(t, x) {
      assert TicketOk(s, x);
    }
    WaitersStay(s, t);
  }

  lemma DocumentApplyKeeps(s: State, evicted: set<nat>)
    requires Inv(s) && s.queue != [] && s.queue[0].RequestedDocument?
    ensures Inv(AppliedNext(s, evicted))
  {
    NextIsAwaited(s);
    DocumentApplyWork(s, evicted);
    TicketsStay(s, Popped(s));
    DocumentApplyTickets(Popped(s), s.queue[0].source, s.queue[0].parsed);
    assert forall i :: 0 <= i < |s.queue| - 1 ==> s.queue[1..][i] == s.queue[i + 1];
  }

  lemma {:induction false} DoneKeysHas(queue: seq<Completion>, i: nat)
    requires i < |queue|
    ensures DoneKey(queue[i]) in DoneKeys(queue)
    decreases |queue|
  {
    if i < |queue| - 1 {
      DoneKeysHas(queue[..|queue| - 1], i);
    }
  }

  /** Where no refinement of `src` is outstanding, none is anywhere. */
  lemma NoRefinementLeft(s: State, src: nat)
    requires RefineOf(src) !in Outstanding(s)
    ensures forall i :: 0 <= i < |s.jobs| && s.jobs[i].RefineJob? ==> s.jobs[i].source != src
    ensures forall i :: 0 <= i < |s.queue| && s.queue[i].Refined? ==> s.queue[i].source != src
  {
    forall i | 0 <= i < |s.jobs| ensures JobKey(s.jobs[i]) in Outstanding(s) {
      JobKeysRemove(s.jobs, i);
    }
    forall i | 0 <= i < |s.queue| ensures DoneKey(s.queue[i]) in Outstanding(s) {
      DoneKeysHas(s.queue, i);
    }
  }

  /** Turning one bitmap's refinement on or off leaves the reports alone. */
  lemma RefiningLeavesReports(s: State, t: State, src: nat, refining: Option<Size>)
    requires TicketsOk(s) && NewsOk(s) && IsBitmap(s, src)
    requires t.entries == s.entries[src := s.entries[src].(refining := refining)]
    requires t.requested == s.requested && t.reports == s.reports && t.issued == s.issued
    ensures TicketsOk(t) && NewsOk(t)
  {
    TicketsMove(s, t, src, [], []);
    NewsMoves(s, t, src, []);
  }

  lemma RefinementEndLeaves(s: State, evicted: set<nat>)
    requires s.queue != [] && (s.queue[0].Refined? || s.queue[0].RefineFailed?) && Awaited(s, s.queue[0])
    ensures var src, t := s.queue[0].source, AppliedNext(s, evicted);
            && t.entries == s.entries[src := s.entries[src].(refining := None)]
            && t.requested == s.requested && t.jobs == s.jobs && t.queue == s.queue[1..]
            && OneFewer(Outstanding(s), Outstanding(t), RefineOf(src))
  {
    DoneKeysHead(s.queue);
    TakeOne(JobKeys(s.jobs), DoneKeys(s.queue[1..]), RefineOf(s.queue[0].source));
  }

  lemma RefinementEndWork(s: State, evicted: set<nat>)
    requires WorkOk(s) && s.queue != [] && (s.queue[0].Refined? || s.queue[0].RefineFailed?) && Awaited(s, s.queue[0])
    ensures WorkOk(AppliedNext(s, evicted))
    ensures RefineOf(s.queue[0].source) !in Outstanding(AppliedNext(s, evicted))
  {
    RefinementEndLeaves(s, evicted);
    assert SourceOk(s, s.queue[0].source);
    WorkMoves(s, AppliedNext(s, evicted), s.queue[0].source);
  }

  lemma RefinementEndTargets(s: State, evicted: set<nat>)
    requires TargetsOk(s) && s.queue != [] && (s.queue[0].Refined? || s.queue[0].RefineFailed?) && Awaited(s, s.queue[0])
    requires RefineOf(s.queue[0].source) !in Outstanding(AppliedNext(s, evicted))
    ensures TargetsOk(AppliedNext(s, evicted))
  {
    var t := AppliedNext(s, evicted);
    NoRefinementLeft(t, s.queue[0].source);
    assert forall i :: 0 <= i < |t.queue| ==> t.queue[i] == s.queue[i + 1];
  }

  lemma RefinementEndKeeps(s: State, evicted: set<nat>)
    requires Inv(s) && s.queue != [] && (s.queue[0].Refined? || s.queue[0].RefineFailed?)
    ensures Inv(AppliedNext(s, evicted))
  {
    NextIsAwaited(s);
    RefinementEndWork(s, evicted);
    RefinementEndTargets(s, evicted);
    RefiningLeavesReports(s, AppliedNext(s, evicted), s.queue[0].source, None);
  }

  function RefinementStarted(s: State, src: nat, target: Size): State
    requires IsBitmap(s, src)
  {
    s.(entries := s.entries[src := s.entries[src].(refining := Some(target))], jobs := s.jobs + [RefineJob(src, target)])
  }

  lemma RefinementStartWork(s: State, src: nat, target: Size)
    requires WorkOk(s) && IsBitmap(s, src) && s.entries[src].refining.None?
    ensures WorkOk(RefinementStarted(s, src, target))
  {
    JobKeysSnoc(s.jobs, RefineJob(src, target));
    assert SourceOk(s, src);
    WorkMoves(s, RefinementStarted(s, src, target), src);
  }

  lemma RefinementStartTargets(s: State, src: nat, target: Size)
    requires WorkOk(s) && TargetsOk(s) && IsBitmap(s, src) && s.entries[src].refining.None?
    ensures TargetsOk(RefinementStarted(s, src, target))
  {
    assert SourceOk(s, src);
    NoRefinementLeft(s, src);
  }

  lemma RefinementStartKeeps(s: State, src: nat, target: Size)
    requires Inv(s) && IsBitmap(s, src) && s.entries[src].refining.None?
    ensures Inv(RefinementStarted(s, src, target))
  {
    RefinementStartWork(s, src, target);
    RefinementStartTargets(s, src, target);
    RefiningLeavesReports(s, RefinementStarted(s, src, target), src, Some(target));
  }

  lemma ResidentKeeps(s: State, resident: map<nat, Size>)
    requires Inv(s) && forall src :: src in resident ==> IsBitmap(s, src)
    ensures Inv(s.(resident := resident))
  {
    WorkStays(s, s.(resident := resident));
    TicketsStay(s, s.(resident := resident));
  }

  lemma ReadKeeps(s: State, src: nat, target: Size, wanted: bool, restored: Option<Size>, evicted: set<nat>)
    requires Inv(s)
    ensures Inv(ReadAt(s, src, target, wanted, restored, evicted))
  {
    if IsBitmap(s, src) {
      if src in s.resident {
        if s.entries[src].refining.None? {
          RefinementStartKeeps(s, src, target);
        }
      } else if restored.Some? {
        ResidentKeeps(s, (s.resident - evicted)[src := restored.value]);
      }
    }
  }

  lemma StepKeepsInv(s: State, step: Step)
    requires Inv(s) && Enabled(s, step)
    ensures Inv(Do(s, step))
  {
    match step
    case Request(x, resolved) => RequestKeeps(s, x, resolved);
    case RequestDocument(x) => DocumentRequestKeeps(s, x);
    case Finish(i, c) => FinishKeeps(s, i, c);
    case Apply(evicted) =>
      if OfLoad(s.queue[0]) {
        LoadApplyKeeps(s, evicted);
      } else if s.queue[0].RequestedDocument? {
        DocumentApplyKeeps(s, evicted);
      } else {
        RefinementEndKeeps(s, evicted);
      }
    case Read(src, target, wanted, restored, evicted) => ReadKeeps(s, src, target, wanted, restored, evicted);
    case Evict(evicted) => ResidentKeeps(s, s.resident - evicted);
  }

  lemma InitialIsFine()
    ensures Inv(INITIAL)
  {
  }

  lemma NextKeepsInv(s: State, t: State)
    requires Inv(s) && Next(s, t)
    ensures Inv(t)
  {
    var step :| Enabled(s, step) && t == Do(s, step);
    StepKeepsInv(s, step);
  }

  lemma {:induction false} RunsKeep(run: seq<State>, i: nat)
    requires IsRun(run) && i < |run|
    ensures Inv(run[i])
  {
    if i == 0 {
      InitialIsFine();
    } else {
      RunsKeep(run, i - 1);
      assert Linked(run, i);
      NextKeepsInv(run[i - 1], run[i]);
    }
  }

  lemma ApplyAdvances(s: State, evicted: set<nat>)
    requires Inv(s) && s.queue != []
    ensures Advances(s, AppliedNext(s, evicted))
  {
    NextIsAwaited(s);
  }

  lemma RequestAdvances(s: State, x: Ticket, resolved: bool)
    ensures Advances(s, Requested(s, x, resolved)) && Advances(s, DocumentRequested(s, x))
  {
  }

  lemma StepAdvances(s: State, step: Step)
    requires Inv(s) && Enabled(s, step)
    ensures Advances(s, Do(s, step))
  {
    match step
    case Apply(evicted) => ApplyAdvances(s, evicted);
    case Request(x, resolved) => RequestAdvances(s, x, resolved);
    case RequestDocument(x) => RequestAdvances(s, x, true);
    case _ =>
  }

  lemma NextAdvances(s: State, t: State)
    requires Inv(s) && Next(s, t)
    ensures Advances(s, t)
  {
    var step :| Enabled(s, step) && t == Do(s, step);
    StepAdvances(s, step);
  }

  lemma AdvancesFurther(s: State, t: State, u: State)
    requires Advances(s, t) && Advances(t, u)
    ensures Advances(s, u)
  {
    forall src | EntryOf(s, src) == Some(FailedEntry) ensures EntryOf(u, src) == Some(FailedEntry) {
      assert EntryOf(t, src) == Some(FailedEntry);
    }
  }

  // ------------------------------------------------------- main theorems

  /** A source is loading exactly while one load job is out for it, its
      refinement is noted exactly while one refinement job is out, at that
      size, and each of its document requests has a parse out. */
  lemma WorkMatchesEntries(run: seq<State>, i: nat, src: nat)
    requires IsRun(run) && i < |run|
    ensures IsLoading(run[i], src) <==> Outstanding(run[i])[LoadOf(src)] == 1
    ensures !IsLoading(run[i], src) <==> Outstanding(run[i])[LoadOf(src)] == 0
    ensures RefiningAt(run[i], src).Some? <==> Outstanding(run[i])[RefineOf(src)] == 1
    ensures RefiningAt(run[i], src).None? <==> Outstanding(run[i])[RefineOf(src)] == 0
    ensures CountFor(run[i].requested, src) == Outstanding(run[i])[ParseOf(src)]
    ensures forall j :: 0 <= j < |run[i].jobs| && run[i].jobs[j].RefineJob? ==>
              RefiningAt(run[i], run[i].jobs[j].source) == Some(run[i].jobs[j].target)
  {
    RunsKeep(run, i);
    assert SourceOk(run[i], src);
  }

  /** No completion is ever applied against the wrong entry: the arms that
      would throw an entry or a request away are never taken. */
  lemma EveryCompletionIsAwaited(run: seq<State>, i: nat)
    requires IsRun(run) && i < |run| && run[i].queue != []
    ensures Awaited(run[i], run[i].queue[0])
  {
    RunsKeep(run, i);
    NextIsAwaited(run[i]);
  }

  /** Every request is waiting in its one place or was reported once, never
      both, and nobody else is ever reported to. */
  lemma ReportsAreConserved(run: seq<State>, i: nat, x: Ticket)
    requires IsRun(run) && i < |run|
    ensures Waits(run[i], x) + Recipients(run[i].reports)[x] == if x in run[i].issued then 1 else 0
  {
    RunsKeep(run, i);
    assert TicketOk(run[i], x);
  }

  lemma NothingAwaited(s: State, src: nat)
    requires Inv(s)
    ensures LoadOf(src) !in Outstanding(s) ==> WaitersOf(s, src) == []
    ensures ParseOf(src) !in Outstanding(s) ==> forall i :: 0 <= i < |s.requested| ==> s.requested[i].source != src
  {
    assert SourceOk(s, src);
    FoundWhenCounted(s.requested, src);
  }

  /** Once no load of its source is out, an image request has had its one
      report, and a document request once no parse is: no view is left waiting
      on a job that ended. */
  lemma QuietSourceHasAnswered(run: seq<State>, i: nat, x: Ticket)
    requires IsRun(run) && i < |run| && x in run[i].issued
    requires (if x.kind == Image then LoadOf(x.source) else ParseOf(x.source)) !in Outstanding(run[i])
    ensures Recipients(run[i].reports)[x] == 1
  {
    RunsKeep(run, i);
    NothingAwaited(run[i], x.source);
    assert TicketOk(run[i], x);
    assert x.kind == Document ==> x !in run[i].requested;
  }

  /** Loaded and failed are final, known sources stay known, and reports are
      never taken back; only a parsed document starts over. */
  lemma {:induction false} OutcomesAreFinal(run: seq<State>, i: nat, j: nat)
    requires IsRun(run) && i <= j < |run|
    ensures Advances(run[i], run[j])
    decreases j
  {
    if i == j {
    } else {
      OutcomesAreFinal(run, i, j - 1);
      RunsKeep(run, j - 1);
      assert Linked(run, j);
      NextAdvances(run[j - 1], run[j]);
      AdvancesFurther(run[i], run[j - 1], run[j]);
    }
  }

  /** Every view told that a source loaded was told the same size, the one
      its entry keeps, and none of them is told later that it failed. */
  lemma ViewsAgree(run: seq<State>, i: nat, a: nat, b: nat)
    requires IsRun(run) && i < |run| && a < |run[i].reports| && b < |run[i].reports|
    requires run[i].reports[a].to.source == run[i].reports[b].to.source
    requires run[i].reports[a].news.Loaded? && run[i].reports[b].to.kind == Image
    ensures run[i].reports[b].news.Loaded? ==> run[i].reports[b].news == run[i].reports[a].news
    ensures !run[i].reports[b].news.Failed?
  {
    RunsKeep(run, i);
    assert NewsFits(run[i], run[i].reports[a]) && NewsFits(run[i], run[i].reports[b]);
  }

  /** Documents never enter the memory tier, and no refinement or restore
      starts for one. */
  lemma DocumentsStayOut(run: seq<State>, i: nat, src: nat, target: Size, wanted: bool, restored: Option<Size>, evicted: set<nat>)
    requires IsRun(run) && i < |run| && EntryOf(run[i], src) == Some(ParsedMarker)
    ensures src !in run[i].resident && RefineOf(src) !in Outstanding(run[i])
    ensures ReadAt(run[i], src, target, wanted, restored, evicted) == run[i]
  {
    RunsKeep(run, i);
    assert SourceOk(run[i], src);
  }

  /** A bitmap decoded for the size it is drawn at is left alone exactly when
      the configured ratio is above one: at one, which the configuration
      allows, every read asks for it again. */
  lemma RefinementSettles(target: Size, intrinsic: Size, ratio: real)
    requires target.width >= 1 && target.height >= 1
    ensures !WantsRefinement(target, target, intrinsic, ratio) <==> ratio > 1.0
  {
    var w, h := target.width as real, target.height as real;
    if ratio > 1.0 {
      assert w * ratio > w * 1.0;
    } else {
      assert w * ratio <= w * 1.0 && h * ratio <= h * 1.0;
    }
  }
}
