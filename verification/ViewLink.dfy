/**
  One view's link as a protocol: the embedder's thread counts the commands it
  sends and posts frames fenced by that count; the view's task applies bursts
  of commands, adopts posts at a marker, and acknowledges a frame post only
  once the commands it is fenced behind have run.
 */
module ViewLink {
  import opened Options
  import opened ScrollMailbox

  /** A message of the command FIFO; `Uncounted` is a native module's answer,
      the one message sent outside the counting sender. */
  datatype Message = Counted(command: nat) | Marker | Uncounted(call: nat)

  /** The part of `messages` the sender and the page count. */
  function CountedOf(messages: seq<Message>): seq<Message> {
    if messages == [] then []
    else
      var last := messages[|messages| - 1];
      CountedOf(messages[..|messages| - 1]) + if last.Uncounted? then [] else [last]
  }

  function Markers(messages: seq<Message>): nat {
    if messages == [] then 0
    else Markers(messages[..|messages| - 1]) + if messages[|messages| - 1].Marker? then 1 else 0
  }

  /** A burst being applied: what is left of it and how many it counted. */
  datatype Burst = Burst(rest: seq<Message>, count: nat)

  datatype Link = Link(
    // The embedder's thread.
    sent: seq<Message>, posts: seq<FramePost>, owed: bool,
    // What crosses.
    mail: Mail, queue: seq<Message>,
    // The view's task; `log` is what it has run, in order.
    log: seq<Message>, burst: Option<Burst>, applied: nat,
    frameDue: Option<FramePost>, pending: Option<nat>, serviced: nat, ended: bool)

  const OPEN := Link([], [], false, NO_MAIL, [], [], None, 0, None, None, 0, false)

  datatype Step =
    | Send(command: nat)
    | Publish(entries: seq<(Node, ScrollEntry)>, frame: Option<int>)
    | SendMarker
    | Answer(call: nat)
    | ReadBurst(n: nat)
    | RunOne
    | FinishBurst
    | Acknowledge
    | End

  ghost predicate Enabled(l: Link, step: Step) {
    match step
    case Send(_) => !l.owed
    case Publish(entries, frame) => !l.owed && (entries != [] || frame.Some?)
    case SendMarker => l.owed
    case Answer(_) => true
    case ReadBurst(n) => l.burst.None? && 1 <= n <= |l.queue|
    case RunOne => l.burst.Some? && l.burst.value.rest != [] && !l.ended
    case FinishBurst => l.burst.Some? && (l.burst.value.rest == [] || l.ended)
    case Acknowledge => l.pending.Some?
    case End => !l.ended
  }

  /** A frame request at the sender's count, numbered by the painter. */
  function Requested(l: Link, frame: Option<int>): Option<FramePost> {
    if frame.None? then None else Some(FramePost(frame.value, |l.posts| + 1, |l.sent|))
  }

  function OrZero(n: Option<nat>): nat {
    if n.Some? then n.value else 0
  }

  /** A message joins the FIFO. */
  function Joined(l: Link, m: Message): Link {
    var queued := l.(queue := l.queue + [m]);
    if m.Uncounted? then queued else queued.(sent := l.sent + [m], owed := l.owed && !m.Marker?)
  }

  function Published(l: Link, entries: seq<(Node, ScrollEntry)>, frame: Option<int>): Link {
    var post := Requested(l, frame);
    l.(mail := Posted(l.mail, entries, post), owed := !l.mail.armed,
       posts := l.posts + if post.Some? then [post.value] else [])
  }

  /** A burst leaves the FIFO. */
  function Read(l: Link, n: nat): Link
    requires n <= |l.queue|
  {
    l.(queue := l.queue[n..], burst := Some(Burst(l.queue[..n], |CountedOf(l.queue[..n])|)))
  }

  /** A message of the burst runs. */
  function Ran(l: Link): Link
    requires l.burst.Some? && l.burst.value.rest != []
  {
    var b := l.burst.value;
    var ran := l.(log := l.log + [b.rest[0]], burst := Some(b.(rest := b.rest[1..])));
    if b.rest[0].Marker? then ran.(mail := NO_MAIL, frameDue := WithFrame(l.frameDue, l.mail.frame)) else ran
  }

  function Finished(l: Link): Link
    requires l.burst.Some?
  {
    var applied := l.applied + l.burst.value.count;
    var finished := l.(burst := None, applied := applied);
    if l.frameDue.Some? && l.frameDue.value.fence <= applied && !l.ended
    then finished.(frameDue := None, pending := Some(Max(l.frameDue.value.seqno, OrZero(l.pending))))
    else finished
  }

  function EndedNow(l: Link): Link {
    var due := if l.frameDue.Some? then l.frameDue.value.seqno else 0;
    l.(ended := true, frameDue := None, pending := None, serviced := Max(l.serviced, Max(OrZero(l.pending), due)))
  }

  ghost function Do(l: Link, step: Step): Link
    requires Enabled(l, step)
  {
    match step
    case Send(c) => Joined(l, Counted(c))
    case Publish(entries, frame) => Published(l, entries, frame)
    case SendMarker => Joined(l, Marker)
    case Answer(call) => Joined(l, Uncounted(call))
    case ReadBurst(n) => if l.ended then l.(queue := l.queue[n..]) else Read(l, n)
    case RunOne => Ran(l)
    case FinishBurst => Finished(l)
    case Acknowledge => l.(serviced := Max(l.serviced, l.pending.value), pending := None)
    case End => EndedNow(l)
  }

  ghost predicate Next(l: Link, l': Link) {
    exists step :: Enabled(l, step) && l' == Do(l, step)
  }

  ghost predicate Linked(run: seq<Link>, i: nat)
    requires 0 < i < |run|
  {
    Next(run[i - 1], run[i])
  }

  ghost predicate IsRun(run: seq<Link>) {
    && run != []
    && run[0] == OPEN
    && forall i {:trigger Linked(run, i)} :: 0 < i < |run| ==> Linked(run, i)
  }

  // ---------------------------------------------------------------------
  // The invariant.

  function Running(l: Link): seq<Message> {
    if l.burst.Some? then l.burst.value.rest else []
  }

  /** The newest post whose frame was applied. */
  function Done(l: Link): nat {
    if l.pending.Some? then l.pending.value else l.serviced
  }

  /** The newest post main has taken out of the mailbox. */
  function Taken(l: Link): nat {
    if l.frameDue.Some? then l.frameDue.value.seqno else Done(l)
  }

  /** The painter numbers its posts from one, and fences only rise. */
  ghost predicate PostsRise(l: Link) {
    && (forall i :: 0 <= i < |l.posts| ==> l.posts[i].seqno == i + 1 && l.posts[i].fence <= |l.sent|)
    && (forall i, j :: 0 <= i < j < |l.posts| ==> l.posts[i].fence <= l.posts[j].fence)
  }

  /** Nothing counted is lost, duplicated or reordered on its way. */
  ghost predicate Conserved(l: Link) {
    && l.sent == CountedOf(l.log) + (CountedOf(Running(l)) + CountedOf(l.queue))
    && l.applied + (if l.burst.Some? then l.burst.value.count else 0) == |CountedOf(l.log)| + |CountedOf(Running(l))|
  }

  /** A full mailbox is armed, and an armed one has exactly one marker under way. */
  ghost predicate OneMarker(l: Link) {
    && (l.mail.frame.Some? || l.mail.scrolled != map[] ==> l.mail.armed)
    && UnderWay(l) == (if l.mail.armed then 1 else 0)
  }

  /** The markers sent and not yet serviced, and the one its poster owes. */
  function UnderWay(l: Link): nat {
    (if l.owed then 1 else 0) + Markers(Running(l)) + Markers(l.queue)
  }

  ghost predicate IsPost(l: Link, post: FramePost) {
    1 <= post.seqno <= |l.posts| && post.fence == l.posts[post.seqno - 1].fence
  }

  /** Every post is applied, held for its fence, or in the mailbox. */
  ghost predicate PostsTracked(l: Link) {
    && l.serviced <= Done(l) <= Taken(l) <= |l.posts|
    && (l.frameDue.Some? ==> Done(l) < Taken(l) && IsPost(l, l.frameDue.value))
    && (if l.mail.frame.Some? then Taken(l) < |l.posts| == l.mail.frame.value.seqno && IsPost(l, l.mail.frame.value)
        else Taken(l) == |l.posts|)
  }

  /** What is applied was fenced behind commands that have run; what waits
      between two bursts is fenced behind one that has not. */
  ghost predicate FencesKept(l: Link) {
    && (0 < Done(l) <= |l.posts| ==> l.posts[Done(l) - 1].fence <= |CountedOf(l.log)|)
    && (l.burst.None? && l.frameDue.Some? ==> l.frameDue.value.fence > l.applied)
  }

  /** What holds of a link until its view ends. */
  ghost predicate Live(l: Link) {
    Conserved(l) && OneMarker(l) && PostsTracked(l) && FencesKept(l)
  }

  ghost predicate Invariant(l: Link) {
    PostsRise(l) && (!l.ended ==> Live(l))
  }

  lemma {:induction false} CountedConcat(a: seq<Message>, b: seq<Message>)
    ensures CountedOf(a + b) == CountedOf(a) + CountedOf(b)
  {
    if b == [] {
      assert a + b == a;
    } else {
      assert (a + b)[..|a + b| - 1] == a + b[..|b| - 1];
      CountedConcat(a, b[..|b| - 1]);
    }
  }

  lemma {:induction false} MarkersConcat(a: seq<Message>, b: seq<Message>)
    ensures Markers(a + b) == Markers(a) + Markers(b)
  {
    if b == [] {
      assert a + b == a;
    } else {
      assert (a + b)[..|a + b| - 1] == a + b[..|b| - 1];
      MarkersConcat(a, b[..|b| - 1]);
    }
  }

  lemma CountedSnoc(messages: seq<Message>, m: Message)
    ensures CountedOf(messages + [m]) == CountedOf(messages) + (if m.Uncounted? then [] else [m])
  {
    assert (messages + [m])[..|messages|] == messages;
  }

  lemma MarkersSnoc(messages: seq<Message>, m: Message)
    ensures Markers(messages + [m]) == Markers(messages) + (if m.Marker? then 1 else 0)
  {
    assert (messages + [m])[..|messages|] == messages;
  }

  lemma Cons(m: Message, messages: seq<Message>)
    ensures CountedOf([m] + messages) == (if m.Uncounted? then [] else [m]) + CountedOf(messages)
    ensures Markers([m] + messages) == (if m.Marker? then 1 else 0) + Markers(messages)
  {
    assert [] + [m] == [m];
    CountedSnoc([], m);
    MarkersSnoc([], m);
    CountedConcat([m], messages);
    MarkersConcat([m], messages);
  }

  lemma Regroup<T>(a: seq<T>, b: seq<T>, c: seq<T>, d: seq<T>)
    ensures (a + b) + (c + d) == a + ((b + c) + d) == a + (b + (c + d)) == (a + (b + c)) + d
  {
  }

  lemma PostsStayRising(l: Link, step: Step)
    requires PostsRise(l) && Enabled(l, step)
    ensures PostsRise(Do(l, step))
  {
    var after := Do(l, step);
    assert |l.sent| <= |after.sent|;
    if step.Publish? {
      assert after.posts == l.posts || (after.posts[..|l.posts|] == l.posts && after.posts[|l.posts|].fence == |l.sent|);
      assert forall i :: 0 <= i < |l.posts| ==> after.posts[i] == l.posts[i];
    } else {
      assert after.posts == l.posts;
    }
  }

  lemma JoinKeepsCount(l: Link, m: Message)
    requires Conserved(l)
    ensures Conserved(Joined(l, m))
  {
    CountedSnoc(l.queue, m);
    if m.Uncounted? {
      assert CountedOf(l.queue) + [] == CountedOf(l.queue);
    } else {
      Regroup(CountedOf(l.log), CountedOf(Running(l)), CountedOf(l.queue), [m]);
    }
  }

  /** A marker that joins the FIFO is the one that was owed. */
  lemma JoinMovesMarker(l: Link, m: Message)
    requires m.Marker? ==> l.owed
    ensures UnderWay(Joined(l, m)) == UnderWay(l)
  {
    var after := Joined(l, m);
    MarkersSnoc(l.queue, m);
    assert after.queue == l.queue + [m] && Running(after) == Running(l);
  }

  lemma JoinKeepsMarker(l: Link, m: Message)
    requires OneMarker(l) && (m.Marker? ==> l.owed)
    ensures OneMarker(Joined(l, m))
  {
    JoinMovesMarker(l, m);
  }

  lemma JoinKeepsFrames(l: Link, m: Message)
    requires PostsTracked(l) && FencesKept(l)
    ensures PostsTracked(Joined(l, m)) && FencesKept(Joined(l, m))
  {
  }

  lemma JoinKeeps(l: Link, m: Message)
    requires Live(l) && (m.Marker? ==> l.owed)
    ensures Live(Joined(l, m))
  {
    JoinKeepsCount(l, m);
    JoinKeepsMarker(l, m);
    JoinKeepsFrames(l, m);
  }

  lemma PublishTracksPosts(l: Link, entries: seq<(Node, ScrollEntry)>, frame: Option<int>)
    requires PostsTracked(l) && PostsRise(l)
    ensures PostsTracked(Published(l, entries, frame))
    ensures l.posts <= Published(l, entries, frame).posts
  {
  }

  lemma PublishKeepsMarker(l: Link, entries: seq<(Node, ScrollEntry)>, frame: Option<int>)
    requires OneMarker(l) && !l.owed
    ensures OneMarker(Published(l, entries, frame))
  {
  }

  lemma PublishKeeps(l: Link, entries: seq<(Node, ScrollEntry)>, frame: Option<int>)
    requires PostsRise(l) && Live(l) && !l.owed
    ensures Live(Published(l, entries, frame))
  {
    PublishTracksPosts(l, entries, frame);
    PublishKeepsMarker(l, entries, frame);
  }

  lemma ReadKeepsCount(l: Link, n: nat)
    requires Conserved(l) && l.burst.None? && n <= |l.queue|
    ensures Conserved(Read(l, n))
  {
    var read, left := l.queue[..n], l.queue[n..];
    assert l.queue == read + left;
    CountedConcat(read, left);
    assert CountedOf(Running(l)) == [];
    assert CountedOf(Running(l)) + CountedOf(l.queue) == CountedOf(l.queue);
  }

  lemma ReadKeepsMarker(l: Link, n: nat)
    requires OneMarker(l) && l.burst.None? && n <= |l.queue|
    ensures OneMarker(Read(l, n))
  {
    assert l.queue == l.queue[..n] + l.queue[n..];
    MarkersConcat(l.queue[..n], l.queue[n..]);
  }

  lemma ReadKeeps(l: Link, n: nat)
    requires Live(l) && l.burst.None? && n <= |l.queue|
    ensures Live(Read(l, n))
  {
    ReadKeepsCount(l, n);
    ReadKeepsMarker(l, n);
  }

  ghost predicate CanRun(l: Link) {
    l.burst.Some? && l.burst.value.rest != []
  }

  lemma RunSplits(l: Link)
    requires CanRun(l)
    ensures var rest := l.burst.value.rest;
            CountedOf(rest) == (if rest[0].Uncounted? then [] else [rest[0]]) + CountedOf(rest[1..])
            && Markers(rest) == (if rest[0].Marker? then 1 else 0) + Markers(rest[1..])
  {
    var rest := l.burst.value.rest;
    assert rest == [rest[0]] + rest[1..];
    Cons(rest[0], rest[1..]);
  }

  lemma RunKeepsCount(l: Link)
    requires Conserved(l) && CanRun(l)
    ensures Conserved(Ran(l)) && |CountedOf(l.log)| <= |CountedOf(Ran(l).log)|
  {
    var rest := l.burst.value.rest;
    RunSplits(l);
    CountedSnoc(l.log, rest[0]);
    Regroup(CountedOf(l.log), if rest[0].Uncounted? then [] else [rest[0]], CountedOf(rest[1..]), CountedOf(l.queue));
  }

  lemma RunTakesMarker(l: Link)
    requires OneMarker(l) && CanRun(l)
    ensures OneMarker(Ran(l))
  {
    RunSplits(l);
  }

  lemma RunTracksPosts(l: Link)
    requires PostsTracked(l) && PostsRise(l) && CanRun(l)
    ensures PostsTracked(Ran(l))
  {
  }

  lemma RunKeepsFences(l: Link)
    requires FencesKept(l) && CanRun(l) && |CountedOf(l.log)| <= |CountedOf(Ran(l).log)|
    ensures FencesKept(Ran(l))
  {
    assert Done(Ran(l)) == Done(l);
  }

  lemma RunKeeps(l: Link)
    requires PostsRise(l) && Live(l) && CanRun(l)
    ensures Live(Ran(l))
  {
    RunKeepsCount(l);
    RunTakesMarker(l);
    RunTracksPosts(l);
    RunKeepsFences(l);
  }

  lemma FinishKeepsCount(l: Link)
    requires Conserved(l) && l.burst.Some? && l.burst.value.rest == []
    ensures Conserved(Finished(l)) && Finished(l).applied == |CountedOf(l.log)|
  {
    assert CountedOf(Running(l)) == [] == CountedOf(Running(Finished(l)));
  }

  lemma FinishKeepsMarker(l: Link)
    requires OneMarker(l) && l.burst.Some? && l.burst.value.rest == []
    ensures OneMarker(Finished(l))
  {
    assert Markers(Running(l)) == 0 == Markers(Running(Finished(l)));
  }

  lemma FinishTracksPosts(l: Link)
    requires PostsTracked(l) && l.burst.Some?
    ensures PostsTracked(Finished(l))
  {
  }

  lemma FinishKeepsFences(l: Link)
    requires PostsTracked(l) && FencesKept(l) && l.burst.Some? && !l.ended
    requires Finished(l).applied == |CountedOf(l.log)|
    ensures FencesKept(Finished(l))
  {
  }

  lemma FinishKeeps(l: Link)
    requires Live(l) && l.burst.Some? && l.burst.value.rest == [] && !l.ended
    ensures Live(Finished(l))
  {
    FinishKeepsCount(l);
    FinishKeepsMarker(l);
    FinishTracksPosts(l);
    FinishKeepsFences(l);
  }

  lemma AcknowledgeKeeps(l: Link)
    requires Live(l) && Enabled(l, Acknowledge)
    ensures Live(Do(l, Acknowledge))
  {
    var after := Do(l, Acknowledge);
    assert Done(after) == Done(l) && Running(after) == Running(l);
  }

  lemma SenderStepKeeps(l: Link, step: Step)
    requires PostsRise(l) && Live(l) && Enabled(l, step)
    requires step.Send? || step.SendMarker? || step.Answer? || step.Publish?
    ensures Live(Do(l, step))
  {
    match step
    case Send(c) => JoinKeeps(l, Counted(c));
    case SendMarker => JoinKeeps(l, Marker);
    case Answer(call) => JoinKeeps(l, Uncounted(call));
    case Publish(entries, frame) => PublishKeeps(l, entries, frame);
  }

  lemma MainStepKeeps(l: Link, step: Step)
    requires PostsRise(l) && Live(l) && Enabled(l, step) && !l.ended
    requires step.ReadBurst? || step.RunOne? || step.FinishBurst? || step.Acknowledge?
    ensures Live(Do(l, step))
  {
    match step
    case ReadBurst(n) => ReadKeeps(l, n);
    case RunOne => RunKeeps(l);
    case FinishBurst => FinishKeeps(l);
    case Acknowledge => AcknowledgeKeeps(l);
  }

  lemma StepKeeps(l: Link, step: Step)
    requires Invariant(l) && Enabled(l, step)
    ensures Invariant(Do(l, step))
  {
    PostsStayRising(l, step);
    if l.ended || step.End? {
    } else if step.Send? || step.SendMarker? || step.Answer? || step.Publish? {
      SenderStepKeeps(l, step);
    } else {
      MainStepKeeps(l, step);
    }
  }

  lemma NextKeeps(l: Link, l': Link)
    requires Invariant(l) && Next(l, l')
    ensures Invariant(l')
  {
    var step :| Enabled(l, step) && l' == Do(l, step);
    StepKeeps(l, step);
  }

  lemma OpenIsFine()
    ensures Invariant(OPEN)
  {
  }

  lemma {:induction false} RunsKeep(run: seq<Link>, i: nat)
    requires IsRun(run) && i < |run|
    ensures Invariant(run[i])
  {
    if i == 0 {
      OpenIsFine();
    } else {
      RunsKeep(run, i - 1);
      assert Linked(run, i);
      NextKeeps(run[i - 1], run[i]);
    }
  }

  // ---------------------------------------------------------------------
  // What the link promises.

  /** Until the view ends, an acknowledged frame post implies that main ran,
      in order, every command the sender had sent when the frame was posted. */
  lemma AcknowledgedImpliesApplied(run: seq<Link>, i: nat, p: nat)
    requires IsRun(run) && i < |run| && !run[i].ended
    requires p < |run[i].posts| && run[i].posts[p].seqno <= run[i].serviced
    ensures run[i].posts[p].fence <= |CountedOf(run[i].log)|
    ensures CountedOf(run[i].log) <= run[i].sent
  {
    RunsKeep(run, i);
    var l := run[i];
    assert l.posts[p].fence <= l.posts[Done(l) - 1].fence;
  }

  /** Nothing counted is lost: what was sent is what ran and what still queues. */
  lemma AppliedPlusQueuedIsSent(run: seq<Link>, i: nat)
    requires IsRun(run) && i < |run| && !run[i].ended && run[i].burst.None?
    ensures run[i].applied + |CountedOf(run[i].queue)| == |run[i].sent|
    ensures run[i].sent == CountedOf(run[i].log) + CountedOf(run[i].queue)
  {
    RunsKeep(run, i);
    assert CountedOf(Running(run[i])) == [];
  }

  /** Once the FIFO drains nothing is held back: the mailbox is empty, no
      frame waits for its fence, and every post is applied. */
  lemma DrainedLeavesNothingHeld(run: seq<Link>, i: nat)
    requires IsRun(run) && i < |run| && !run[i].ended
    requires run[i].queue == [] && run[i].burst.None? && !run[i].owed
    ensures run[i].mail == NO_MAIL && run[i].frameDue.None?
    ensures Done(run[i]) == |run[i].posts|
  {
    RunsKeep(run, i);
    var l := run[i];
    AppliedPlusQueuedIsSent(run, i);
    assert forall p :: IsPost(l, p) ==> p.fence <= |l.sent|;
  }

  /** A marker is under way exactly while something may be posted, never two. */
  lemma AtMostOneMarker(run: seq<Link>, i: nat)
    requires IsRun(run) && i < |run| && !run[i].ended
    ensures UnderWay(run[i]) <= 1
    ensures run[i].mail.frame.Some? || run[i].mail.scrolled != map[] ==> UnderWay(run[i]) == 1
  {
    RunsKeep(run, i);
  }

  // ---------------------------------------------------------------------
  // The end of a view acknowledges without its fence.

  ghost predicate AcknowledgedUnapplied(l: Link) {
    exists p :: 0 <= p < |l.posts| && l.posts[p].seqno <= l.serviced && l.posts[p].fence > |CountedOf(l.log)|
  }

  /** A frame main has taken waits for a command that has not run. */
  ghost predicate HoldsUnapplied(l: Link) {
    l.frameDue.Some? && l.frameDue.value.fence > |CountedOf(l.log)|
  }

  lemma EndTellsTaken(l: Link)
    requires PostsTracked(l) && !l.ended
    ensures Do(l, End).serviced == Taken(l)
  {
  }

  /** Ending is a premature acknowledgement exactly over such a frame. */
  lemma EndBreaksFenceIff(l: Link)
    requires Invariant(l) && !l.ended
    ensures AcknowledgedUnapplied(Do(l, End)) <==> HoldsUnapplied(l)
  {
    EndTellsTaken(l);
    var after, taken := Do(l, End), Taken(l);
    assert after.posts == l.posts && after.log == l.log;
    if HoldsUnapplied(l) {
      assert after.posts[taken - 1].fence == l.frameDue.value.fence;
    }
    if AcknowledgedUnapplied(after) {
      var p :| 0 <= p < |l.posts| && l.posts[p].seqno <= taken && l.posts[p].fence > |CountedOf(l.log)|;
      assert l.posts[p].fence <= l.posts[taken - 1].fence;
    }
  }

  /** Main is done with an ended view: nothing runs or is acknowledged. */
  ghost predicate Over(l: Link) {
    l.ended && l.pending.None? && l.frameDue.None? && l.serviced <= |l.posts| && PostsRise(l)
  }

  lemma EndIsOver(l: Link)
    requires Invariant(l) && !l.ended
    ensures Over(Do(l, End))
  {
    EndTellsTaken(l);
  }

  lemma OverStays(l: Link, step: Step)
    requires Over(l) && Enabled(l, step)
    ensures Over(Do(l, step))
    ensures Do(l, step).log == l.log && Do(l, step).serviced == l.serviced
    ensures l.posts <= Do(l, step).posts
  {
    PostsStayRising(l, step);
  }

  lemma OverChangesNothing(l: Link, step: Step)
    requires Over(l) && Enabled(l, step)
    ensures AcknowledgedUnapplied(Do(l, step)) <==> AcknowledgedUnapplied(l)
  {
    OverStays(l, step);
    var after := Do(l, step);
    assert forall p :: 0 <= p < |l.posts| ==> after.posts[p] == l.posts[p];
    assert forall p :: |l.posts| <= p < |after.posts| ==> after.posts[p].seqno > after.serviced;
  }

  lemma OnlyEndEnds(l: Link, step: Step)
    requires Enabled(l, step) && !l.ended && Do(l, step).ended
    ensures step == End
  {
  }

  /** `l` comes after the end of a view that ended as `last`. */
  ghost predicate After(l: Link, last: Link) {
    Over(l) && (AcknowledgedUnapplied(l) <==> HoldsUnapplied(last))
  }

  lemma EndSettles(l: Link, l': Link)
    requires Invariant(l) && Next(l, l') && !l.ended && l'.ended
    ensures After(l', l)
  {
    var step :| Enabled(l, step) && l' == Do(l, step);
    OnlyEndEnds(l, step);
    EndIsOver(l);
    EndBreaksFenceIff(l);
  }

  lemma NextStaysAfter(l: Link, l': Link, last: Link)
    requires After(l, last) && Next(l, l')
    ensures After(l', last)
  {
    var step :| Enabled(l, step) && l' == Do(l, step);
    OverStays(l, step);
    OverChangesNothing(l, step);
  }

  lemma {:induction false} StaysAfter(run: seq<Link>, e: nat, i: nat)
    requires IsRun(run) && e < i < |run| && !run[e].ended && run[e + 1].ended
    ensures After(run[i], run[e])
  {
    assert Linked(run, i);
    if i == e + 1 {
      RunsKeep(run, e);
      EndSettles(run[e], run[i]);
    } else {
      StaysAfter(run, e, i - 1);
      NextStaysAfter(run[i - 1], run[i], run[e]);
    }
  }

  /** However a view's run goes on, whether its end acknowledged a frame
      ahead of its fence was settled by what main held when it ended. */
  lemma EndedFenceBrokenIff(run: seq<Link>, e: nat, i: nat)
    requires IsRun(run) && e < i < |run| && !run[e].ended && run[e + 1].ended
    ensures run[i].ended && (AcknowledgedUnapplied(run[i]) <==> HoldsUnapplied(run[e]))
  {
    StaysAfter(run, e, i);
  }

  /** Every ended run has one end behind it, so the condition above decides
      every run; no run that is still open acknowledges ahead of a fence. */
  lemma FenceBrokenOnlyByEnd(run: seq<Link>, i: nat)
    requires IsRun(run) && i < |run|
    ensures AcknowledgedUnapplied(run[i]) <==>
              exists e :: 0 <= e < i && !run[e].ended && run[e + 1].ended && HoldsUnapplied(run[e])
  {
    if run[i].ended {
      var e := EndOf(run, i);
      EndedFenceBrokenIff(run, e, i);
      forall other | 0 <= other < i && !run[other].ended && run[other + 1].ended ensures
          AcknowledgedUnapplied(run[i]) <==> HoldsUnapplied(run[other])
      {
        EndedFenceBrokenIff(run, other, i);
      }
    } else {
      forall p | 0 <= p < |run[i].posts| && run[i].posts[p].seqno <= run[i].serviced
        ensures run[i].posts[p].fence <= |CountedOf(run[i].log)|
      {
        AcknowledgedImpliesApplied(run, i, p);
      }
      forall e | 0 <= e < i && !run[e].ended && run[e + 1].ended ensures false {
        EndedFenceBrokenIff(run, e, i);
      }
    }
  }

  lemma {:induction false} EndOf(run: seq<Link>, i: nat) returns (e: nat)
    requires IsRun(run) && i < |run| && run[i].ended
    ensures e < i && !run[e].ended && run[e + 1].ended
  {
    if run[i - 1].ended {
      e := EndOf(run, i - 1);
    } else {
      e := i - 1;
    }
  }

  /** The end releases a waiting host without its frame: there alone an
      acknowledged post may be fenced behind a command that never ran. */
  lemma EndAcknowledgesUnapplied(entry: ScrollEntry)
    ensures exists run :: IsRun(run) && AcknowledgedUnapplied(run[|run| - 1])
  {
    var run := EarlyRun(entry, 8);
    EarlyUnapplied(entry);
  }

  lemma {:induction false} EarlyRun(entry: ScrollEntry, n: nat) returns (run: seq<Link>)
    requires n <= 8
    ensures IsRun(run) && run[|run| - 1] == Early(entry, n)
  {
    if n == 0 {
      run := [OPEN];
    } else {
      var before := EarlyRun(entry, n - 1);
      EarlyNext(entry, n - 1);
      run := before + [Early(entry, n)];
      RunSnoc(before, Early(entry, n));
    }
  }

  lemma RunSnoc(run: seq<Link>, l: Link)
    requires IsRun(run) && Next(run[|run| - 1], l)
    ensures IsRun(run + [l])
  {
    var longer := run + [l];
    forall i | 0 < i < |longer| ensures Linked(longer, i) {
      assert i < |run| ==> Linked(run, i);
    }
  }

  lemma EarlyNext(entry: ScrollEntry, n: nat)
    requires n < 8
    ensures Next(Early(entry, n), Early(entry, n + 1))
  {
    if n < 3 {
      EarlyPosted(entry);
    } else if n == 3 {
      EarlyTaken(entry);
    } else if n == 4 {
      EarlyRead(entry);
    } else if n == 5 {
      EarlyRan(entry);
    } else {
      EarlyEnded(entry);
    }
  }

  lemma EarlyUnapplied(entry: ScrollEntry)
    ensures AcknowledgedUnapplied(Early(entry, 8))
  {
    MarkerAlone();
    assert Early(entry, 8).posts[0].fence > |CountedOf(Early(entry, 8).log)|;
  }

  /** A marker ahead of a command; a frame behind the command rides that
      marker, is taken with it, and the view ends before the command runs. */
  ghost function Early(entry: ScrollEntry, n: nat): Link {
    var held, post := map[1 := entry], FramePost(0, 1, 2);
    var sent := [Marker, Counted(7)];
    match n
    case 0 => OPEN
    case 1 => Link([], [], true, Mail(held, None, true), [], [], None, 0, None, None, 0, false)
    case 2 => Link([Marker], [], false, Mail(held, None, true), [Marker], [], None, 0, None, None, 0, false)
    case 3 => Link(sent, [], false, Mail(held, None, true), sent, [], None, 0, None, None, 0, false)
    case 4 => Link(sent, [post], false, Mail(held, Some(post), true), sent, [], None, 0, None, None, 0, false)
    case 5 => Link(sent, [post], false, Mail(held, Some(post), true), [Counted(7)], [], Some(Burst([Marker], 1)), 0, None, None, 0, false)
    case 6 => Link(sent, [post], false, NO_MAIL, [Counted(7)], [Marker], Some(Burst([], 1)), 0, Some(post), None, 0, false)
    case 7 => Link(sent, [post], false, NO_MAIL, [Counted(7)], [Marker], None, 1, Some(post), None, 0, false)
    case _ => Link(sent, [post], false, NO_MAIL, [Counted(7)], [Marker], None, 1, None, None, 1, true)
  }

  lemma EarlyPosted(entry: ScrollEntry)
    ensures Next(Early(entry, 0), Early(entry, 1)) && Next(Early(entry, 1), Early(entry, 2))
    ensures Next(Early(entry, 2), Early(entry, 3))
  {
    assert [(1, entry)][..0] == [];
    assert WithEntries(map[], [(1, entry)]) == map[1 := entry];
    assert Early(entry, 1) == Do(Early(entry, 0), Publish([(1, entry)], None));
    assert Early(entry, 2) == Do(Early(entry, 1), SendMarker);
    assert Early(entry, 3) == Do(Early(entry, 2), Send(7));
  }

  lemma EarlyTaken(entry: ScrollEntry)
    ensures Next(Early(entry, 3), Early(entry, 4))
  {
    assert Early(entry, 4) == Do(Early(entry, 3), Publish([], Some(0)));
  }

  lemma MarkerAlone()
    ensures CountedOf([Marker]) == [Marker]
  {
    CountedSnoc([], Marker);
  }

  lemma ReadMarker(l: Link)
    requires l.queue == [Marker, Counted(7)]
    ensures Read(l, 1) == l.(queue := [Counted(7)], burst := Some(Burst([Marker], 1)))
  {
    MarkerAlone();
    assert l.queue[..1] == [Marker] && l.queue[1..] == [Counted(7)];
  }

  lemma EarlyRead(entry: ScrollEntry)
    ensures Next(Early(entry, 4), Early(entry, 5))
  {
    ReadMarker(Early(entry, 4));
    assert Early(entry, 5) == Do(Early(entry, 4), ReadBurst(1));
  }

  lemma EarlyRan(entry: ScrollEntry)
    ensures Next(Early(entry, 5), Early(entry, 6))
  {
    assert [] + [Marker] == [Marker] && [Marker][1..] == [];
    assert Early(entry, 6) == Do(Early(entry, 5), RunOne);
  }

  lemma EarlyEnded(entry: ScrollEntry)
    ensures Next(Early(entry, 6), Early(entry, 7)) && Next(Early(entry, 7), Early(entry, 8))
  {
    assert Early(entry, 7) == Do(Early(entry, 6), FinishBurst);
    assert Early(entry, 8) == Do(Early(entry, 7), End);
  }
}
