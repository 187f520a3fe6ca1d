/** The frame fence in the embedder's terms: an acknowledged frame contains
    every command that was sent before it was asked for. */
module FrameFence {
  import opened Options
  import opened ScrollMailbox
  import opened ViewLink

  ghost predicate Took(run: seq<Link>, steps: seq<Step>, i: nat)
    requires i < |steps| && |run| == |steps| + 1
  {
    Enabled(run[i], steps[i]) && run[i + 1] == Do(run[i], steps[i])
  }

  ghost predicate IsTrace(run: seq<Link>, steps: seq<Step>) {
    && |run| == |steps| + 1
    && run[0] == OPEN
    && forall i {:trigger Took(run, steps, i)} :: 0 <= i < |steps| ==> Took(run, steps, i)
  }

  lemma TraceIsRun(run: seq<Link>, steps: seq<Step>)
    requires IsTrace(run, steps)
    ensures IsRun(run)
  {
    forall i | 0 < i < |run| ensures Linked(run, i) {
      assert Took(run, steps, i - 1);
    }
  }

  lemma StepGrows(l: Link, step: Step)
    requires Enabled(l, step)
    ensures l.sent <= Do(l, step).sent && l.posts <= Do(l, step).posts
  {
  }

  lemma {:induction false} TraceGrows(run: seq<Link>, steps: seq<Step>, i: nat, j: nat)
    requires IsTrace(run, steps) && i <= j < |run|
    ensures run[i].sent <= run[j].sent && run[i].posts <= run[j].posts
    decreases j
  {
    if i < j {
      TraceGrows(run, steps, i, j - 1);
      assert Took(run, steps, j - 1);
      StepGrows(run[j - 1], steps[j - 1]);
    }
  }

  /** Step `i` asks for a frame; its number is the count of those asked for. */
  ghost predicate AsksForFrame(run: seq<Link>, steps: seq<Step>, i: nat)
    requires |run| == |steps| + 1
  {
    i < |steps| && steps[i].Publish? && steps[i].frame.Some?
  }

  lemma PostedFence(run: seq<Link>, steps: seq<Step>, i: nat, j: nat)
    requires IsTrace(run, steps) && AsksForFrame(run, steps, i) && i < j < |run|
    ensures |run[i].posts| < |run[j].posts|
    ensures run[j].posts[|run[i].posts|] == FramePost(steps[i].frame.value, |run[i].posts| + 1, |run[i].sent|)
  {
    assert Took(run, steps, i);
    TraceGrows(run, steps, i + 1, j);
    assert run[j].posts[|run[i].posts|] == run[i + 1].posts[|run[i].posts|];
  }

  lemma LongerPrefix(a: seq<Message>, b: seq<Message>, whole: seq<Message>)
    requires a <= whole && b <= whole && |a| <= |b|
    ensures a <= b
  {
    assert b == whole[..|b|] && a == whole[..|a|];
  }

  /** Until the view ends: once a frame is acknowledged, main has run, in order,
      every command the embedder sent before it asked for that frame, across
      any coalescing, marker timing and uncounted traffic. */
  lemma AcknowledgedFrameHasItsCommands(run: seq<Link>, steps: seq<Step>, i: nat, j: nat)
    requires IsTrace(run, steps) && AsksForFrame(run, steps, i) && i < j < |run| && !run[j].ended
    requires |run[i].posts| + 1 <= run[j].serviced
    ensures run[i].sent <= CountedOf(run[j].log)
  {
    TraceIsRun(run, steps);
    PostedFence(run, steps, i, j);
    AcknowledgedImpliesApplied(run, j, |run[i].posts|);
    TraceGrows(run, steps, i, j);
    LongerPrefix(run[i].sent, CountedOf(run[j].log), run[j].sent);
  }

  /** Once the FIFO has drained nothing asked for is outstanding: every frame
      asked for is acknowledged, or has been applied and is about to be. */
  lemma DrainedFramesAreDone(run: seq<Link>, steps: seq<Step>, i: nat, j: nat)
    requires IsTrace(run, steps) && AsksForFrame(run, steps, i) && i < j < |run| && !run[j].ended
    requires run[j].queue == [] && run[j].burst.None? && !run[j].owed
    ensures |run[i].posts| + 1 <= run[j].serviced || (run[j].pending.Some? && |run[i].posts| + 1 <= run[j].pending.value)
    ensures run[i].sent <= CountedOf(run[j].log)
  {
    TraceIsRun(run, steps);
    PostedFence(run, steps, i, j);
    DrainedLeavesNothingHeld(run, j);
    AppliedPlusQueuedIsSent(run, j);
    TraceGrows(run, steps, i, j);
    assert CountedOf(run[j].log) + [] == CountedOf(run[j].log);
  }

  /** A pending acknowledgement is given, and stands. */
  lemma PendingIsAcknowledged(l: Link)
    requires l.pending.Some? && !l.ended
    ensures Enabled(l, Acknowledge) && Do(l, Acknowledge).serviced >= l.pending.value
    ensures Do(l, Acknowledge).pending.None?
  {
  }

  /** Even over the end of the view: an acknowledged frame lacks a command that
      was sent before it was asked for only if the view ended while main held a
      frame whose fence had not been reached. */
  lemma MissingCommandsMeanTheEnd(run: seq<Link>, steps: seq<Step>, i: nat, j: nat)
    requires IsTrace(run, steps) && AsksForFrame(run, steps, i) && i < j < |run|
    requires |run[i].posts| + 1 <= run[j].serviced && |CountedOf(run[j].log)| < |run[i].sent|
    ensures exists e :: 0 <= e < j && !run[e].ended && run[e + 1].ended && HoldsUnapplied(run[e])
  {
    TraceIsRun(run, steps);
    PostedFence(run, steps, i, j);
    assert AcknowledgedUnapplied(run[j]);
    FenceBrokenOnlyByEnd(run, j);
  }
}
