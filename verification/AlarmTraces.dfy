/** Interleavings beside the steps they took: what a sleep's poll answers, and
    what the sweeps of the alarm thread drop and count. */
module AlarmTraces {
  import opened Options
  import opened Alarm

  ghost predicate Took(run: seq<World>, steps: seq<Step>, i: nat)
    requires i < |steps| && |run| == |steps| + 1
  {
    Enabled(run[i], steps[i]) && run[i + 1] == Do(run[i], steps[i])
  }

  /** A run beside the steps it took. */
  ghost predicate IsTrace(run: seq<World>, steps: seq<Step>) {
    && |run| == |steps| + 1
    && run[0] == INITIAL
    && forall i {:trigger Took(run, steps, i)} :: 0 <= i < |steps| ==> Took(run, steps, i)
  }

  lemma TraceKeeps(run: seq<World>, steps: seq<Step>, i: nat)
    requires IsTrace(run, steps) && i < |run|
    ensures IsRun(run) && Inv(run[i])
  {
    forall j | 0 < j < |run| ensures Linked(run, j) {
      assert Took(run, steps, j - 1);
    }
    RunsKeep(run, i);
  }

  // ------------------------------------------------------ one poll's steps

  /** A step of the sleep `id` other than its creation. */
  predicate IsStepOf(step: Step, id: nat) {
    match step
    case Poll(i, _) => i == id
    case PollClock(i, _) => i == id
    case PollFlag(i) => i == id
    case Choose(i) => i == id
    case Replace(i) => i == id
    case Register(i, _) => i == id
    case Unpark(i) => i == id
    case RecheckClock(i, _) => i == id
    case RecheckFlag(i) => i == id
    case Drop(i) => i == id
    case ClearWaker(i) => i == id
    case NoteDrop(i) => i == id
    case _ => false
  }

  predicate IsClockReading(step: Step, id: nat) {
    (step.PollClock? || step.RecheckClock?) && step.id == id
  }

  predicate IsFlagReading(step: Step, id: nat) {
    (step.PollFlag? || step.RecheckFlag?) && step.id == id
  }

  /** The sleep `id` reads a clock that has reached its deadline. */
  predicate ReadsTheDeadline(w: World, step: Step, id: nat)
    requires id in w.sleeps
  {
    IsClockReading(step, id) && step.now >= w.sleeps[id].deadline
  }

  /** The sleep `id` reads that its slot was fired. */
  predicate ReadsFired(w: World, step: Step, id: nat)
    requires id in w.sleeps
  {
    && IsFlagReading(step, id)
    && w.sleeps[id].slot.Some? && w.sleeps[id].slot.value in w.slots
    && w.slots[w.sleeps[id].slot.value].state == Fired
  }

  predicate InPoll(phase: Phase) {
    || phase.Entered? || phase.Behind? || phase.Choosing? || phase.Replacing? || phase.Registering?
    || phase.Unparking? || phase.Rechecking? || phase.RecheckingFlag?
  }

  lemma WaitLeavesSleeps(w: World, step: Step)
    requires Enabled(w, step) && OfItsWait(step)
    ensures Do(w, step).sleeps == w.sleeps
  {
  }

  lemma ClaimLeavesSleeps(w: World)
    requires Enabled(w, Claim)
    ensures Do(w, Claim).sleeps == w.sleeps
  {
  }

  lemma TakeWakerLeavesSleeps(w: World)
    requires Enabled(w, TakeWaker)
    ensures Do(w, TakeWaker).sleeps == w.sleeps
  {
  }

  lemma FireLeavesSleeps(w: World, step: Step)
    requires Enabled(w, step) && OfAFire(step)
    ensures Do(w, step).sleeps == w.sleeps
  {
    match step
    case Claim => ClaimLeavesSleeps(w);
    case TakeWaker => TakeWakerLeavesSleeps(w);
    case _ =>
  }

  lemma SweepLeavesSleeps(w: World, step: Step)
    requires Enabled(w, step) && OfASweep(step)
    ensures Do(w, step).sleeps == w.sleeps
  {
  }

  lemma AlarmThreadLeavesSleeps(w: World, step: Step)
    requires Enabled(w, step) && OfAlarmThread(step)
    ensures Do(w, step).sleeps == w.sleeps
  {
    if OfItsWait(step) {
      WaitLeavesSleeps(w, step);
    } else if OfAFire(step) {
      FireLeavesSleeps(w, step);
    } else {
      SweepLeavesSleeps(w, step);
    }
  }

  lemma PollLeavesAlarmThread(w: World, step: Step)
    requires Enabled(w, step) && !OfAlarmThread(step) && !OfADrop(step)
    ensures Do(w, step).pass == w.pass && Do(w, step).heap == w.heap && Do(w, step).log == w.log
  {
  }

  lemma DropLeavesAlarmThread(w: World, step: Step)
    requires Enabled(w, step) && OfADrop(step)
    ensures Do(w, step).pass == w.pass && Do(w, step).heap == w.heap && Do(w, step).log == w.log
  {
  }

  lemma SleepLeavesAlarmThread(w: World, step: Step)
    requires Enabled(w, step) && !OfAlarmThread(step)
    ensures Do(w, step).pass == w.pass && Do(w, step).heap == w.heap && Do(w, step).log == w.log
  {
    if OfADrop(step) {
      DropLeavesAlarmThread(w, step);
    } else {
      PollLeavesAlarmThread(w, step);
    }
  }

  lemma OtherPollsLeaveIt(w: World, step: Step, id: nat)
    requires Enabled(w, step) && !OfAlarmThread(step) && !OfADrop(step) && !IsStepOf(step, id) && id in w.sleeps
    ensures id in Do(w, step).sleeps && Do(w, step).sleeps[id] == w.sleeps[id]
  {
  }

  lemma OtherDropsLeaveIt(w: World, step: Step, id: nat)
    requires Enabled(w, step) && OfADrop(step) && !IsStepOf(step, id) && id in w.sleeps
    ensures id in Do(w, step).sleeps && Do(w, step).sleeps[id] == w.sleeps[id]
  {
  }

  lemma OtherSleepsLeaveIt(w: World, step: Step, id: nat)
    requires Enabled(w, step) && !OfAlarmThread(step) && !IsStepOf(step, id) && id in w.sleeps
    ensures id in Do(w, step).sleeps && Do(w, step).sleeps[id] == w.sleeps[id]
  {
    if OfADrop(step) {
      OtherDropsLeaveIt(w, step, id);
    } else {
      OtherPollsLeaveIt(w, step, id);
    }
  }

  lemma OthersLeaveTheSleep(w: World, step: Step, id: nat)
    requires Enabled(w, step) && !IsStepOf(step, id) && id in w.sleeps
    ensures id in Do(w, step).sleeps && Do(w, step).sleeps[id] == w.sleeps[id]
  {
    if OfAlarmThread(step) {
      AlarmThreadLeavesSleeps(w, step);
    } else {
      OtherSleepsLeaveIt(w, step, id);
    }
  }

  /** Nothing but its own readings makes a poll answer Ready. */
  lemma OwnReadyIsRead(w: World, step: Step, id: nat)
    requires Enabled(w, step) && IsStepOf(step, id) && Do(w, step).sleeps[id].phase.Done?
    ensures id in w.sleeps && (ReadsTheDeadline(w, step, id) || ReadsFired(w, step, id))
  {
  }

  lemma CreatedRests(w: World, step: Step, id: nat)
    requires Enabled(w, step) && step.Create? && step.id == id
    ensures !Do(w, step).sleeps[id].phase.Done?
  {
  }

  lemma NoneAppears(w: World, step: Step, id: nat)
    requires Enabled(w, step) && !step.Create? && id in Do(w, step).sleeps
    ensures id in w.sleeps
  {
    if OfAlarmThread(step) {
      AlarmThreadLeavesSleeps(w, step);
    }
  }

  lemma ReadyIsRead(w: World, step: Step, id: nat)
    requires Enabled(w, step) && id in Do(w, step).sleeps && Do(w, step).sleeps[id].phase.Done?
    ensures id in w.sleeps
    ensures w.sleeps[id].phase.Done? || ReadsTheDeadline(w, step, id) || ReadsFired(w, step, id)
  {
    if IsStepOf(step, id) {
      OwnReadyIsRead(w, step, id);
    } else if step.Create? {
      if step.id == id { CreatedRests(w, step, id); }
    } else {
      NoneAppears(w, step, id);
      OthersLeaveTheSleep(w, step, id);
    }
  }

  /** How a step that reads answers: Ready, Pending from the last one, or on. */
  ghost predicate Answered(w: World, step: Step, id: nat, k: nat, v: World)
    requires id in w.sleeps
  {
    && id in v.sleeps && v.sleeps[id].deadline == w.sleeps[id].deadline
    && var phase := v.sleeps[id].phase;
       if ReadsTheDeadline(w, step, id) || ReadsFired(w, step, id) then phase == Done
       else if step.RecheckFlag? then phase == Resting(Some(k))
       else InPoll(phase) && phase.waker == k
  }

  lemma ClockGoesOn(w: World, id: nat, now: int, k: nat)
    requires Enabled(w, PollClock(id, now)) && w.sleeps[id].phase.waker == k
    ensures Answered(w, PollClock(id, now), id, k, Do(w, PollClock(id, now)))
  {
  }

  lemma FlagGoesOn(w: World, id: nat, k: nat)
    requires Enabled(w, PollFlag(id)) && w.sleeps[id].phase.waker == k
    ensures Answered(w, PollFlag(id), id, k, Do(w, PollFlag(id)))
  {
  }

  lemma SecondClockGoesOn(w: World, id: nat, now: int, k: nat)
    requires Enabled(w, RecheckClock(id, now)) && w.sleeps[id].phase.waker == k
    ensures Answered(w, RecheckClock(id, now), id, k, Do(w, RecheckClock(id, now)))
  {
  }

  lemma SecondFlagGoesOn(w: World, id: nat, k: nat)
    requires Enabled(w, RecheckFlag(id)) && w.sleeps[id].phase.waker == k
    ensures Answered(w, RecheckFlag(id), id, k, Do(w, RecheckFlag(id)))
  {
  }

  lemma RegisteringGoesOn(w: World, step: Step, id: nat, k: nat)
    requires Enabled(w, step) && id in w.sleeps && IsStepOf(step, id)
    requires step.Choose? || step.Replace? || step.Register? || step.Unpark?
    requires w.sleeps[id].phase.waker == k
    ensures Answered(w, step, id, k, Do(w, step))
  {
  }

  /** A step inside a poll for `k`: it goes on, it answers Ready on a reading,
      or its last look at the flag answers Pending. */
  lemma PollGoesOn(w: World, step: Step, id: nat, k: nat)
    requires Enabled(w, step) && id in w.sleeps && IsStepOf(step, id)
    requires InPoll(w.sleeps[id].phase) && w.sleeps[id].phase.waker == k
    ensures Answered(w, step, id, k, Do(w, step))
  {
    match step
    case PollClock(_, now) => ClockGoesOn(w, id, now, k);
    case PollFlag(_) => FlagGoesOn(w, id, k);
    case RecheckClock(_, now) => SecondClockGoesOn(w, id, now, k);
    case RecheckFlag(_) => SecondFlagGoesOn(w, id, k);
    case _ => RegisteringGoesOn(w, step, id, k);
  }

  // ------------------------------------------------------ who fires a slot

  /** Step `q` is the alarm thread claiming the armed slot `s`, on a reading
      of its own clock taken at step `r` that had reached the deadline. */
  ghost predicate ClaimedDue(run: seq<World>, steps: seq<Step>, r: nat, q: nat, s: nat, deadline: int)
    requires r < q < |steps| && |run| == |steps| + 1
  {
    && steps[q] == Claim && run[q].pass.Holding? && run[q].pass.slot == s
    && s in run[q].slots && run[q].slots[s].state == Armed
    && steps[r] == ReadClock(run[q].pass.now) && run[q].pass.now >= deadline
  }

  predicate HasNow(pass: Pass) {
    pass.Peeking? || pass.Holding? || pass.TakingWaker? || pass.Waking?
  }

  lemma NowMoves(w: World, step: Step)
    requires Enabled(w, step) && HasNow(Do(w, step).pass)
    ensures step == ReadClock(Do(w, step).pass.now) || (HasNow(w.pass) && Do(w, step).pass.now == w.pass.now)
  {
    if !OfAlarmThread(step) {
      SleepLeavesAlarmThread(w, step);
    } else if OfAFire(step) {
      FireKeepsNow(w, step);
    }
  }

  lemma FireKeepsNow(w: World, step: Step)
    requires Enabled(w, step) && OfAFire(step)
    ensures HasNow(w.pass) && (HasNow(Do(w, step).pass) ==> Do(w, step).pass.now == w.pass.now)
  {
  }

  /** The reading a pass works with was read in that pass. */
  lemma {:induction false} NowWasRead(run: seq<World>, steps: seq<Step>, i: nat) returns (r: nat)
    requires IsTrace(run, steps) && i < |run| && HasNow(run[i].pass)
    ensures r < i && steps[r] == ReadClock(run[i].pass.now)
  {
    assert Took(run, steps, i - 1);
    NowMoves(run[i - 1], steps[i - 1]);
    if steps[i - 1] == ReadClock(run[i].pass.now) {
      r := i - 1;
    } else {
      r := NowWasRead(run, steps, i - 1);
    }
  }

  /** Only the claim of an armed slot fires it. */
  lemma ThreadFiresByClaim(w: World, step: Step, s: nat)
    requires Enabled(w, step) && OfAlarmThread(step)
    requires s in Do(w, step).slots && Do(w, step).slots[s].state == Fired
    ensures s in w.slots && w.slots[s].deadline == Do(w, step).slots[s].deadline
    ensures w.slots[s].state == Fired
         || (step == Claim && w.pass.Holding? && w.pass.slot == s && w.slots[s].state == Armed)
  {
  }

  lemma PollsFireNothing(w: World, step: Step, s: nat)
    requires Enabled(w, step) && !OfAlarmThread(step) && !OfADrop(step)
    requires s in Do(w, step).slots && Do(w, step).slots[s].state == Fired
    ensures s in w.slots && w.slots[s].deadline == Do(w, step).slots[s].deadline && w.slots[s].state == Fired
  {
  }

  lemma DropsFireNothing(w: World, step: Step, s: nat)
    requires Enabled(w, step) && OfADrop(step)
    requires s in Do(w, step).slots && Do(w, step).slots[s].state == Fired
    ensures s in w.slots && w.slots[s].deadline == Do(w, step).slots[s].deadline && w.slots[s].state == Fired
  {
  }

  lemma SleepsFireNothing(w: World, step: Step, s: nat)
    requires Enabled(w, step) && !OfAlarmThread(step)
    requires s in Do(w, step).slots && Do(w, step).slots[s].state == Fired
    ensures s in w.slots && w.slots[s].deadline == Do(w, step).slots[s].deadline && w.slots[s].state == Fired
  {
    if OfADrop(step) {
      DropsFireNothing(w, step, s);
    } else {
      PollsFireNothing(w, step, s);
    }
  }

  lemma FiresByClaim(w: World, step: Step, s: nat)
    requires Enabled(w, step) && s in Do(w, step).slots && Do(w, step).slots[s].state == Fired
    ensures s in w.slots && w.slots[s].deadline == Do(w, step).slots[s].deadline
    ensures w.slots[s].state == Fired
         || (step == Claim && w.pass.Holding? && w.pass.slot == s && w.slots[s].state == Armed)
  {
    if OfAlarmThread(step) {
      ThreadFiresByClaim(w, step, s);
    } else {
      SleepsFireNothing(w, step, s);
    }
  }

  lemma {:induction false} FiredWasClaimed(run: seq<World>, steps: seq<Step>, i: nat, s: nat) returns (r: nat, q: nat)
    requires IsTrace(run, steps) && i < |run|
    requires s in run[i].slots && run[i].slots[s].state == Fired
    ensures r < q < i && ClaimedDue(run, steps, r, q, s, run[i].slots[s].deadline)
  {
    assert Took(run, steps, i - 1);
    FiresByClaim(run[i - 1], steps[i - 1], s);
    if run[i - 1].slots[s].state == Fired {
      r, q := FiredWasClaimed(run, steps, i - 1, s);
    } else {
      TraceKeeps(run, steps, i - 1);
      q := i - 1;
      r := NowWasRead(run, steps, q);
    }
  }

  // ------------------------------------------------------------- theorems

  lemma OwnSlotDeadline(w: World, id: nat)
    requires Inv(w) && id in w.sleeps && w.sleeps[id].slot.Some?
    ensures w.sleeps[id].slot.value in w.slots
    ensures w.slots[w.sleeps[id].slot.value].deadline == w.sleeps[id].deadline
  {
    assert SleepFits(id, w.sleeps[id], w.slots, w.pass, w.log);
    assert SlotOk(w, w.sleeps[id].slot.value);
  }

  /** A poll answers Ready only when its wait is over: on its own reading of a
      clock that has reached the deadline, or because the alarm thread claimed
      its slot on such a reading of its own. */
  lemma ReadyMeansDue(run: seq<World>, steps: seq<Step>, i: nat, id: nat)
    requires IsTrace(run, steps) && i < |steps|
    requires id in run[i + 1].sleeps && run[i + 1].sleeps[id].phase.Done?
    requires id in run[i].sleeps ==> !run[i].sleeps[id].phase.Done?
    ensures id in run[i].sleeps
    ensures
      || ReadsTheDeadline(run[i], steps[i], id)
      || (ReadsFired(run[i], steps[i], id)
          && exists r, q :: 0 <= r < q < i && ClaimedDue(run, steps, r, q, run[i].sleeps[id].slot.value, run[i].sleeps[id].deadline))
  {
    assert Took(run, steps, i);
    ReadyIsRead(run[i], steps[i], id);
    if !ReadsTheDeadline(run[i], steps[i], id) {
      TraceKeeps(run, steps, i);
      OwnSlotDeadline(run[i], id);
      var r, q := FiredWasClaimed(run, steps, i, run[i].sleeps[id].slot.value);
    }
  }

  /** The steps from `a` to `b` are one poll of `id` for `k`, not yet over
      before its step `b`. */
  ghost predicate Polls(run: seq<World>, steps: seq<Step>, a: nat, b: nat, id: nat, k: nat) {
    && IsTrace(run, steps) && a < b < |steps| && steps[a] == Poll(id, k)
    && (forall q :: a < q <= b ==> id in run[q].sleeps && InPoll(run[q].sleeps[id].phase))
  }

  lemma PollStep(run: seq<World>, steps: seq<Step>, q: nat, id: nat, k: nat)
    requires IsTrace(run, steps) && q < |steps|
    requires id in run[q].sleeps && InPoll(run[q].sleeps[id].phase) && run[q].sleeps[id].phase.waker == k
    ensures IsStepOf(steps[q], id) ==> Answered(run[q], steps[q], id, k, run[q + 1])
    ensures !IsStepOf(steps[q], id) ==> id in run[q + 1].sleeps && run[q + 1].sleeps[id] == run[q].sleeps[id]
  {
    assert Took(run, steps, q);
    if IsStepOf(steps[q], id) {
      PollGoesOn(run[q], steps[q], id, k);
    } else {
      OthersLeaveTheSleep(run[q], steps[q], id);
    }
  }

  lemma PollBegins(run: seq<World>, steps: seq<Step>, a: nat, id: nat, k: nat)
    requires IsTrace(run, steps) && a < |steps| && steps[a] == Poll(id, k)
    ensures id in run[a + 1].sleeps && run[a + 1].sleeps[id].phase == Entered(k)
  {
    assert Took(run, steps, a);
  }

  lemma AnsweredGoesOn(w: World, step: Step, id: nat, k: nat, v: World)
    requires id in w.sleeps && Answered(w, step, id, k, v) && InPoll(v.sleeps[id].phase)
    ensures v.sleeps[id].phase.waker == k
    ensures !ReadsTheDeadline(w, step, id) && !ReadsFired(w, step, id)
  {
  }

  lemma {:induction false} PollKeepsWaker(run: seq<World>, steps: seq<Step>, a: nat, b: nat, id: nat, k: nat, q: nat)
    requires Polls(run, steps, a, b, id, k) && a < q <= b
    ensures run[q].sleeps[id].phase.waker == k
  {
    if q == a + 1 {
      PollBegins(run, steps, a, id, k);
    } else {
      PollKeepsWaker(run, steps, a, b, id, k, q - 1);
      PollStep(run, steps, q - 1, id, k);
      if IsStepOf(steps[q - 1], id) {
        AnsweredGoesOn(run[q - 1], steps[q - 1], id, k, run[q]);
      }
    }
  }

  /** A reading inside the poll either did not find it over, or is its last. */
  lemma PollsOn(run: seq<World>, steps: seq<Step>, a: nat, b: nat, id: nat, k: nat, q: nat)
    requires Polls(run, steps, a, b, id, k) && a < q < b
    ensures !ReadsTheDeadline(run[q], steps[q], id) && !ReadsFired(run[q], steps[q], id)
  {
    PollKeepsWaker(run, steps, a, b, id, k, q);
    PollStep(run, steps, q, id, k);
    if IsStepOf(steps[q], id) {
      AnsweredGoesOn(run[q], steps[q], id, k, run[q + 1]);
    }
  }

  /** The poll that ends with step `b` answers Ready exactly when one of its
      readings found its clock at the deadline or its slot fired, and Pending
      for its own waker when all of them were before. */
  lemma PollAnswersItsReadings(run: seq<World>, steps: seq<Step>, a: nat, b: nat, id: nat, k: nat)
    requires Polls(run, steps, a, b, id, k)
    requires id in run[b + 1].sleeps && !InPoll(run[b + 1].sleeps[id].phase)
    ensures run[b + 1].sleeps[id].phase == Done <==>
              exists q :: a < q <= b && (ReadsTheDeadline(run[q], steps[q], id) || ReadsFired(run[q], steps[q], id))
    ensures run[b + 1].sleeps[id].phase == Resting(Some(k)) <==>
              forall q :: a < q <= b ==> !ReadsTheDeadline(run[q], steps[q], id) && !ReadsFired(run[q], steps[q], id)
  {
    PollKeepsWaker(run, steps, a, b, id, k, b);
    PollStep(run, steps, b, id, k);
    forall q | a < q < b ensures !ReadsTheDeadline(run[q], steps[q], id) && !ReadsFired(run[q], steps[q], id) {
      PollsOn(run, steps, a, b, id, k, q);
    }
  }

  // --------------------------------------------------------------- sweeps

  /** The cancellations noted by the first `n` steps. */
  function Noted(steps: seq<Step>, n: nat): nat
    requires n <= |steps|
  {
    if n == 0 then 0 else Noted(steps, n - 1) + if steps[n - 1].NoteDrop? then 1 else 0
  }

  /** What the first `n` steps subtracted from the counter. */
  ghost function Subtracted(run: seq<World>, steps: seq<Step>, n: nat): nat
    requires IsTrace(run, steps) && n <= |steps|
  {
    if n == 0 then 0
    else
      assert Took(run, steps, n - 1);
      Subtracted(run, steps, n - 1) + if steps[n - 1] == Subtract then run[n - 1].pass.count else 0
  }

  lemma CounterMoves(w: World, step: Step)
    requires CounterCovers(w) && Enabled(w, step)
    ensures step == Subtract ==> w.pass.count <= w.cancelled && Do(w, step).cancelled == w.cancelled - w.pass.count
    ensures step.NoteDrop? ==> Do(w, step).cancelled == w.cancelled + 1
    ensures step != Subtract && !step.NoteDrop? ==> Do(w, step).cancelled == w.cancelled
  {
  }

  /** No cancellation is lost or counted twice: what was noted is what the
      counter holds and what the sweeps took off it. */
  lemma {:induction false} CounterIsConserved(run: seq<World>, steps: seq<Step>, n: nat)
    requires IsTrace(run, steps) && n <= |steps|
    ensures run[n].cancelled + Subtracted(run, steps, n) == Noted(steps, n)
  {
    if n > 0 {
      CounterIsConserved(run, steps, n - 1);
      assert Took(run, steps, n - 1);
      TraceKeeps(run, steps, n - 1);
      CounterMoves(run[n - 1], steps[n - 1]);
    }
  }

  /** A pass sweeps exactly when more cancellations are counted than half of
      the heap holds, and then looks at all of it. */
  lemma SweepsWhatIsMostlyDead(w: World)
    requires Enabled(w, CountCancelled)
    ensures Do(w, CountCancelled).pass.Sweeping? <==> 2 * w.cancelled > |w.heap|
    ensures Do(w, CountCancelled).pass.Sweeping? ==> Do(w, CountCancelled).pass.left == w.heap
    ensures !Do(w, CountCancelled).pass.Sweeping? ==> Do(w, CountCancelled).pass.Settling? && Do(w, CountCancelled).heap == w.heap
  {
  }

  /** The alarm thread has been sweeping since its step `r`. */
  ghost predicate SweepsFrom(run: seq<World>, steps: seq<Step>, r: nat, q: nat) {
    && IsTrace(run, steps) && r < q < |run| && steps[r] == CountCancelled
    && (forall p :: r < p <= q ==> run[p].pass.Sweeping?)
  }

  /** The sweep looked at `s` between `r` and `q` and found it so. */
  ghost predicate Examines(run: seq<World>, steps: seq<Step>, r: nat, q: nat, s: nat, armed: bool)
    requires r <= q < |run| && |run| == |steps| + 1
  {
    exists p :: r < p < q && steps[p] == Sweep(s) && s in run[p].slots && (run[p].slots[s].state == Armed <==> armed)
  }

  lemma SweepBegins(w: World)
    requires Enabled(w, CountCancelled) && Do(w, CountCancelled).pass.Sweeping?
    ensures w.cancelled > |w.heap| / 2 && Do(w, CountCancelled).pass.count == w.cancelled
    ensures Do(w, CountCancelled).heap == multiset{} && Do(w, CountCancelled).pass.left == w.heap
  {
  }

  lemma SweepMoves(w: World, step: Step)
    requires Enabled(w, step) && w.pass.Sweeping? && Do(w, step).pass.Sweeping?
    ensures var v := Do(w, step);
            if step.Sweep? then
              && step.slot in w.pass.left && v.pass.left == w.pass.left - multiset{step.slot}
              && v.heap == if w.slots[step.slot].state == Armed then w.heap + multiset{step.slot} else w.heap
            else v.pass == w.pass && v.heap == w.heap
    ensures Do(w, step).pass.count == w.pass.count
  {
    if !OfAlarmThread(step) {
      SleepLeavesAlarmThread(w, step);
    }
  }

  lemma ExaminesFurther(run: seq<World>, steps: seq<Step>, r: nat, q: nat, s: nat, armed: bool)
    requires r <= q && q + 1 < |run| && |run| == |steps| + 1
    requires Examines(run, steps, r, q, s, armed)
    ensures Examines(run, steps, r, q + 1, s, armed)
  {
    var p :| r < p < q && steps[p] == Sweep(s) && s in run[p].slots && (run[p].slots[s].state == Armed <==> armed);
    assert r < p < q + 1;
  }

  /** What a sweep since `r` has made of the entry `s` by step `q`. */
  ghost predicate SweptSo(run: seq<World>, steps: seq<Step>, r: nat, q: nat, s: nat)
    requires r < q < |run| && |run| == |steps| + 1 && run[q].pass.Sweeping?
  {
    && (s in run[q].heap ==> s in run[r].heap && Examines(run, steps, r, q, s, true))
    && (s in run[q].pass.left ==> s in run[r].heap)
    && (s in run[r].heap && s !in run[q].heap && s !in run[q].pass.left ==> Examines(run, steps, r, q, s, false))
  }

  lemma SweptFurther(run: seq<World>, steps: seq<Step>, r: nat, q: nat, s: nat)
    requires IsTrace(run, steps) && r < q && q + 1 < |run| && run[q].pass.Sweeping? && run[q + 1].pass.Sweeping?
    requires SweptSo(run, steps, r, q, s)
    ensures SweptSo(run, steps, r, q + 1, s)
  {
    assert Took(run, steps, q);
    SweepMoves(run[q], steps[q]);
    if Examines(run, steps, r, q, s, true) {
      ExaminesFurther(run, steps, r, q, s, true);
    }
    if Examines(run, steps, r, q, s, false) {
      ExaminesFurther(run, steps, r, q, s, false);
    }
    if steps[q] == Sweep(s) {
      assert Examines(run, steps, r, q + 1, s, run[q].slots[s].state == Armed);
    }
  }

  /** A sweep keeps an entry only because it found its slot armed, and drops
      one only because it found it was not. */
  lemma {:induction false} SweepDropsTheDead(run: seq<World>, steps: seq<Step>, r: nat, q: nat, s: nat)
    requires SweepsFrom(run, steps, r, q)
    ensures SweptSo(run, steps, r, q, s)
  {
    if q == r + 1 {
      assert Took(run, steps, r);
      SweepBegins(run[r]);
    } else {
      SweepDropsTheDead(run, steps, r, q - 1, s);
      SweptFurther(run, steps, r, q - 1, s);
    }
  }

  lemma CountStays(w: World, step: Step)
    requires Enabled(w, step) && w.pass.Sweeping? && Do(w, step).pass.Sweeping?
    ensures Do(w, step).pass.count == w.pass.count
  {
    SweepMoves(w, step);
  }

  lemma CountBegins(run: seq<World>, steps: seq<Step>, r: nat)
    requires IsTrace(run, steps) && r < |steps| && steps[r] == CountCancelled && run[r + 1].pass.Sweeping?
    ensures run[r + 1].pass.count == run[r].cancelled
  {
    assert Took(run, steps, r);
    SweepBegins(run[r]);
  }

  lemma CountGoesOn(run: seq<World>, steps: seq<Step>, q: nat)
    requires IsTrace(run, steps) && q < |steps| && run[q].pass.Sweeping? && run[q + 1].pass.Sweeping?
    ensures run[q + 1].pass.count == run[q].pass.count
  {
    assert Took(run, steps, q);
    CountStays(run[q], steps[q]);
  }

  /** The count it will subtract is the counter it began with. */
  lemma {:induction false} SweepCountsOnce(run: seq<World>, steps: seq<Step>, r: nat, q: nat)
    requires SweepsFrom(run, steps, r, q)
    ensures run[q].pass.count == run[r].cancelled
  {
    if q == r + 1 {
      CountBegins(run, steps, r);
    } else {
      SweepCountsOnce(run, steps, r, q - 1);
      CountGoesOn(run, steps, q - 1);
    }
  }
}
