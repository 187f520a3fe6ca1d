/** What a load that waits for an install is told, and what it then does. */
module InstallAnswers {
  import opened Options
  import opened Texts
  import opened InstallHold

  // ------------------------------------------------------- what is told

  lemma StepTells(w: World, step: Step, k: nat)
    requires Enabled(w, step) && k in Do(w, step).installs
    ensures step != PlaceHold(k) ==> k in w.installs
    ensures var after := Do(w, step).installs[k];
            match after.told
            case Nothing => true
            case Closed => true
            case Ended(e) =>
              || (k in w.installs && w.installs[k].told == Ended(e))
              || (step == Tell(k) && k in w.installs && w.installs[k].progress == Released(e))
  {
  }

  predicate HasEnded(install: Install, e: Ending) {
    install.progress == InstallHold.Progress.Returned(e) || install.progress == Released(e)
  }

  lemma StepEnds(w: World, step: Step, k: nat, e: Ending)
    requires Enabled(w, step) && k in Do(w, step).installs && HasEnded(Do(w, step).installs[k], e)
    ensures step == Return(k, e) || (k in w.installs && HasEnded(w.installs[k], e))
  {
  }

  lemma {:induction false} EndedByReturn(run: seq<World>, steps: seq<Step>, i: nat, k: nat, e: Ending) returns (q: nat)
    requires IsTrace(run, steps) && i < |run| && k in run[i].installs && HasEnded(run[i].installs[k], e)
    ensures q < i && steps[q] == Return(k, e)
  {
    assert Took(run, steps, i - 1);
    StepEnds(run[i - 1], steps[i - 1], k, e);
    if steps[i - 1] == Return(k, e) {
      q := i - 1;
    } else {
      q := EndedByReturn(run, steps, i - 1, k, e);
    }
  }

  /** What the waiting loads are told is what the install returned. */
  lemma {:induction false} ToldWhatItReturned(run: seq<World>, steps: seq<Step>, i: nat, k: nat, e: Ending) returns (q: nat)
    requires IsTrace(run, steps) && i < |run| && k in run[i].installs && run[i].installs[k].told == Ended(e)
    ensures q < i && steps[q] == Return(k, e)
  {
    assert Took(run, steps, i - 1);
    StepTells(run[i - 1], steps[i - 1], k);
    if k in run[i - 1].installs && run[i - 1].installs[k].told == Ended(e) {
      q := ToldWhatItReturned(run, steps, i - 1, k, e);
    } else {
      q := EndedByReturn(run, steps, i - 1, k, e);
    }
  }

  // ------------------------------------------------- what the load does

  /** A load looks for the first hold that covers it, and waits for that
      install exactly when there is one. */
  lemma LooksForTheFirst(w: World, id: nat, i: nat)
    requires Enabled(w, LookUp(id)) && i <= |w.holds|
    requires forall j :: 0 <= j < i ==> w.holds[j] !in w.loads[id].covering
    requires i < |w.holds| ==> w.holds[i] in w.loads[id].covering
    ensures id in Do(w, LookUp(id)).loads
    ensures Do(w, LookUp(id)).loads[id].phase == if i < |w.holds| then Waiting(w.holds[i]) else Fetching
  {
    FirstIsFound(w.holds, w.loads[id].covering, i);
  }

  lemma {:induction false} FirstIsFound(holds: seq<nat>, covering: set<nat>, i: nat)
    requires i <= |holds| && forall j :: 0 <= j < i ==> holds[j] !in covering
    requires i < |holds| ==> holds[i] in covering
    ensures FirstCovering(holds, covering) == if i < |holds| then Some(holds[i]) else None
    decreases i
  {
    if i > 0 {
      assert forall j :: 0 <= j < i - 1 ==> holds[1..][j] == holds[j + 1];
      FirstIsFound(holds[1..], covering, i - 1);
    }
  }

  /** A wait ends as its install did: with the install's failure, with none to
      report when it ended without an answer, and otherwise the load goes on,
      a stylesheet by way of looking for what was registered. */
  lemma WaitEndsAsTold(run: seq<World>, steps: seq<Step>, i: nat, id: nat, k: nat)
    requires IsTrace(run, steps) && i < |steps| && steps[i] == Learn(id)
    requires id in run[i].loads && run[i].loads[id].phase == Waiting(k)
    ensures k in run[i].installs && id in run[i + 1].loads
    ensures forall m :: run[i + 1].loads[id].phase == Refused(k, Some(m)) <==>
              run[i].installs[k].told == Ended(FailedWith(m))
    ensures run[i + 1].loads[id].phase == Refused(k, None) <==> run[i].installs[k].told == Closed
    ensures (run[i + 1].loads[id].phase == if run[i].loads[id].style then Checking else Fetching) <==>
              run[i].installs[k].told == Ended(Done)
  {
    assert Took(run, steps, i);
  }

  /** A wait ends by learning or by being cancelled, and in no other way. */
  lemma OnlyLearningEndsIt(run: seq<World>, steps: seq<Step>, i: nat, id: nat, k: nat)
    requires IsTrace(run, steps) && i < |steps| && id in run[i].loads && run[i].loads[id].phase == Waiting(k)
    ensures id in run[i + 1].loads
    ensures run[i + 1].loads[id].phase != Waiting(k) ==> steps[i] == Learn(id) || steps[i] == Cancel(id)
  {
    assert Took(run, steps, i);
    if !IsStepOf(steps[i], id) {
      OthersLeaveTheLoad(run[i], steps[i], id);
    }
  }

  /** A load that waited for `k` stands so, or `k` was told accordingly. */
  predicate Heeds(w: World, load: Load, k: nat) {
    match load.phase
    case Waiting(j) => j == k
    case Refused(j, Some(m)) => j == k && k in w.installs && w.installs[k].told == Ended(FailedWith(m))
    case Refused(j, None) => j == k && k in w.installs && w.installs[k].told == Closed
    case Dropped => true
    case Spawned => false
    case _ => k in w.installs && w.installs[k].told == Ended(Done)
  }

  lemma OwnStepHeeds(w: World, step: Step, id: nat, k: nat)
    requires Enabled(w, step) && IsStepOf(step, id) && id in w.loads && Heeds(w, w.loads[id], k)
    ensures id in Do(w, step).loads && Heeds(Do(w, step), Do(w, step).loads[id], k)
  {
  }

  lemma OtherStepHeeds(w: World, step: Step, id: nat, k: nat)
    requires InstallsOk(w) && Enabled(w, step) && !IsStepOf(step, id) && id in w.loads && Heeds(w, w.loads[id], k)
    ensures id in Do(w, step).loads && Heeds(Do(w, step), Do(w, step).loads[id], k)
  {
    OthersLeaveTheLoad(w, step, id);
    if k in w.installs {
      CompletionStays(w, step, k);
    }
  }

  lemma NextHeeds(w: World, v: World, id: nat, k: nat)
    requires InstallsOk(w) && Next(w, v) && id in w.loads && Heeds(w, w.loads[id], k)
    ensures id in v.loads && Heeds(v, v.loads[id], k)
  {
    var step :| Enabled(w, step) && v == Do(w, step);
    if IsStepOf(step, id) {
      OwnStepHeeds(w, step, id, k);
    } else {
      OtherStepHeeds(w, step, id, k);
    }
  }

  /** Over runs: a load that waited for an install and is past its wait was
      told that it ended well, and one that was refused, how it failed. */
  lemma {:induction false} WaitIsHeeded(run: seq<World>, j: nat, i: nat, id: nat, k: nat)
    requires IsRun(run) && j <= i < |run| && id in run[j].loads && run[j].loads[id].phase == Waiting(k)
    ensures id in run[i].loads && Heeds(run[i], run[i].loads[id], k)
    decreases i
  {
    if i > j {
      WaitIsHeeded(run, j, i - 1, id, k);
      RunsKeep(run, i - 1);
      assert Linked(run, i);
      NextHeeds(run[i - 1], run[i], id, k);
    }
  }

  lemma PastTheWaitMeansDone(run: seq<World>, j: nat, i: nat, id: nat, k: nat)
    requires IsRun(run) && j <= i < |run| && id in run[j].loads && run[j].loads[id].phase == Waiting(k)
    requires id in run[i].loads && (PastTheWait(run[i].loads[id]) || run[i].loads[id].phase.Answered?)
    ensures k in run[i].installs && run[i].installs[k].told == Ended(Done)
  {
    WaitIsHeeded(run, j, i, id, k);
  }

  // ------------------------------------------------------- stylesheets

  predicate BehindTheCheck(load: Load) {
    load.phase.Fetching? || load.phase.Fetched? || load.phase.Answered?
  }

  lemma CheckMoves(w: World, v: World, id: nat)
    requires Next(w, v) && id in w.loads && w.loads[id].style && !w.loads[id].phase.Spawned?
    requires id in v.loads && BehindTheCheck(v.loads[id])
    ensures BehindTheCheck(w.loads[id]) || w.loads[id].phase.Checking?
  {
    var step :| Enabled(w, step) && v == Do(w, step);
    if !IsStepOf(step, id) {
      OthersLeaveTheLoad(w, step, id);
    }
  }

  /** A stylesheet that waited looks for a registered sheet before it goes on
      to the transport or is answered. */
  lemma {:induction false} StylesheetsAreChecked(run: seq<World>, j: nat, i: nat, id: nat, k: nat) returns (c: nat)
    requires IsRun(run) && j <= i < |run| && id in run[j].loads && run[j].loads[id].style
    requires run[j].loads[id].phase == Waiting(k) && id in run[i].loads && BehindTheCheck(run[i].loads[id])
    ensures j < c < i && id in run[c].loads && run[c].loads[id].phase.Checking?
    decreases i
  {
    SkipsStay(run, j, i - 1, id);
    assert Linked(run, i);
    CheckMoves(run[i - 1], run[i], id);
    if run[i - 1].loads[id].phase.Checking? {
      c := i - 1;
    } else {
      c := StylesheetsAreChecked(run, j, i - 1, id, k);
    }
  }

  /** A load is answered on the spot only with the sheet registered under its
      URL then: when it is requested, or when it looks after its wait. */
  lemma AnswersAreRegistered(run: seq<World>, steps: seq<Step>, i: nat, id: nat, x: nat)
    requires IsTrace(run, steps) && i < |steps|
    requires id in run[i + 1].loads && run[i + 1].loads[id].phase == Answered(x)
    requires id in run[i].loads ==> run[i].loads[id].phase != Answered(x)
    ensures Registered(run[i], run[i + 1].loads[id].url) == Some(Sheet(x)) && run[i + 1].loads[id].style
  {
    assert Took(run, steps, i);
    TraceIsRun(run, steps);
    RunsKeep(run, i);
    if !IsStepOf(steps[i], id) {
      OthersLeaveTheLoad(run[i], steps[i], id);
    } else if id in run[i].loads {
      assert LoadOk(run[i], run[i].loads[id]);
    }
  }

  // ------------------------------------------------------- what is held

  /** An install holds its container's path and everything below it, whether or
      not the container's URL was written with a slash at its end. */
  lemma ContainersHoldWhatIsBelow(path: string, below: string)
    ensures Covers(HeldPath(path + ['/']), path) && Covers(HeldPath(path + ['/']), path + ['/'] + below)
    ensures path == "" || path[|path| - 1] != '/' ==> HeldPath(path) == HeldPath(path + ['/'])
  {
    assert (path + ['/'])[..|path|] == path && (path + ['/'] + below)[..|path|] == path;
    assert path[..|path|] == path;
  }
}
