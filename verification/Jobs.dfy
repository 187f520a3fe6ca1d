/** One engine thread: the queue of jobs its tasks push, the loop that drains
    it, and the notification that brings the loop out of its park. Every task
    step, job step and loop step is atomic, since they all run on one thread;
    what is arbitrary is which task runs, when, and what jobs do. */
module Jobs {
  import opened Options

  // ------------------------------------------------------------- the thread

  /** Where the thread's loop stands. Tasks run only inside a `block_on`:
      while the loop selects or is parked, and inside a job's wait. */
  datatype Place =
    | Draining                    // pops the next job
    | InJob(job: nat)
    | Waiting(job: nat)           // the job's own block_on
    | Selecting                   // polls `main`, then the notification
    | Parked(woken: bool)         // registered; `woken` once it was notified
    | Ended

  datatype Event = Pushed(job: nat) | Started(job: nat) | Returned(job: nat)

  /** What whoever pushed a job hears: nothing yet, its value, or that it
      never completed. */
  datatype Answer = Pending | Given | Absent

  datatype Thread = Thread(
    queue: seq<nat>,
    permit: bool,
    mainDone: bool,
    place: Place,
    events: seq<Event>,
    lost: seq<nat>,
    answers: map<nat, Answer>)

  const INITIAL := Thread([], false, false, Draining, [], [], map[])

  datatype Step =
    | PopJob | DrainEnds
    | JobWaits | WaitEnds | JobReturns | JobPanics
    | Push(job: nat) | MainFinishes
    | Select | Repoll

  /** Tasks run here, and may push jobs and let `main` finish. */
  predicate TasksRun(place: Place) {
    place.Waiting? || place.Selecting? || place.Parked?
  }

  predicate Enabled(t: Thread, step: Step) {
    match step
    case PopJob => t.place.Draining? && t.queue != []
    case DrainEnds => t.place.Draining? && t.queue == []
    case JobWaits => t.place.InJob?
    case WaitEnds => t.place.Waiting?
    case JobReturns => t.place.InJob?
    case JobPanics => t.place.InJob?
    case Push(job) => job !in t.answers && (TasksRun(t.place) || t.place.InJob? || t.place.Ended?)
    case MainFinishes => TasksRun(t.place) && !t.mainDone
    case Select => t.place.Selecting?
    case Repoll => t.place.Parked? && (t.mainDone || t.place.woken)
  }

  /** The thread is over: what is queued is dropped unrun. */
  function Cleared(t: Thread): Thread {
    t.(queue := [], lost := t.lost + t.queue, place := Ended,
       answers := map job | job in t.answers :: if job in t.queue then Absent else t.answers[job])
  }

  /** Queues a job and notifies: a parked loop is woken, and a loop that is
      not waiting finds the permit later. A thread that is gone drops it. */
  function PushedTo(t: Thread, job: nat): Thread {
    if t.place.Ended? then t.(answers := t.answers[job := Absent])
    else
      var queued := t.(queue := t.queue + [job], events := t.events + [Pushed(job)], answers := t.answers[job := Pending]);
      if t.place.Parked? && !t.place.woken then queued.(place := Parked(true)) else queued.(permit := true)
  }

  function Do(t: Thread, step: Step): Thread
    requires Enabled(t, step)
  {
    match step
    case PopJob => t.(queue := t.queue[1..], place := InJob(t.queue[0]), events := t.events + [Started(t.queue[0])])
    case DrainEnds => t.(place := Selecting)
    case JobWaits => t.(place := Waiting(t.place.job))
    case WaitEnds => t.(place := InJob(t.place.job))
    case JobReturns =>
      t.(place := Draining, events := t.events + [Returned(t.place.job)], answers := t.answers[t.place.job := Given])
    case JobPanics => Cleared(t.(answers := t.answers[t.place.job := Absent]))
    case Push(job) => PushedTo(t, job)
    case MainFinishes => t.(mainDone := true)
    case Select =>
      if t.mainDone then Cleared(t)
      else if t.permit then t.(permit := false, place := Draining)
      else t.(place := Parked(false))
    case Repoll =>
      // A notification that the select does not get to take becomes a permit.
      if t.mainDone then Cleared(t.(permit := t.permit || t.place.woken))
      else t.(place := Draining)
  }

  ghost predicate Next(t: Thread, u: Thread) {
    exists step :: Enabled(t, step) && u == Do(t, step)
  }

  ghost predicate Linked(run: seq<Thread>, i: nat)
    requires 0 < i < |run|
  {
    Next(run[i - 1], run[i])
  }

  ghost predicate IsRun(run: seq<Thread>) {
    && run != []
    && run[0] == INITIAL
    && forall i {:trigger Linked(run, i)} :: 0 < i < |run| ==> Linked(run, i)
  }

  // ------------------------------------------------------------ the history

  function PushedJobs(events: seq<Event>): seq<nat> {
    if events == [] then []
    else
      var last := events[|events| - 1];
      PushedJobs(events[..|events| - 1]) + (if last.Pushed? then [last.job] else [])
  }

  function StartedJobs(events: seq<Event>): seq<nat> {
    if events == [] then []
    else
      var last := events[|events| - 1];
      StartedJobs(events[..|events| - 1]) + (if last.Started? then [last.job] else [])
  }

  /** The job whose body the history leaves running. */
  function Running(events: seq<Event>): Option<nat> {
    if events == [] then None
    else
      match events[|events| - 1]
      case Started(job) => Some(job)
      case Returned(_) => None
      case Pushed(_) => Running(events[..|events| - 1])
  }

  /** A job starts only when none is running, and only the one running
      returns. */
  predicate OneAtATime(events: seq<Event>) {
    if events == [] then true
    else
      var before := events[..|events| - 1];
      OneAtATime(before)
      && match events[|events| - 1]
         case Started(_) => Running(before).None?
         case Returned(job) => Running(before) == Some(job)
         case Pushed(_) => true
  }

  lemma HistoryGrows(events: seq<Event>, e: Event)
    ensures PushedJobs(events + [e]) == PushedJobs(events) + (if e.Pushed? then [e.job] else [])
    ensures StartedJobs(events + [e]) == StartedJobs(events) + (if e.Started? then [e.job] else [])
    ensures Running(events + [e]) == (if e.Started? then Some(e.job) else if e.Returned? then None else Running(events))
    ensures OneAtATime(events + [e]) <==>
              OneAtATime(events) && (e.Started? ==> Running(events).None?) && (e.Returned? ==> Running(events) == Some(e.job))
  {
    assert (events + [e])[..|events|] == events;
  }

  predicate Distinct(jobs: seq<nat>) {
    forall i, j :: 0 <= i < j < |jobs| ==> jobs[i] != jobs[j]
  }

  // ---------------------------------------------------------- the invariants

  /** The job the loop is inside of. */
  function Current(t: Thread): Option<nat> {
    if t.place.InJob? || t.place.Waiting? then Some(t.place.job) else None
  }

  /** Jobs start in push order, each once: what was pushed is what started,
      then what was dropped, then what is queued. */
  ghost predicate OrderOk(t: Thread) {
    && PushedJobs(t.events) == StartedJobs(t.events) + t.lost + t.queue
    && Distinct(PushedJobs(t.events))
    && (forall job :: job in PushedJobs(t.events) ==> job in t.answers)
    && (t.place.Ended? ==> t.queue == [])
    && (!t.place.Ended? ==> t.lost == [])
  }

  ghost predicate BodiesOk(t: Thread) {
    && OneAtATime(t.events)
    && (!t.place.Ended? ==> Running(t.events) == Current(t))
    && (Current(t).Some? ==> Current(t).value in t.answers && Current(t).value !in t.queue)
  }

  /** No job is queued behind a park that nothing will end. */
  predicate WakeStored(t: Thread) {
    && (t.place.Selecting? && t.queue != [] ==> t.permit)
    && (t.place.Parked? && t.queue != [] ==> t.place.woken)
  }

  ghost predicate Completed(t: Thread, job: nat) {
    Returned(job) in t.events
  }

  /** An answer is given exactly for a job that returned, and pending only
      while the job is queued or running. */
  ghost predicate AnswerOk(t: Thread, job: nat) {
    && (job !in t.answers ==> !Completed(t, job) && job !in t.queue)
    && (job in t.answers ==>
          match t.answers[job]
          case Given => Completed(t, job) && job !in t.queue && Current(t) != Some(job)
          case Absent => !Completed(t, job) && job !in t.queue && Current(t) != Some(job)
          case Pending => !Completed(t, job) && (job in t.queue || Current(t) == Some(job)))
  }

  ghost predicate AnswersOk(t: Thread) {
    forall job: nat :: AnswerOk(t, job)
  }

  ghost predicate Inv(t: Thread) {
    OrderOk(t) && BodiesOk(t) && WakeStored(t) && AnswersOk(t)
  }

  lemma QueueIsDistinct(started: seq<nat>, queue: seq<nat>)
    requires Distinct(started + queue) && queue != []
    ensures queue[0] !in queue[1..]
  {
    var all := started + queue;
    assert all[|started|] == queue[0];
    assert forall k :: 0 <= k < |queue| - 1 ==> all[|started| + 1 + k] == queue[1..][k];
  }

  lemma FreshIsDistinct(jobs: seq<nat>, job: nat)
    requires Distinct(jobs) && job !in jobs
    ensures Distinct(jobs + [job])
  {
  }

  lemma PopStays(t: Thread)
    requires OrderOk(t) && BodiesOk(t) && Enabled(t, PopJob)
    ensures OrderOk(Do(t, PopJob)) && BodiesOk(Do(t, PopJob))
  {
    var job := t.queue[0];
    HistoryGrows(t.events, Started(job));
    assert t.lost == [] && StartedJobs(t.events) + [] == StartedJobs(t.events);
    QueueIsDistinct(StartedJobs(t.events), t.queue);
    PopRegroups(StartedJobs(t.events), t.queue);
    assert job in StartedJobs(t.events) + t.queue by {
      assert (StartedJobs(t.events) + t.queue)[|StartedJobs(t.events)|] == job;
    }
  }

  lemma PopRegroups(started: seq<nat>, queue: seq<nat>)
    requires queue != []
    ensures started + queue == (started + [queue[0]]) + [] + queue[1..]
  {
  }

  lemma PushKeepsOrder(t: Thread, job: nat)
    requires OrderOk(t) && job !in t.answers
    ensures OrderOk(PushedTo(t, job))
  {
    if !t.place.Ended? {
      HistoryGrows(t.events, Pushed(job));
      FreshIsDistinct(PushedJobs(t.events), job);
      PushRegroups(StartedJobs(t.events), t.lost, t.queue, job);
    }
  }

  lemma PushRegroups(started: seq<nat>, lost: seq<nat>, queue: seq<nat>, job: nat)
    ensures started + lost + queue + [job] == started + [] + lost + (queue + [job])
  {
  }

  lemma PushKeepsBodies(t: Thread, job: nat)
    requires BodiesOk(t) && job !in t.answers
    ensures BodiesOk(PushedTo(t, job))
  {
    HistoryGrows(t.events, Pushed(job));
  }

  lemma ReturnStays(t: Thread)
    requires Inv(t) && Enabled(t, JobReturns)
    ensures OrderOk(Do(t, JobReturns)) && BodiesOk(Do(t, JobReturns))
  {
    HistoryGrows(t.events, Returned(t.place.job));
  }

  lemma ClearedStays(t: Thread)
    requires OrderOk(t) && OneAtATime(t.events) && !t.place.Ended?
    ensures OrderOk(Cleared(t)) && BodiesOk(Cleared(t))
  {
    assert StartedJobs(t.events) + t.lost + t.queue == StartedJobs(t.events) + (t.lost + t.queue) + [];
  }

  lemma QuietStays(t: Thread, step: Step)
    requires Inv(t) && Enabled(t, step) && !step.PopJob? && !step.Push? && !step.JobReturns?
    ensures OrderOk(Do(t, step)) && BodiesOk(Do(t, step))
  {
    match step
    case JobPanics => ClearedStays(t.(answers := t.answers[t.place.job := Absent]));
    case Select => if t.mainDone { ClearedStays(t); }
    case Repoll => if t.mainDone { ClearedStays(t.(permit := t.permit || t.place.woken)); }
    case _ =>
  }

  lemma WakeStays(t: Thread, step: Step)
    requires Inv(t) && Enabled(t, step)
    ensures WakeStored(Do(t, step))
  {
  }

  lemma PoppedAnswer(t: Thread, job: nat)
    requires AnswerOk(t, job) && Enabled(t, PopJob)
    ensures AnswerOk(Do(t, PopJob), job)
  {
    assert t.queue == [t.queue[0]] + t.queue[1..];
    assert Completed(Do(t, PopJob), job) <==> Completed(t, job);
  }

  lemma PushedAnswer(t: Thread, pushed: nat, job: nat)
    requires AnswerOk(t, job) && pushed !in t.answers && Current(t) != Some(pushed)
    ensures AnswerOk(PushedTo(t, pushed), job)
  {
    assert Completed(PushedTo(t, pushed), job) <==> Completed(t, job);
  }

  lemma ReturnedAnswer(t: Thread, job: nat)
    requires AnswerOk(t, job) && Enabled(t, JobReturns) && t.place.job !in t.queue && t.place.job in t.answers
    ensures AnswerOk(Do(t, JobReturns), job)
  {
    var after := Do(t, JobReturns);
    assert after.events == t.events + [Returned(t.place.job)];
    assert Completed(after, job) <==> Completed(t, job) || job == t.place.job;
  }

  /** What is dropped is answered absent; nothing may be running. */
  lemma ClearedAnswer(t: Thread, job: nat)
    requires AnswerOk(t, job) && Current(t).None?
    ensures AnswerOk(Cleared(t), job)
  {
  }

  lemma PanickedAnswer(t: Thread, job: nat)
    requires AnswerOk(t, job) && Enabled(t, JobPanics) && t.place.job !in t.queue && t.place.job in t.answers
    ensures AnswerOk(Do(t, JobPanics), job)
  {
  }

  lemma QuietAnswer(t: Thread, step: Step, job: nat)
    requires AnswerOk(t, job) && Enabled(t, step)
    requires step.DrainEnds? || step.JobWaits? || step.WaitEnds? || step.MainFinishes?
    ensures AnswerOk(Do(t, step), job)
  {
  }

  lemma SelectAnswer(t: Thread, step: Step, job: nat)
    requires AnswerOk(t, job) && Enabled(t, step) && (step.Select? || step.Repoll?)
    ensures AnswerOk(Do(t, step), job)
  {
    if t.mainDone {
      ClearedAnswer(t, job);
    }
  }

  lemma AnswerStays(t: Thread, step: Step, job: nat)
    requires AnswerOk(t, job) && BodiesOk(t) && Enabled(t, step)
    ensures AnswerOk(Do(t, step), job)
  {
    match step
    case PopJob => PoppedAnswer(t, job);
    case Push(pushed) => PushedAnswer(t, pushed, job);
    case JobReturns => ReturnedAnswer(t, job);
    case JobPanics => PanickedAnswer(t, job);
    case Select => SelectAnswer(t, step, job);
    case Repoll => SelectAnswer(t, step, job);
    case _ => QuietAnswer(t, step, job);
  }

  lemma AnswersStay(t: Thread, step: Step)
    requires AnswersOk(t) && BodiesOk(t) && Enabled(t, step)
    ensures AnswersOk(Do(t, step))
  {
    forall job: nat ensures AnswerOk(Do(t, step), job) {
      assert AnswerOk(t, job);
      AnswerStays(t, step, job);
    }
  }

  lemma StepKeepsInv(t: Thread, step: Step)
    requires Inv(t) && Enabled(t, step)
    ensures Inv(Do(t, step))
  {
    WakeStays(t, step);
    AnswersStay(t, step);
    match step
    case PopJob => PopStays(t);
    case Push(job) => PushKeepsOrder(t, job); PushKeepsBodies(t, job);
    case JobReturns => ReturnStays(t);
    case _ => QuietStays(t, step);
  }

  lemma NextKeepsInv(t: Thread, u: Thread)
    requires Inv(t) && Next(t, u)
    ensures Inv(u)
  {
    var step :| Enabled(t, step) && u == Do(t, step);
    StepKeepsInv(t, step);
  }

  lemma {:induction false} RunsKeep(run: seq<Thread>, i: nat)
    requires IsRun(run) && i < |run|
    ensures Inv(run[i])
  {
    if i == 0 {
    } else {
      RunsKeep(run, i - 1);
      assert Linked(run, i);
      NextKeepsInv(run[i - 1], run[i]);
    }
  }

  // ------------------------------------------------------------ the theorems

  /** A job that starts later finds the one before it returned. */
  lemma {:induction false} StartsFindReturned(events: seq<Event>, a: nat, c: nat, job: nat, other: nat)
    requires OneAtATime(events) && a < c < |events|
    requires events[a] == Started(job) && events[c] == Started(other)
    ensures exists r :: a < r < c && events[r] == Returned(job)
    decreases |events|
  {
    var init := events[..|events| - 1];
    if c < |events| - 1 {
      StartsFindReturned(init, a, c, job, other);
      var r :| a < r < c && init[r] == Returned(job);
      assert events[r] == Returned(job);
    } else {
      var r := IdleMeansReturned(init, a, job);
      assert events[r] == Returned(job);
    }
  }

  lemma {:induction false} IdleMeansReturned(events: seq<Event>, a: nat, job: nat) returns (r: nat)
    requires OneAtATime(events) && a < |events| && events[a] == Started(job) && Running(events).None?
    ensures a < r < |events| && events[r] == Returned(job)
    decreases |events|
  {
    var last := |events| - 1;
    var init := events[..last];
    if events[last].Pushed? {
      r := IdleMeansReturned(init, a, job);
    } else {
      r := RunningIsLast(init, a, job, events[last].job);
      r := if r < last then r else last;
    }
  }

  /** While `current` runs, `job`, which started before, is either it or has
      returned. */
  lemma {:induction false} RunningIsLast(events: seq<Event>, a: nat, job: nat, current: nat) returns (r: nat)
    requires OneAtATime(events) && a < |events| && events[a] == Started(job) && Running(events) == Some(current)
    ensures a < r <= |events| && (r < |events| ==> events[r] == Returned(job)) && (r == |events| ==> job == current)
    decreases |events|
  {
    var last := |events| - 1;
    var init := events[..last];
    if a == last {
      r := |events|;
    } else if events[last].Pushed? {
      r := RunningIsLast(init, a, job, current);
      r := if r < last then r else |events|;
    } else {
      r := IdleMeansReturned(init, a, job);
    }
  }

  /** Job bodies run one at a time: between two starts the first returns. */
  lemma BodiesRunOneAtATime(run: seq<Thread>, i: nat, a: nat, c: nat)
    requires IsRun(run) && i < |run| && a < c < |run[i].events|
    requires run[i].events[a].Started? && run[i].events[c].Started?
    ensures exists r :: a < r < c && run[i].events[r] == Returned(run[i].events[a].job)
  {
    RunsKeep(run, i);
    StartsFindReturned(run[i].events, a, c, run[i].events[a].job, run[i].events[c].job);
  }

  /** Jobs start in the order they were pushed, each at most once; what never
      started is queued, or was dropped when the thread ended. */
  lemma JobsStartInPushOrder(run: seq<Thread>, i: nat)
    requires IsRun(run) && i < |run|
    ensures PushedJobs(run[i].events) == StartedJobs(run[i].events) + run[i].lost + run[i].queue
    ensures Distinct(PushedJobs(run[i].events)) && Distinct(StartedJobs(run[i].events))
    ensures run[i].place.Ended? || run[i].lost == []
  {
    RunsKeep(run, i);
    var t := run[i];
    var pushed, started := PushedJobs(t.events), StartedJobs(t.events);
    assert forall k :: 0 <= k < |started| ==> started[k] == pushed[k];
  }

  /** A job pushed while another is running, in its own body or in its wait,
      starts only after that one returned. */
  lemma PushedDuringStartsAfter(run: seq<Thread>, i: nat, a: nat, b: nat, c: nat)
    requires IsRun(run) && i < |run| && a < b < c < |run[i].events|
    requires run[i].events[a].Started? && run[i].events[b].Pushed? && run[i].events[c] == Started(run[i].events[b].job)
    requires forall r :: a < r < b ==> run[i].events[r] != Returned(run[i].events[a].job)
    ensures exists r :: b < r < c && run[i].events[r] == Returned(run[i].events[a].job)
  {
    BodiesRunOneAtATime(run, i, a, c);
    var r :| a < r < c && run[i].events[r] == Returned(run[i].events[a].job);
    assert r != b;
  }

  /** The loop never parks on a queued job: while anything is queued behind a
      park, the notification that ends it has been made. */
  lemma NeverParksOnAJob(run: seq<Thread>, i: nat)
    requires IsRun(run) && i < |run| && run[i].queue != []
    ensures run[i].place.Selecting? ==> run[i].permit
    ensures run[i].place.Parked? ==> run[i].place.woken
    ensures run[i].place.Parked? ==> Enabled(run[i], Repoll)
  {
    RunsKeep(run, i);
  }

  /** An answer is absent only if the job did not complete, it is given only
      if it did, and once the thread has ended nobody is left waiting. */
  lemma AnswersTellTheTruth(run: seq<Thread>, i: nat, job: nat)
    requires IsRun(run) && i < |run| && job in run[i].answers
    ensures run[i].answers[job] == Absent ==> !Completed(run[i], job)
    ensures run[i].answers[job] == Given <==> Completed(run[i], job)
    ensures run[i].place.Ended? ==> run[i].answers[job] != Pending
    ensures run[i].answers[job] == Pending ==> job in run[i].queue || Current(run[i]) == Some(job)
  {
    RunsKeep(run, i);
    assert AnswerOk(run[i], job);
  }

  lemma StepSettles(t: Thread, step: Step, job: nat)
    requires AnswerOk(t, job) && Enabled(t, step) && job in t.answers && t.answers[job] != Pending
    ensures job in Do(t, step).answers && Do(t, step).answers[job] == t.answers[job]
  {
  }

  lemma NextSettles(t: Thread, u: Thread, job: nat)
    requires Inv(t) && Next(t, u) && job in t.answers && t.answers[job] != Pending
    ensures job in u.answers && u.answers[job] == t.answers[job]
  {
    assert AnswerOk(t, job);
    var step :| Enabled(t, step) && u == Do(t, step);
    StepSettles(t, step, job);
  }

  /** An answer, once there, does not change: a dropped job is never run. */
  lemma {:induction false} AnswersAreFinal(run: seq<Thread>, i: nat, j: nat, job: nat)
    requires IsRun(run) && i <= j < |run| && job in run[i].answers && run[i].answers[job] != Pending
    ensures job in run[j].answers && run[j].answers[job] == run[i].answers[job]
    decreases j
  {
    if i == j {
    } else {
      AnswersAreFinal(run, i, j - 1, job);
      RunsKeep(run, j - 1);
      assert Linked(run, j);
      NextSettles(run[j - 1], run[j], job);
    }
  }

  // ------------------------------------------------------------- the end

  /** The thread ends when a job panics, or where its loop looks whether `main`
      is done and finds that it is; and in no other way. */
  lemma EndsOnlySo(t: Thread, step: Step)
    requires Enabled(t, step) && !t.place.Ended?
    ensures Do(t, step).place.Ended? <==> step == JobPanics || ((step == Select || step == Repoll) && t.mainDone)
  {
  }

  /** Once `main` is done the loop does not wait for anything else: a drained
      queue is followed by the look that ends it, and a park is over. */
  lemma MainEndsTheThread(run: seq<Thread>, i: nat)
    requires IsRun(run) && i < |run| && run[i].mainDone
    ensures run[i].place.Selecting? ==> Enabled(run[i], Select) && Do(run[i], Select).place.Ended?
    ensures run[i].place.Parked? ==> Enabled(run[i], Repoll) && Do(run[i], Repoll).place.Ended?
    ensures run[i].place.Draining? ==> Enabled(run[i], PopJob) || Enabled(run[i], DrainEnds)
  {
  }
}
